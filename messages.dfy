/** Messages: immutable records made by a successful push. */
module Messages {
  import opened Outcomes
  import opened Clients

  /** A clock reading. The model never computes with it. */
  type Time = nat

  /** One pushed message. `recipients` is a copy of the queue's subscriber list
      at push time; `created` and `lifetime` are two clock readings taken by the
      push (the computed expiry is discarded by the source). */
  datatype Msg = Msg(
    sender: Client,
    recipients: seq<Client>,
    created: Time,
    lifetime: Time,
    data: string,
    active: bool,
    priority: nat)

  /** Builds a message: always active, with priority 0 when none is given. */
  function NewMsg(data: string, sender: Client, recipients: seq<Client>,
                  lifetime: Time, priority: Option<nat>, created: Time): (m: Msg)
    ensures m.active
    ensures priority.None? ==> m.priority == 0
    ensures priority.Some? ==> m.priority == priority.value
    ensures m.sender == sender && m.recipients == recipients && m.data == data
    ensures m.created == created && m.lifetime == lifetime
  {
    Msg(sender, recipients, created, lifetime, data, true, priority.GetOr(0))
  }
}
