/** The meaning of one queue's operations, as functions from the queue's state
    before a call to the call's result and the state after it. The class
    `Queues.Queue` is proved to behave exactly like these functions. */
module QueueSpec {
  import opened Outcomes
  import opened Clients
  import opened Messages
  import opened Members

  /** The observable state of a queue. */
  datatype QueueView = QueueView(
    name: string,
    publishers: seq<Client>,
    subscribers: seq<Client>,
    data: seq<Msg>)

  /** The invariant every queue keeps: no client is listed twice as publisher
      or twice as subscriber (being both at once is allowed). */
  ghost predicate Valid(q: QueueView) {
    NoDup(q.publishers) && NoDup(q.subscribers)
  }

  /** What one call returns, and the queue's state after it. */
  datatype Step<+T> = Step(result: Result<T>, after: QueueView)

  /** A freshly created queue: the creator is its only publisher. */
  function Init(name: string, creator: Client): (q: QueueView)
    ensures Valid(q)
    ensures q.name == name && q.publishers == [creator]
    ensures q.subscribers == [] && q.data == []
  {
    QueueView(name, [creator], [], [])
  }

  /** `sub`: fails exactly when the client already subscribes, changing
      nothing; otherwise appends it and returns the new subscriber list. */
  function Sub(q: QueueView, c: Client): (s: Step<seq<Client>>)
    ensures s.result.Err? <==> c in q.subscribers
    ensures s.result.Err? ==> s.result.error == AlreadySubscriber && s.after == q
    ensures s.result.Ok? ==> s.after.subscribers == q.subscribers + [c]
    ensures s.result.Ok? ==> s.result.value == s.after.subscribers
    ensures s.after.name == q.name && s.after.publishers == q.publishers && s.after.data == q.data
    ensures Valid(q) ==> Valid(s.after) && c in s.after.subscribers
  {
    if c in q.subscribers then Step(Err(AlreadySubscriber), q)
    else
      var q' := q.(subscribers := q.subscribers + [c]);
      Step(Ok(q'.subscribers), q')
  }

  /** `unsub`: fails exactly when the client does not subscribe, changing
      nothing; otherwise removes its first occurrence, keeping the others in
      order, and returns the new list. */
  function Unsub(q: QueueView, c: Client): (s: Step<seq<Client>>)
    ensures s.result.Err? <==> c !in q.subscribers
    ensures s.result.Err? ==> s.result.error == NotSubscriber && s.after == q
    ensures s.result.Ok? ==> s.after.subscribers == RemoveFirst(q.subscribers, c)
    ensures s.result.Ok? ==> |s.after.subscribers| == |q.subscribers| - 1
    ensures s.result.Ok? ==> s.result.value == s.after.subscribers
    ensures s.after.name == q.name && s.after.publishers == q.publishers && s.after.data == q.data
    ensures Valid(q) ==> Valid(s.after) && c !in s.after.subscribers
    ensures Valid(q) ==> forall d :: d != c ==> (d in s.after.subscribers <==> d in q.subscribers)
  {
    if c !in q.subscribers then Step(Err(NotSubscriber), q)
    else
      var q' := q.(subscribers := RemoveFirst(q.subscribers, c));
      assert Valid(q) ==> Valid(q') && c !in q'.subscribers
                          && forall d :: d != c ==> (d in q'.subscribers <==> d in q.subscribers) by {
        if Valid(q) { RemoveFirstNoDup(q.subscribers, c); }
      }
      Step(Ok(q'.subscribers), q')
  }

  /** `add_publisher`: `sub` applied to the publisher list. */
  function AddPublisher(q: QueueView, c: Client): (s: Step<seq<Client>>)
    ensures s.result.Err? <==> c in q.publishers
    ensures s.result.Err? ==> s.result.error == AlreadyPublisher && s.after == q
    ensures s.result.Ok? ==> s.after.publishers == q.publishers + [c]
    ensures s.result.Ok? ==> s.result.value == s.after.publishers
    ensures s.after.name == q.name && s.after.subscribers == q.subscribers && s.after.data == q.data
    ensures Valid(q) ==> Valid(s.after) && c in s.after.publishers
  {
    if c in q.publishers then Step(Err(AlreadyPublisher), q)
    else
      var q' := q.(publishers := q.publishers + [c]);
      Step(Ok(q'.publishers), q')
  }

  /** `remove_publisher`: `unsub` applied to the publisher list. The last
      publisher may be removed, after which nobody can push. */
  function RemovePublisher(q: QueueView, c: Client): (s: Step<seq<Client>>)
    ensures s.result.Err? <==> c !in q.publishers
    ensures s.result.Err? ==> s.result.error == NotPublisher && s.after == q
    ensures s.result.Ok? ==> s.after.publishers == RemoveFirst(q.publishers, c)
    ensures s.result.Ok? ==> |s.after.publishers| == |q.publishers| - 1
    ensures s.result.Ok? ==> s.result.value == s.after.publishers
    ensures s.after.name == q.name && s.after.subscribers == q.subscribers && s.after.data == q.data
    ensures Valid(q) ==> Valid(s.after) && c !in s.after.publishers
    ensures Valid(q) ==> forall d :: d != c ==> (d in s.after.publishers <==> d in q.publishers)
  {
    if c !in q.publishers then Step(Err(NotPublisher), q)
    else
      var q' := q.(publishers := RemoveFirst(q.publishers, c));
      assert Valid(q) ==> Valid(q') && c !in q'.publishers
                          && forall d :: d != c ==> (d in q'.publishers <==> d in q.publishers) by {
        if Valid(q) { RemoveFirstNoDup(q.publishers, c); }
      }
      Step(Ok(q'.publishers), q')
  }

  /** `push`: fails exactly when the sender is not a publisher, leaving the
      log as it was; otherwise appends one active message whose recipients are
      the subscribers at call time, and returns it. Membership is untouched. */
  function Push(q: QueueView, data: string, sender: Client, priority: Option<nat>,
                lifetime: Time, created: Time): (s: Step<Msg>)
    ensures s.result.Err? <==> sender !in q.publishers
    ensures s.result.Err? ==> s.result.error == NotPublisher && s.after == q
    ensures s.result.Ok? ==> s.after.data == q.data + [s.result.value]
    ensures s.result.Ok? ==> && s.result.value.sender == sender
                             && s.result.value.recipients == q.subscribers
                             && s.result.value.data == data
                             && s.result.value.active
                             && s.result.value.priority == priority.GetOr(0)
    ensures s.after.name == q.name && s.after.publishers == q.publishers
    ensures s.after.subscribers == q.subscribers
    ensures Valid(q) ==> Valid(s.after)
  {
    if sender !in q.publishers then Step(Err(NotPublisher), q)
    else
      var m := NewMsg(data, sender, q.subscribers, lifetime, priority, created);
      Step(Ok(m), q.(data := q.data + [m]))
  }

  /** Any call a client can make on a queue. */
  datatype Op =
    | Subscribe(client: Client)
    | Unsubscribe(client: Client)
    | Publish(client: Client)
    | Unpublish(client: Client)
    | Send(data: string, sender: Client, priority: Option<nat>, lifetime: Time, created: Time)

  /** The state after one call, whether it succeeded or not. */
  function Apply(q: QueueView, op: Op): QueueView {
    match op
    case Subscribe(c) => Sub(q, c).after
    case Unsubscribe(c) => Unsub(q, c).after
    case Publish(c) => AddPublisher(q, c).after
    case Unpublish(c) => RemovePublisher(q, c).after
    case Send(d, c, p, lt, cr) => Push(q, d, c, p, lt, cr).after
  }

  /** The state after a series of calls, in order. */
  function Run(q: QueueView, ops: seq<Op>): QueueView
    decreases |ops|
  {
    if ops == [] then q else Run(Apply(q, ops[0]), ops[1..])
  }

  /** Over any series of calls the name never changes, the queue invariant
      holds throughout, and the message log only grows at its end: every
      message already logged, with its recipient snapshot, stays as it was. */
  lemma {:induction false} RunPreserves(q: QueueView, ops: seq<Op>)
    requires Valid(q)
    ensures Valid(Run(q, ops))
    ensures Run(q, ops).name == q.name
    ensures q.data <= Run(q, ops).data
    decreases |ops|
  {
    if ops != [] {
      var q' := Apply(q, ops[0]);
      assert Valid(q') && q'.name == q.name && q.data <= q'.data;
      RunPreserves(q', ops[1..]);
    }
  }
}
