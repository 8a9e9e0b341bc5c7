/** The queue object: its membership lists and message log are updated in
    place by its methods, each of which behaves as the matching function of
    `QueueSpec` on the state before the call. */
module Queues {
  import opened Outcomes
  import opened Clients
  import opened Messages
  import opened Members
  import QueueSpec

  /** The state of every queue of a name-to-queue map, keyed by the same names
      (the source's `queues_to_json`, before rendering). */
  function ViewsOf(queues: map<string, Queue>): (v: map<string, QueueSpec.QueueView>)
    reads queues.Values
    ensures v.Keys == queues.Keys
    ensures forall n :: n in queues ==> v[n] == queues[n].View()
  {
    map n | n in queues :: queues[n].View()
  }

  class Queue {
    const name: string
    var publishers: seq<Client>
    var subscribers: seq<Client>
    var data: seq<Msg>

    /** The queue's current state as a value. */
    function View(): QueueSpec.QueueView
      reads this
    {
      QueueSpec.QueueView(name, publishers, subscribers, data)
    }

    ghost predicate Valid()
      reads this
    {
      QueueSpec.Valid(View())
    }

    /** A queue whose creator is its only publisher, with no subscribers and
        an empty log. */
    constructor (name: string, creator: Client)
      ensures Valid()
      ensures View() == QueueSpec.Init(name, creator)
    {
      this.name := name;
      publishers := [creator];
      subscribers := [];
      data := [];
    }

    method Push(data: string, publisher: Client, priority: Option<nat>,
                lifetime: Time, created: Time) returns (r: Result<Msg>)
      requires Valid()
      modifies this
      ensures Valid()
      ensures r == QueueSpec.Push(old(View()), data, publisher, priority, lifetime, created).result
      ensures View() == QueueSpec.Push(old(View()), data, publisher, priority, lifetime, created).after
    {
      var p := Position(publishers, publisher);
      match p
      case Some(_) =>
        var msg := NewMsg(data, publisher, subscribers, lifetime, priority, created);
        this.data := this.data + [msg];
        r := Ok(msg);
      case None =>
        r := Err(NotPublisher);
    }

    method Sub(subscriber: Client) returns (r: Result<seq<Client>>)
      requires Valid()
      modifies this
      ensures Valid()
      ensures r == QueueSpec.Sub(old(View()), subscriber).result
      ensures View() == QueueSpec.Sub(old(View()), subscriber).after
    {
      var p := Position(subscribers, subscriber);
      match p
      case Some(_) =>
        r := Err(AlreadySubscriber);
      case None =>
        subscribers := subscribers + [subscriber];
        r := Ok(subscribers);
    }

    method Unsub(subscriber: Client) returns (r: Result<seq<Client>>)
      requires Valid()
      modifies this
      ensures Valid()
      ensures r == QueueSpec.Unsub(old(View()), subscriber).result
      ensures View() == QueueSpec.Unsub(old(View()), subscriber).after
    {
      var p := Position(subscribers, subscriber);
      match p
      case Some(index) =>
        RemoveFirstAt(subscribers, subscriber, index);
        subscribers := subscribers[..index] + subscribers[index + 1..];
        r := Ok(subscribers);
      case None =>
        r := Err(NotSubscriber);
    }

    method AddPublisher(publisher: Client) returns (r: Result<seq<Client>>)
      requires Valid()
      modifies this
      ensures Valid()
      ensures r == QueueSpec.AddPublisher(old(View()), publisher).result
      ensures View() == QueueSpec.AddPublisher(old(View()), publisher).after
    {
      var p := Position(publishers, publisher);
      match p
      case Some(_) =>
        r := Err(AlreadyPublisher);
      case None =>
        publishers := publishers + [publisher];
        r := Ok(publishers);
    }

    method RemovePublisher(publisher: Client) returns (r: Result<seq<Client>>)
      requires Valid()
      modifies this
      ensures Valid()
      ensures r == QueueSpec.RemovePublisher(old(View()), publisher).result
      ensures View() == QueueSpec.RemovePublisher(old(View()), publisher).after
    {
      var p := Position(publishers, publisher);
      match p
      case Some(index) =>
        RemoveFirstAt(publishers, publisher, index);
        publishers := publishers[..index] + publishers[index + 1..];
        r := Ok(publishers);
      case None =>
        r := Err(NotPublisher);
    }
  }
}
