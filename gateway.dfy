/** The registry of named queues (the source's `qgatawey` module around the
    global `QUEUES` map). Each call is modelled as one sequential step: the
    locks, threads and channels around it are not part of the model. */
module Gateway {
  import opened Outcomes
  import opened Clients
  import opened Messages
  import QueueSpec
  import opened Queues

  class Registry {
    var queues: map<string, Queue>

    /** Every queue is registered under its own name and keeps its invariant.
        Since names are map keys, two entries never share a queue object. */
    ghost predicate Valid()
      reads this, queues.Values
    {
      forall n :: n in queues ==> queues[n].name == n && queues[n].Valid()
    }

    constructor ()
      ensures Valid() && queues == map[]
    {
      queues := map[];
    }

    /** `queue_insert`: refuses a name that is already registered and changes
        nothing; otherwise registers the queue under its name, leaves every
        other entry as it was, and returns the state of all queues. */
    method QueueInsert(queue: Queue) returns (r: Result<map<string, QueueSpec.QueueView>>)
      requires Valid() && queue.Valid()
      modifies this
      ensures Valid()
      ensures queue.name in old(queues) ==> r == Err(AlreadyExists) && queues == old(queues)
      ensures queue.name !in old(queues) ==> r.Ok? && queues == old(queues)[queue.name := queue]
      ensures queue.name !in old(queues) ==> ViewsOf(queues) == old(ViewsOf(queues))[queue.name := queue.View()]
      ensures r.Ok? ==> r.value == ViewsOf(queues)
    {
      if queue.name !in queues {
        queues := queues[queue.name := queue];
        r := Ok(ViewsOf(queues));
      } else {
        r := Err(AlreadyExists);
      }
    }

    /** `new_queue`: a new queue created by `creator`, then `queue_insert`. */
    method NewQueue(name: string, creator: Client) returns (r: Result<map<string, QueueSpec.QueueView>>)
      requires Valid()
      modifies this
      ensures Valid()
      ensures name in old(queues) ==> r == Err(AlreadyExists) && queues == old(queues)
      ensures name !in old(queues) ==> r.Ok? && r.value == ViewsOf(queues)
      ensures name !in old(queues) ==> ViewsOf(queues) == old(ViewsOf(queues))[name := QueueSpec.Init(name, creator)]
    {
      var queue := new Queue(name, creator);
      assert queue.name == name;
      r := QueueInsert(queue);
    }

    /** `_sub_or_unsub`: an unknown name is `NotFound` and changes nothing;
        otherwise the named queue does `sub` or `unsub` and no other queue
        changes. */
    method SubOrUnsub(client: Client, name: string, sub: bool) returns (r: Result<seq<Client>>)
      requires Valid()
      modifies queues.Values
      ensures Valid() && queues == old(queues)
      ensures name !in queues ==> r == Err(NotFound) && ViewsOf(queues) == old(ViewsOf(queues))
      ensures name in queues ==>
        var s := if sub then QueueSpec.Sub(old(ViewsOf(queues))[name], client)
                 else QueueSpec.Unsub(old(ViewsOf(queues))[name], client);
        r == s.result && ViewsOf(queues) == old(ViewsOf(queues))[name := s.after]
    {
      if name in queues {
        var q := queues[name];
        if sub {
          r := q.Sub(client);
        } else {
          r := q.Unsub(client);
        }
        OthersUnchanged(name);
      } else {
        r := Err(NotFound);
      }
    }

    /** `_pub_or_unpub`: the same for `add_publisher` and `remove_publisher`. */
    method PubOrUnpub(client: Client, name: string, publ: bool) returns (r: Result<seq<Client>>)
      requires Valid()
      modifies queues.Values
      ensures Valid() && queues == old(queues)
      ensures name !in queues ==> r == Err(NotFound) && ViewsOf(queues) == old(ViewsOf(queues))
      ensures name in queues ==>
        var s := if publ then QueueSpec.AddPublisher(old(ViewsOf(queues))[name], client)
                 else QueueSpec.RemovePublisher(old(ViewsOf(queues))[name], client);
        r == s.result && ViewsOf(queues) == old(ViewsOf(queues))[name := s.after]
    {
      if name in queues {
        var q := queues[name];
        if publ {
          r := q.AddPublisher(client);
        } else {
          r := q.RemovePublisher(client);
        }
        OthersUnchanged(name);
      } else {
        r := Err(NotFound);
      }
    }

    /** `push_in_queue`: an unknown name is `NotFound` and changes nothing;
        otherwise the named queue does `push` and no other queue changes. */
    method PushInQueue(client: Client, name: string, data: string, priority: Option<nat>,
                       lifetime: Time, created: Time) returns (r: Result<Msg>)
      requires Valid()
      modifies queues.Values
      ensures Valid() && queues == old(queues)
      ensures name !in queues ==> r == Err(NotFound) && ViewsOf(queues) == old(ViewsOf(queues))
      ensures name in queues ==>
        var s := QueueSpec.Push(old(ViewsOf(queues))[name], data, client, priority, lifetime, created);
        r == s.result && ViewsOf(queues) == old(ViewsOf(queues))[name := s.after]
    {
      if name in queues {
        var q := queues[name];
        r := q.Push(data, client, priority, lifetime, created);
        OthersUnchanged(name);
      } else {
        r := Err(NotFound);
      }
    }

    /** After a step that changed only the queue registered under `name`,
        every other queue and its invariant are as they were. */
    twostate lemma OthersUnchanged(name: string)
      requires name in queues && queues == old(queues)
      requires old(Valid()) && queues[name].Valid()
      requires forall n :: n in queues && n != name ==> unchanged(queues[n])
      ensures Valid()
      ensures ViewsOf(queues) == old(ViewsOf(queues))[name := queues[name].View()]
    {
    }
  }
}
