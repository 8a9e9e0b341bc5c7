/** The per-client log (`Client::_get_client_log` and `Client::get_my_data`):
    a read-only scan of every registered queue collecting what one client
    publishes to, subscribes to and has sent. */
module ClientLog {
  import opened Outcomes
  import opened Clients
  import opened Messages
  import opened Members
  import opened QueueSpec
  import opened Queues

  /** One element of the log: a queue's name, or a message. */
  datatype LogEntry = QueueName(name: string) | Message(msg: Msg)

  /** The membership list a log kind looks at: "pub" the publishers, any other
      kind (other than "msg") the subscribers. */
  function Listed(q: QueueView, kind: string): seq<Client> {
    if kind == "pub" then q.publishers else q.subscribers
  }

  /** The messages of `log` sent by `client`, in log order. */
  function SentBy(log: seq<Msg>, client: Client): (r: seq<Msg>)
    ensures forall m :: m in r <==> m in log && m.sender == client
  {
    if log == [] then []
    else
      assert forall m :: m in log <==> m == log[0] || m in log[1..];
      (if log[0].sender == client then [log[0]] else []) + SentBy(log[1..], client)
  }

  /** Every message the client sent is kept as often as it occurs in the log,
      and no other message is kept. */
  lemma {:induction false} SentByCount(log: seq<Msg>, client: Client, m: Msg)
    ensures multiset(SentBy(log, client))[m] == if m.sender == client then multiset(log)[m] else 0
  {
    if log != [] {
      assert log == [log[0]] + log[1..];
      SentByCount(log[1..], client, m);
    }
  }

  /** Filtering a log split in two filters each part and keeps them in order,
      so the kept messages stay in log order. */
  lemma {:induction false} SentByAppend(a: seq<Msg>, b: seq<Msg>, client: Client)
    ensures SentBy(a + b, client) == SentBy(a, client) + SentBy(b, client)
  {
    if a == [] {
      assert a + b == b;
    } else {
      assert (a + b)[0] == a[0] && (a + b)[1..] == a[1..] + b;
      SentByAppend(a[1..], b, client);
    }
  }

  /** A successful push adds exactly the new message to its sender's sent
      messages, at the end, and changes nobody else's. */
  lemma PushExtendsSentBy(q: QueueView, data: string, sender: Client, priority: Option<nat>,
                          lifetime: Time, created: Time, client: Client)
    requires Push(q, data, sender, priority, lifetime, created).result.Ok?
    ensures var s := Push(q, data, sender, priority, lifetime, created);
            SentBy(s.after.data, client) ==
              SentBy(q.data, client) + (if client == sender then [s.result.value] else [])
  {
    var s := Push(q, data, sender, priority, lifetime, created);
    SentByAppend(q.data, [s.result.value], client);
    assert SentBy([s.result.value], client) == (if client == sender then [s.result.value] else []) by {
      assert [s.result.value][1..] == [];
    }
  }

  function AsEntries(msgs: seq<Msg>): seq<LogEntry> {
    seq(|msgs|, i requires 0 <= i < |msgs| => Message(msgs[i]))
  }

  /** What the scan contributes for the queue registered under `n`. */
  function Entries(n: string, q: QueueView, client: Client, kind: string): seq<LogEntry> {
    if kind != "msg" then
      (if client in Listed(q, kind) then [QueueName(n)] else [])
    else
      AsEntries(SentBy(q.data, client))
  }

  /** The log built by visiting the queues named in `order`, in that order. */
  function Log(views: map<string, QueueView>, order: seq<string>, client: Client, kind: string): seq<LogEntry>
    requires forall n :: n in order ==> n in views
    decreases |order|
  {
    if order == [] then []
    else
      var last := order[|order| - 1];
      Log(views, order[..|order| - 1], client, kind) + Entries(last, views[last], client, kind)
  }

  /** `order` lists every key of `keys` exactly once. */
  ghost predicate IsEnumeration(order: seq<string>, keys: set<string>) {
    NoDup(order) && forall n :: n in order <==> n in keys
  }

  /** The names of the queues the client publishes to. */
  ghost function PublisherOf(views: map<string, QueueView>, client: Client): set<string> {
    set n | n in views && client in views[n].publishers
  }

  /** The names of the queues the client subscribes to. */
  ghost function SubscriberOf(views: map<string, QueueView>, client: Client): set<string> {
    set n | n in views && client in views[n].subscribers
  }

  /** `data` lists exactly the queue names of `names`, each once. */
  ghost predicate NamesExactly(data: seq<LogEntry>, names: set<string>) {
    && (forall e :: e in data ==> e.QueueName?)
    && NoDup(data)
    && (forall n :: QueueName(n) in data <==> n in names)
  }

  /** `data` is every queue's messages from `client`, each queue's in log
      order, the queues taken once each in some order. */
  ghost predicate MessagesExactly(data: seq<LogEntry>, views: map<string, QueueView>, client: Client) {
    exists order :: IsEnumeration(order, views.Keys) && data == Log(views, order, client, "msg")
  }

  /** A name log lists a queue exactly when it was visited and the client is
      in the list the kind looks at; a visiting order without repetition
      gives a log without repetition. */
  lemma {:induction false} LogNames(views: map<string, QueueView>, order: seq<string>, client: Client, kind: string)
    requires kind != "msg"
    requires NoDup(order) && forall n :: n in order ==> n in views
    ensures forall e :: e in Log(views, order, client, kind) ==> e.QueueName?
    ensures forall n :: QueueName(n) in Log(views, order, client, kind) <==> n in order && client in Listed(views[n], kind)
    ensures NoDup(Log(views, order, client, kind))
    decreases |order|
  {
    if order != [] {
      var init, last := order[..|order| - 1], order[|order| - 1];
      assert order == init + [last];
      assert NoDup(init) by {
        forall i, j | 0 <= i < j < |init| ensures init[i] != init[j] { assert init[i] == order[i] && init[j] == order[j]; }
      }
      assert last !in init by {
        forall k | 0 <= k < |init| ensures init[k] != last { assert init[k] == order[k]; }
      }
      LogNames(views, init, client, kind);
      var prev := Log(views, init, client, kind);
      var tail := Entries(last, views[last], client, kind);
      assert Log(views, order, client, kind) == prev + tail;
      assert QueueName(last) !in prev;
      forall n ensures QueueName(n) in prev + tail <==> n in order && client in Listed(views[n], kind) {
        assert n in order <==> n in init || n == last;
      }
      var all := prev + tail;
      forall i, j | 0 <= i < j < |all| ensures all[i] != all[j] {
        if j >= |prev| {
          assert all[j] == QueueName(last) && i < |prev| && all[i] == prev[i];
          assert prev[i] in prev;
        } else {
          assert all[i] == prev[i] && all[j] == prev[j];
        }
      }
    }
  }

  /** A message log holds only messages sent by the client, and holds a
      message exactly when some visited queue logged it with that sender. */
  lemma {:induction false} LogMessages(views: map<string, QueueView>, order: seq<string>, client: Client)
    requires forall n :: n in order ==> n in views
    ensures forall e :: e in Log(views, order, client, "msg") ==> e.Message? && e.msg.sender == client
    ensures forall m :: Message(m) in Log(views, order, client, "msg") <==>
                        exists n :: n in order && m in views[n].data && m.sender == client
    decreases |order|
  {
    if order != [] {
      var init, last := order[..|order| - 1], order[|order| - 1];
      assert forall n :: n in order <==> n in init || n == last;
      LogMessages(views, init, client);
      var prev := Log(views, init, client, "msg");
      var msgs := SentBy(views[last].data, client);
      var tail := AsEntries(msgs);
      assert Log(views, order, client, "msg") == prev + tail;
      forall e | e in tail ensures e.Message? && e.msg in msgs {
        var k :| 0 <= k < |tail| && tail[k] == e;
        assert e == Message(msgs[k]);
      }
      forall m ensures Message(m) in tail <==> m in views[last].data && m.sender == client {
        if m in msgs {
          var i :| 0 <= i < |msgs| && msgs[i] == m;
          assert tail[i] == Message(m);
        }
      }
    }
  }

  /** Visiting one more queue appends its contribution. */
  lemma LogSnoc(views: map<string, QueueView>, order: seq<string>, n: string, client: Client, kind: string)
    requires forall k :: k in order ==> k in views
    requires n in views
    ensures Log(views, order + [n], client, kind) == Log(views, order, client, kind) + Entries(n, views[n], client, kind)
  {
  }

  /** One turn of the scan in `_get_client_log`: the name of the queue when
      the client is in the list the kind looks at, or the client's messages
      from its log, pushed one by one. */
  method VisitQueue(n: string, q: Queue, client: Client, kind: string) returns (data: seq<LogEntry>)
    ensures data == Entries(n, q.View(), client, kind)
  {
    data := [];
    if kind != "msg" {
      var p := Position(if kind == "pub" then q.publishers else q.subscribers, client);
      if p.Some? {
        data := data + [QueueName(n)];
      }
    } else {
      var msgs := SentBy(q.data, client);
      var i := 0;
      while i < |msgs|
        invariant 0 <= i <= |msgs|
        invariant data == AsEntries(msgs[..i])
      {
        data := data + [Message(msgs[i])];
        i := i + 1;
      }
      assert msgs[..i] == msgs;
    }
  }

  /** `_get_client_log`: visits every registered queue once, in the map's
      iteration order (which the source does not control, so the model picks
      any order and reports it as `order`), and collects, for kind "pub", the
      names of the queues the client publishes to, for kind "msg", the
      messages it sent, and for any other kind, the names of the queues it
      subscribes to. */
  method GetClientLog(client: Client, queues: map<string, Queue>, kind: string)
    returns (data: seq<LogEntry>, ghost order: seq<string>)
    ensures IsEnumeration(order, queues.Keys)
    ensures data == Log(ViewsOf(queues), order, client, kind)
    ensures kind == "pub" ==> NamesExactly(data, PublisherOf(ViewsOf(queues), client))
    ensures kind != "pub" && kind != "msg" ==> NamesExactly(data, SubscriberOf(ViewsOf(queues), client))
    ensures kind == "msg" ==> forall e :: e in data ==> e.Message? && e.msg.sender == client
    ensures kind == "msg" ==> forall m :: Message(m) in data <==>
                                exists n :: n in queues && m in queues[n].data && m.sender == client
  {
    ghost var views := ViewsOf(queues);
    data, order := [], [];
    var rest := queues.Keys;
    while rest != {}
      invariant rest <= queues.Keys
      invariant NoDup(order)
      invariant forall n :: n in order ==> n in queues && n !in rest
      invariant forall n :: n in queues ==> n in order || n in rest
      invariant data == Log(views, order, client, kind)
      decreases |rest|
    {
      var n :| n in rest;
      var more := VisitQueue(n, queues[n], client, kind);
      data := data + more;
      LogSnoc(views, order, n, client, kind);
      assert forall k :: 0 <= k < |order| ==> order[k] != n;
      order := order + [n];
      rest := rest - {n};
    }
    if kind != "msg" {
      LogNames(views, order, client, kind);
    } else {
      LogMessages(views, order, client);
    }
  }

  /** `get_my_data`: the three logs of one client, under the keys the source
      uses. */
  method GetMyData(client: Client, queues: map<string, Queue>) returns (r: map<string, seq<LogEntry>>)
    ensures r.Keys == {"publisher", "subscriber", "messages"}
    ensures NamesExactly(r["publisher"], PublisherOf(ViewsOf(queues), client))
    ensures NamesExactly(r["subscriber"], SubscriberOf(ViewsOf(queues), client))
    ensures MessagesExactly(r["messages"], ViewsOf(queues), client)
  {
    var publisher, _ := GetClientLog(client, queues, "pub");
    var subscriber, _ := GetClientLog(client, queues, "sub");
    var messages, order := GetClientLog(client, queues, "msg");
    r := map["publisher" := publisher, "subscriber" := subscriber, "messages" := messages];
  }
}
