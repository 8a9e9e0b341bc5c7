# miniq broker core in Dafny

This project models the in-memory core of the miniq message broker (`src/main.rs`).
Clients are identified by host and port. A client can create a named queue. It can
subscribe to a queue or unsubscribe from it, be added to or removed from the queue's
publishers, and push messages into it. The broker keeps every queue in a registry
keyed by name. A read-only scan lists, for one client, the queues it publishes to,
the queues it subscribes to and the messages it sent. Before a request reaches the
broker, its form data is checked for required parameters.

Layout, one module per component:

- `outcomes.dfy` (`Outcomes`): `Option`, the error kinds and `Result`.
- `clients.dfy` (`Clients`): the client identity and its equality. `Client::new` is
  the datatype's constructor.
- `messages.dfy` (`Messages`): the message record and its construction.
- `members.dfy` (`Members`): membership lists. It has the `position` search and
  removal of the first occurrence.
- `queue_spec.dfy` (`QueueSpec`): each queue operation as a function from the state
  before the call to the result and the state after it. It also proves that any
  series of calls keeps the invariants.
- `queues.dfy` (`Queues`): the `Queue` class. Its methods update the membership
  vectors and the log in place. Each one is proved to match its `QueueSpec` function.
- `gateway.dfy` (`Gateway`): the registry of named queues as a class holding a map.
  It has create-if-absent and lookup-or-fail around each queue call.
- `client_log.dfy` (`ClientLog`): the per-client scan. The source's three wrappers
  around it (`get_queue_where_client_publisher`, `get_queue_where_client_subscriber`,
  `get_client_messsages`) are calls of `GetClientLog` with kind "pub", "sub" and "msg".
- `forms.dfy` (`Forms`): the required-parameter check.

Each registry or queue call is one sequential step. The source's invariants, proved
here:

- No client is listed twice as a publisher, or twice as a subscriber. A client may
  be both a publisher and a subscriber.
- Every queue is registered under its own name.
- The message log only grows at its end.
- Every failure leaves all state exactly as it was.

A message's `recipients` is a copy of the subscriber list at push time. Later
membership changes never alter it, because logged messages are never changed
(`QueueSpec.RunPreserves`).

Three behaviours are kept exactly as the source has them:

- Membership lists are ordered vectors, not sets.
- Removal takes out the element at the first matching index.
- A message's `lifetime` is a clock reading taken at push time, not `created + ttl`.
  The source computes `now + ttl` and discards the result (src/main.rs:206, 208). It
  then passes a fresh `SystemTime::now()` as the lifetime (src/main.rs:215).

## Model

| member | source | states |
|---|---|---|
| Clients.Eq | src/main.rs:116-122 | two clients are equal exactly when host and port both match, i.e. structural equality of the pair |
| Messages.NewMsg | src/main.rs:138-150 | a new message is active, keeps sender, recipients, payload and lifetime, and has priority 0 when none is given |
| Members.Position | src/main.rs:226 | returns none exactly when the client is absent, otherwise the first index holding it |
| Members.RemoveFirst | src/main.rs:241-244 | removal shortens the list by one exactly when the client was present, and leaves its length otherwise |
| Members.RemoveFirstMultiset | src/main.rs:241-244 | removal takes exactly one occurrence of the client out of the list's contents |
| Members.RemoveFirstAt | src/main.rs:239-244 | `remove` at the index `position` found is removal of the first occurrence, other elements kept in order |
| Members.RemoveFirstNoDup | src/main.rs:237-248 | on a duplicate-free list, removal keeps it duplicate-free, the client is gone afterwards and every other client's membership is unchanged |
| QueueSpec.Init | src/main.rs:185-198 | a new queue has the creator as its only publisher, no subscribers and an empty log |
| QueueSpec.Sub | src/main.rs:224-235 | fails with AlreadySubscriber exactly when the client already subscribes, changing nothing; otherwise appends it, returns the new list, leaves publishers and log alone, and keeps subscribers duplicate-free |
| QueueSpec.Unsub | src/main.rs:237-248 | fails with NotSubscriber exactly when the client does not subscribe, changing nothing; otherwise removes its first occurrence, returns the new list, leaves publishers and log alone; on a valid queue the client is no longer a subscriber and all others keep their membership |
| QueueSpec.AddPublisher | src/main.rs:250-261 | fails with AlreadyPublisher exactly when the client already publishes, changing nothing; otherwise appends it to the publishers, returns them, leaves subscribers and log alone, keeps publishers duplicate-free |
| QueueSpec.RemovePublisher | src/main.rs:263-274 | fails with NotPublisher exactly when the client does not publish, changing nothing; otherwise removes its first occurrence from the publishers, leaves subscribers and log alone; the client is no longer a publisher |
| QueueSpec.Push | src/main.rs:200-222 | fails with NotPublisher exactly when the sender is not a publisher, log unchanged; otherwise appends exactly one message at the end with that sender, the current subscribers as recipients, the payload, active set and the given priority or 0; membership untouched |
| QueueSpec.RunPreserves | src/main.rs:183-275 | over any series of queue calls, successful or not, the name is kept, the no-duplicate invariant holds and the earlier log is a prefix of the later one |
| Queues.Queue.constructor | src/main.rs:185-198 | the new object's state is `QueueSpec.Init(name, creator)` |
| Queues.Queue.Push | src/main.rs:200-222 | result and new state are those of `QueueSpec.Push` on the old state; invariant kept |
| Queues.Queue.Sub | src/main.rs:224-235 | result and new state are those of `QueueSpec.Sub` on the old state; invariant kept |
| Queues.Queue.Unsub | src/main.rs:237-248 | result and new state are those of `QueueSpec.Unsub` on the old state; invariant kept |
| Queues.Queue.AddPublisher | src/main.rs:250-261 | result and new state are those of `QueueSpec.AddPublisher` on the old state; invariant kept |
| Queues.Queue.RemovePublisher | src/main.rs:263-274 | result and new state are those of `QueueSpec.RemovePublisher` on the old state; invariant kept |
| Queues.ViewsOf | src/main.rs:443-453 | the state of every registered queue, keyed by the same names as the registry |
| Gateway.Registry.constructor | src/main.rs:429-432 | the registry starts empty |
| Gateway.Registry.QueueInsert | src/main.rs:460-477 | a name already registered gives AlreadyExists and leaves the map unchanged; otherwise the map gains exactly that name bound to the queue, all other entries unchanged, and the result is the state of all queues |
| Gateway.Registry.NewQueue | src/main.rs:479-484 | creating a queue under a free name registers `QueueSpec.Init(name, creator)` under it and changes nothing else; a taken name gives AlreadyExists and changes nothing |
| Gateway.Registry.SubOrUnsub | src/main.rs:486-524 | an unknown name gives NotFound and changes no queue; otherwise the named queue changes as `QueueSpec.Sub`/`Unsub` says and every other queue is unchanged |
| Gateway.Registry.PubOrUnpub | src/main.rs:526-564 | an unknown name gives NotFound and changes no queue; otherwise the named queue changes as `QueueSpec.AddPublisher`/`RemovePublisher` says and every other queue is unchanged |
| Gateway.Registry.PushInQueue | src/main.rs:566-593 | an unknown name gives NotFound and changes no queue; otherwise the named queue changes as `QueueSpec.Push` says and every other queue is unchanged |
| ClientLog.SentBy | src/main.rs:60 | a message is kept exactly when it is in the log and its sender is the client (multiplicity and order: `SentByCount`, `SentByAppend`) |
| ClientLog.SentByCount | src/main.rs:60 | each message the client sent is kept exactly as many times as it occurs in the log, and no other message is kept |
| ClientLog.SentByAppend | src/main.rs:60 | filtering a log in two parts gives the two filtered parts in order, so kept messages stay in log order |
| ClientLog.PushExtendsSentBy | src/main.rs:60 | after a successful push the sender's messages grow by exactly the new message at the end, and every other client's stay the same |
| ClientLog.VisitQueue | src/main.rs:49-63 | one queue contributes its name when the client is in the list the kind looks at, or the client's messages in log order |
| ClientLog.LogNames | src/main.rs:49-58 | a name log lists a queue exactly when it was visited and the client is in its publishers ("pub") or subscribers (other kinds), each name once |
| ClientLog.LogMessages | src/main.rs:59-63 | a message log holds only the client's messages, and holds a message exactly when a visited queue logged it with that sender |
| ClientLog.GetClientLog | src/main.rs:43-82 | visits every queue once; "pub" gives exactly the names of the queues the client publishes to, "msg" exactly its sent messages queue by queue in log order, any other kind exactly the names of the queues it subscribes to |
| ClientLog.GetMyData | src/main.rs:84-93 | the result has keys publisher, subscriber and messages, holding exactly the client's publisher queues, subscriber queues and sent messages |
| Forms.FirstMissingParam | src/main.rs:362-373 | returns none exactly when every required parameter is present (non-null); otherwise the first one, in list order, that is missing |

## Left out

- HTTP server, routing and request parsing are network I/O over external crates:
  `Server::new`, `run`, `_handler`, `get_json_data`, `router_add_path`, `config::routes`.
- Threads, mutexes, channels and the `lazy_static` global are left out, so each
  registry or queue call is one atomic step.
  - This is faithful for the membership and push calls. Each one matches on
    `QUEUES.lock().unwrap().get_mut(…)` (src/main.rs:493, 533, 572). The registry
    guard is a temporary of that `match` scrutinee, so it is held until the
    write-back (`*q = …` at src/main.rs:503, 543, 582). These calls therefore run
    one at a time, against each other and against `queue_insert`.
  - The one race not modelled is in `queue_insert`. It takes the lock once for the
    existence check (src/main.rs:466) and again for the insert (src/main.rs:468).
    Two concurrent creations of the same name can both pass the check. The later
    insert then replaces the earlier queue, and both callers are told they succeeded.
- JSON rendering, `Display` and the response type are formatting through a foreign
  library (`From<…> for JsonValue`, `ApplicationResponse`). The registry's
  `queues_to_json` is modelled, before rendering, as `Queues.ViewsOf` applied to the
  registry's map.
- `full_map` and `get_user_log` are left out. They are thin wrappers that pass the
  registry's map to `ViewsOf` or to `ClientLog.GetMyData`.
- Error messages are kept as kinds, not strings. Two of the source's strings name the
  wrong role, at src/main.rs:246 and src/main.rs:272. The model names the situation:
  NotSubscriber for `unsub`, NotPublisher for `remove_publisher`.
- Queues.Queue.Push: the `lifetime: Option<f64>` argument is left out. It only feeds
  an expiry computation whose result is discarded. The model loses what a bad value
  does:
  - `Duration::from_secs_f64` panics on a negative, non-finite or too large
    `"lifetime"` (src/main.rs:206). This happens before the publisher check at
    src/main.rs:211, so any client can trigger it.
  - In `push_in_queue` the `QUEUES` guard is still held at that point, for the same
    reason as above (src/main.rs:572, 578). The panic therefore poisons the registry
    mutex.
  - After that, every `QUEUES.lock().unwrap()` panics (src/main.rs:447, 457, 466,
    468, 493, 533, 572), so the broker refuses every later request.
- Clock readings (`SystemTime::now()`) are parameters of type `Time` (a natural
  number), and the model never computes with them. Push takes two of them: the one
  stored as `lifetime` and the one stored as `created`.
- Queue names and payloads are plain strings. The source formats JSON fields with
  `format!("{}", …)`, so a non-string JSON value would become its JSON text.
- Integer widths: ports and priorities are unbounded naturals. The source's `u64`
  and `usize` never wrap on the values it receives. JSON numbers are reals.
