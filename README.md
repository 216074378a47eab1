# surreal-simple-client: request/response correlation, in Dafny

This project models the core of `surreal-simple-client`, a Rust client for SurrealDB's
WebSocket RPC protocol. Every call gets a correlation id. `send_message` registers a
one-shot channel under that id with a background loop, then writes the request frame.
The loop owns the pending-call table (`requests`). When a decoded reply carries a
pending id, the loop removes that entry and resolves the channel with the reply. A
caller navigates the reply's `result` to reach statement `n`'s rows.

Files and modules:

- `wrappers.dfy` (`Wrappers`): `Option` and `Result`.
- `json.dfy` (`Json`): the JSON `Value` the client inspects. It gives `as_array`,
  `get(key)` and `get(n)` as `AsArray`, `Get` and `At`. `Navigate` is a path-following
  reference definition that result navigation is proved against.
- `message.dfy` (`Message`): `Request` (`SurrealMessage`) and `ResponseData` (`SurrealResponseData`).
- `response.dfy` (`Response`): `get_nth_aliased_results`, `get_aliased_results`,
  `get_results`, and the statement helpers `get_nth_query_result`, `results` and `results_key`.
- `finders.dfy` (`Finders`): the selection logic of `find_one_value`, `find_many_values`,
  `find_one_key` and `find_many_key`, as pure functions of the delivered reply.
- `dispatcher.dfy` (`Dispatcher`): the loop body. `Register`, `Receive`, `Step` and `Run`
  give its meaning on values. The class `Loop` holds the `requests` map and ghost logs
  of resolutions and of senders dropped by an overwriting insert, and its methods are proved equal to those functions. The lemmas hold
  for any interleaving of registrations and frames.
- `client.dfy` (`Client`): the class `SurrealClient`. It holds what was pushed into the
  registration channel and into the socket. Its invariant says every written frame was
  preceded by a registration under the same id.
- `connection.dfy` (`Connection`): the whole connection as a transition system. It
  covers callers sending, the server replying, and the loop taking either a registration
  or a frame. It records the polling-order issue under "## Findings".

A one-shot channel is `Handle(call)`. The client numbers its channels, so two calls never
share one. Whether `sender.send` succeeds (the caller may have dropped its receiver) is an
input of each inbound frame. The loop removes the entry either way and raises no error.

The model follows the code where its behaviour is easy to misread or its doc comments
say otherwise:

- In the code the `loop` never exits: once the socket stream has ended, the socket branch
  keeps getting `None` and ignores it. `Frame.StreamEnded` is therefore an ignored frame.
- The doc comment of `find_one_key` (`src/surreal_client.rs:189-190`) says the value is
  read out of the first row, and that a missing key gives `None`. The code
  (`results_key(key).first()`, line 198) skips rows that lack the key and returns the
  value of the first row that has it. `Finders.FindOneKeySkipsRowsWithoutKey` shows the
  two-row case where the two readings differ.
- `get_nth_query_result`, `QueryResult::results` and `results_key` are called in
  `src/surreal_client.rs` but are not defined in `src/response.rs`. They are modelled from
  their call sites and doc comments, and from the wire format of a statement entry
  (`{"time", "status", "result"}`). `results_key(key)` keeps, in row order, the value
  under `key` of every row that has it.

## Model

| member | source | states |
|---|---|---|
| `Json.NavigateIndexKey` | src/response.rs:42-48 | following an index then a key is `get(n)` followed by `get(key)` |
| `Response.GetNthAliasedResults` | src/response.rs:38-60 | equals the array found at path [n, alias-or-"result"] of the reply's `result`, and None when there is no array there |
| `Response.GetAliasedResults` | src/response.rs:18-20 | the array at path [0, alias-or-"result"], i.e. statement 0 |
| `Response.GetResults` | src/response.rs:63-65 | the array at path [0, "result"] |
| `Response.NotArrayGivesNone` | src/response.rs:41-58 | None when `result` is not an array |
| `Response.OutOfRangeGivesNone` | src/response.rs:42-56 | None when n is at least the number of statements |
| `Response.NoRowsUnderKeyGivesNone` | src/response.rs:48-54 | None when entry n lacks the key or is not an object, or the key holds a non-array |
| `Response.RowsUnderKeyAreReturned` | src/response.rs:48-50 | exactly the array under the key otherwise; with no alias the key is "result" |
| `Response.DefaultAliasIsResult` | src/response.rs:48 | no alias behaves as the alias "result" |
| `Response.DocExample` | src/response.rs:26-36 | for `[{"result":[X]},{"friends":[Y]}]`: n=0 gives [X], n=1 with "friends" gives [Y], n=1 with no alias gives None |
| `Response.QueryResult.Results` | src/surreal_client.rs:168 | the rows are what the statement's wire form holds under `result` (as used at line 220) |
| `Response.DecodeQueryResult` | src/surreal_client.rs:165-167 | a statement entry decodes exactly when `time` and `status` are strings and `result` is an array, and then its fields are those values |
| `Response.DecodeQueryResultRoundTrip` | src/surreal_client.rs:165-167 | decoding the wire form of a statement gives that statement back |
| `Response.GetNthQueryResult` | src/surreal_client.rs:165-168 | Some exactly when entry n exists and decodes (string `time` and `status`, array `result`); the wire form of any statement at position n is returned as that statement; a decoded statement's rows are the rows `get_nth_aliased_results(n, None)` finds, and no rows there means no statement |
| `Response.ResultsKey` | src/surreal_client.rs:236-238 | never longer than the rows; every kept value is the key's value in some row |
| `Response.ResultsKeyConcat` | src/surreal_client.rs:236-238 | filtering distributes over concatenation, so kept values stay in row order |
| `Response.ResultsKeyKeepsEveryMatch` | src/surreal_client.rs:236-238 | every row's value under the key is kept |
| `Response.ResultsKeyAllRows` | src/surreal_client.rs:236-238 | when every row has the key, the result lines up with the rows one for one |
| `Response.ResultsKeyNoRows` | src/surreal_client.rs:236-238 | rows that all lack the key give the empty sequence |
| `Finders.FindManyValues` | src/surreal_client.rs:214-223 | empty when statement 0 is absent; when statement 0 decodes, exactly the rows `get_results` finds |
| `Finders.FindOneValue` | src/surreal_client.rs:162-170 | Some exactly when `find_many_values` is non-empty, and then its first row |
| `Finders.FindManyKey` | src/surreal_client.rs:233-247 | `results_key` over the rows of `find_many_values`: empty when statement 0 is absent; at most one value per row; each value is the key's value in a row of statement 0, and with `ResultsKeyConcat` and `ResultsKeyKeepsEveryMatch` every row having the key contributes, in row order |
| `Finders.FindOneKey` | src/surreal_client.rs:191-198 | Some exactly when `find_many_key` is non-empty, and then its first value |
| `Finders.FindOneKeyUsesFirstMatch` | src/surreal_client.rs:189-198 | the value is that of the first row having the key; earlier rows lack it, later rows are ignored |
| `Finders.FindOneKeySkipsRowsWithoutKey` | src/surreal_client.rs:189-198 | when the first row lacks the key and the second has it, the second row's value is returned, not `None` |
| `Finders.CreatedRecordIsFirstValue` | src/surreal_client.rs:158-168 | a one-statement query reply yields its created record as the first value |
| `Finders.RowWithoutKeyIsDropped` | tests/test_surreal_client.rs:151-166 | two rows, only one holding `written_files`: one value comes back, the one-file array |
| `Dispatcher.Register` | src/surreal_client.rs:60-63 | `None` changes nothing; `(id, h)` maps id to h, every other entry unchanged, no resolution; when id was pending, the replaced sender `insert` hands back is discarded and so logged as dropped |
| `Dispatcher.Receive` | src/surreal_client.rs:66-84 | non-text, error, end-of-stream, undecodable and unknown-id frames change nothing; a pending id's entry is removed, exactly its handle gets exactly that reply, other entries unchanged, whether or not the receiver listens |
| `Dispatcher.Loop.constructor` | src/surreal_client.rs:56 | the table starts empty with nothing resolved or dropped |
| `Dispatcher.Loop.OnRegister` | src/surreal_client.rs:60-63 | the new table and logs are `Register` of the old ones |
| `Dispatcher.Loop.OnFrame` | src/surreal_client.rs:66-84 | the new table and log are `Receive` of the old ones |
| `Dispatcher.Loop.Drive` | src/surreal_client.rs:58-86 | after a sequence of wake-ups the state is `Run` of the old state over them |
| `Dispatcher.ResolvedOnlyGrows` | src/surreal_client.rs:69-70 | resolutions are only appended, never retracted or reordered |
| `Dispatcher.SecondReplyIsInert` | src/surreal_client.rs:69 | a second reply for an already answered id changes nothing |
| `Dispatcher.StepKeepsResolvedOnce` | src/surreal_client.rs:60-75 | one wake-up with a fresh handle keeps handles resolved at most once and not pending under two ids |
| `Dispatcher.RunKeepsResolvedOnce` | src/surreal_client.rs:58-86 | the same over any sequence of wake-ups whose registrations use distinct fresh channels |
| `Dispatcher.EachHandleResolvedAtMostOnce` | src/surreal_client.rs:69-70 | from an empty table, with one channel per call, no handle is resolved twice |
| `Dispatcher.RunKeepsPairing` | src/surreal_client.rs:60-70 | every pending entry and every resolution pairs an id with a handle registered under that id |
| `Dispatcher.NoCrossTalk` | src/surreal_client.rs:60-70 | the handle of the call registered as (id, h) only ever receives replies carrying id |
| `Dispatcher.UntouchedEntryStays` | src/surreal_client.rs:60-70 | wake-ups that neither register nor answer an id leave its entry in place |
| `Dispatcher.ReplyResolvesItsCall` | src/surreal_client.rs:60-75 | a reply resolves the handle registered under its id, whatever unrelated wake-ups come between or after |
| `Dispatcher.CollisionDropsEarlierCall` | src/surreal_client.rs:62 | two registrations under one id: the earlier sender is dropped (its caller's await fails with `OneshotError`), it is in no entry, and the reply goes to the later handle |
| `Dispatcher.StepKeepsAccounted` | src/surreal_client.rs:60-70 | one wake-up keeps a handle pending, resolved or dropped: it leaves the table only through a resolution or a drop |
| `Dispatcher.RunAccountsEveryCall` | src/surreal_client.rs:58-86 | from an empty table, after any wake-ups, every registered handle is pending, resolved or dropped |
| `Dispatcher.RepliesOutOfOrder` | src/surreal_client.rs:66-75 | calls r1, r2, r3 answered r3, r1, r2 are each resolved with their own reply and the table ends empty |
| `Client.SendKeepsRegisterFirst` | src/surreal_client.rs:144-148 | one more `send_message` keeps every written frame preceded by a registration of its id |
| `Client.SendEffectsContents` | src/surreal_client.rs:144-148 | one `send_message` enqueues one registration and writes at most its own frame |
| `Client.FreshCallKeepsDistinct` | src/surreal_client.rs:142 | a new one-shot channel is distinct from every registered one |
| `Client.EnqueuedOfAppend` | src/surreal_client.rs:144-148 | what reaches each sink distributes over sequences of effects |
| `Client.SendKeepsConsistent` | src/surreal_client.rs:128-151 | one `send_message` keeps each sink equal to what the log records, every frame registered first, and the channels distinct and below the counter |
| `Client.SurrealClient.constructor` | src/surreal_client.rs:89-92 | a new client has pushed nothing, its channel counter is 0, and it satisfies the invariant |
| `Client.SurrealClient.SendMessage` | src/surreal_client.rs:128-151 | registers (id, tx) and then writes {id, method, params}, the log gaining the registration with the channel push and the frame with the socket write; returns the matching receiver, or the write error with the registration already queued |
| `Client.SurrealClient.SendQuery` | src/surreal_client.rs:153-156 | sends method "query" with params [query, params], with the same new counter, sinks, log and result as `send_message` |
| `Client.SurrealClient.Signin` | src/surreal_client.rs:95-106 | sends method "signin" with params [{"user", "pass"}], with the same new counter, sinks, log and result as `send_message` |
| `Client.SurrealClient.UseNamespace` | src/surreal_client.rs:113-121 | sends method "use" with params [namespace, database], with the same new counter, sinks, log and result as `send_message` |
| `Connection.SendKeepsGood` | src/surreal_client.rs:144-148 | a send with a fresh id keeps the connection invariant |
| `Connection.ReplyKeepsGood` | src/surreal_client.rs:66-69 | a server reply to an unanswered request keeps the connection invariant |
| `Connection.NoiseKeepsGood` | src/surreal_client.rs:67 | a frame that is not a decoded reply keeps the connection invariant |
| `Connection.TakeRegistrationKeepsGood` | src/surreal_client.rs:60-63 | taking a queued registration keeps the connection invariant |
| `Connection.TakeFrameKeepsGood` | src/surreal_client.rs:66-75 | reading a frame once the registration channel is empty keeps the invariant |
| `Connection.BiasedTraceIsGood` | src/surreal_client.rs:58-86 | every connection run that drains registrations first satisfies the invariant |
| `Connection.BiasedDeliversEveryReply` | src/surreal_client.rs:59-75 | when registrations are drained first, every reply the loop has read went to the handle of the call that sent its id |
| `Connection.ReplyOvertakesRegistration` | src/surreal_client.rs:59-69 | with the code's polling, send "a", reply "a", read the socket, then take the registration: the reply is lost and "a" stays pending |

## Findings

| source | as written | input that shows it | evidently intended | confidence | as-written member | corrected member |
|---|---|---|---|---|---|---|
| src/surreal_client.rs:59-69 | `tokio::select!` without `biased;` polls its two branches in random order. A reply already on the socket can be handled before its registration, which `send_message` queued before writing. `requests.remove` then finds nothing, the reply is dropped, and the caller waits forever. | send "a"; the server replies to "a"; the loop completes the socket branch first, then the registration branch | every reply reaches the call that sent its id, which `send_message`'s register-then-write order is meant to ensure. Draining registrations before reading the socket (a `biased;` select with the registration branch first) gives this. | medium, not executed | `Connection.ReplyOvertakesRegistration` | `Connection.BiasedDeliversEveryReply` |

## Left out

- Opening the WebSocket (`connect_async`, `split`) and the socket writes are transport I/O. The sinks are sequences of what was pushed into them.
- The `tokio::spawn` task, the mpsc and one-shot channel mechanics and the unsafe `Future::poll` projection are runtime internals. The loop is driven by a sequence of wake-ups. `Connection` models the channel as a FIFO queue and the socket as a FIFO of frames.
- `nanoid` id generation is randomness from another crate, so the id is a parameter. `Connection` assumes ids are never reused. The effect of a reuse is stated separately in `Dispatcher.CollisionDropsEarlierCall`.
- JSON text parsing and printing (`serde_json::from_str`, `to_string`) are library calls. An inbound frame arrives already classified as a `Frame`.
- `find_one`, `find_many`, and the typed decode in `find_one_key` and `find_many_key` (`serde_json::from_value::<T>`) are library calls. The model stops at the `Value`s they decode.
- A dropped sender is recorded in the loop's `dropped` log. What its caller then sees (the receiver's `RecvError`, surfaced as `RpcChannelError::OneshotError` by `.await?`) is the caller's await, which is not modelled.
- Non-integral JSON numbers are not modelled: no navigation step inspects numbers.
- The `.unwrap()` on the registration channel send is not modelled. It panics only if the loop task has ended, which the code's endless `loop` never does.
- The `.unwrap()` on request serialisation is not modelled. Serialising a `Value` cannot fail.
- `Client.SurrealClient.Signin`: it does not await the reply and discard it as `signin` does. Awaiting is the loop's delivery, which `Dispatcher` and `Connection` state.
- `Client.SurrealClient.UseNamespace`: it does not await the reply and discard it as `use_namespace` does, for the same reason.
- In `Connection`, the server sends a decoded reply only for an id it was sent, and at most one per id; any other frame is `Noise`, which excludes decoded replies. `Dispatcher.Receive` and `Dispatcher.SecondReplyIsInert` show that an unknown or repeated id changes nothing in the loop, so these frames would not change its conclusions.
- In `Connection`, every socket write succeeds. A failed write, which leaves its registration queued with no frame sent, is modelled only in `Client.SurrealClient.SendMessage`.
- `src/rpc.rs`, `src/errors.rs` and `src/lib.rs` are error wrappers, `Display` text and re-exports, and are not modelled. The only error kept is the failed socket write.
