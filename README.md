# Live quote broadcast: a verified model

The server streams market quotes to websocket clients. A single
`ConnectionManager` object holds three things:

- `connections`: the set of registered sockets;
- `symbols`: the ticker list, shared by all clients;
- `interval`: the polling period in seconds.

A background task `stream_prices` loops while any socket is registered. Each
pass downloads one quote per symbol, sends one `{"type": "quotes", ...}`
message to a snapshot of the registry, drops every socket whose send failed,
and sleeps. Each client's handler registers its socket and may change the
shared subscription with a `subscribe` message.

asyncio runs one task at a time and switches only at an `await`. So every
stretch of code between two awaits is one atomic transition. The model has
two layers:

- `Streaming` (streaming.dfy) states the transitions as functions on a
  `Manager` value. An `Event` trace (`Run`) interleaves the tasks in any
  order. Two counters complete the state: `spawned`, the number of
  `stream_prices` tasks created, and `live`, the number still inside their
  `while` loop.
- `Server` (server.dfy) is the `ConnectionManager` class itself. Its fields
  are updated in place. Each method proves that it moves the object's state
  exactly as the matching `Streaming` transition does.

`Quotes` (quotes.dfy) models what `fetch_quote` returns and the ordered update
list. `Coercion` (coercion.dfy) models Python's `int(...)` on the JSON value of
`interval`. The outcome of every external call is a parameter: each download is
a `Fetched` value, and each pass's failing sends are a set of sockets.

What the proofs establish about the code as written:

- While any socket is registered, at least one broadcast task is alive
  (`Streaming.ReachableInv`). This holds only as long as no client stores an
  `interval` of 2^1024 - 2^970 or more (`Streaming.SleepOverflowValue`). At
  such an interval `asyncio.sleep` raises OverflowError, and the task ends
  after its sends; every socket whose send did not fail stays registered. A
  later client then finds two or more sockets in the set and does not start a
  task (`Streaming.OverflowStrandsRegistry`). No task is created, and nothing
  is broadcast, until every registered socket has left. The next client then
  starts a task that broadcasts once and ends at the same sleep, because the
  interval is unchanged (`Streaming.OverflowRestartsWhenEmptied`). A socket
  whose handler crashed never leaves, because no task is left whose send to
  it could fail.
- A task is created whenever the registry has size 1 right after an add. The
  code does not check whether an earlier task is still alive. A client that
  connects while the previous task sleeps on an empty registry therefore
  starts a second task. Both tasks then broadcast to the same registry, so
  each client receives two broadcasts per period
  (`Streaming.SecondLoopSpawned`).
- `interval` is stored without any positivity check
  (`Streaming.IntervalUnchecked`). For a zero or negative interval,
  `asyncio.sleep` yields once to the event loop and returns. The next pass
  then starts as soon as the ready tasks have run, so the task polls and
  broadcasts without a pause.
- Sometimes a handler ends on an exception other than `WebSocketDisconnect`:
  undecodable JSON, a non-object, or an `interval` that `int(...)` rejects.
  Its socket then stays registered until a send to it fails. In the last case
  the new `symbols` are already stored and the old `interval` is kept
  (`Streaming.TornUpdate`). Every later pass therefore polls the new symbols
  at the old period.
- Each pass sleeps for `self.interval` as read after the sends
  (server.py:99). A `subscribe` handled while the pass is sending therefore
  sets the period of the sleep that ends that same pass.
  `Server.ConnectionManager.StreamPass` returns the value the field holds
  when the pass ends.

## Model

| member | source | states |
|---|---|---|
| `Coercion.TruncateTowardZero` | server.py:114 | `int()` of a float truncates toward zero: the result is within 1 of the input, on the zero side |
| `Coercion.IntOf` | server.py:114 | `int()` keeps a JSON integer, maps booleans to 1/0, truncates floats toward zero, and fails on null, lists and objects |
| `Coercion.Decimal` | server.py:114 | the reference rendering of a natural number is a non-empty string of ASCII digits |
| `Coercion.DecimalValue` | server.py:114 | the digits of a number's decimal rendering evaluate back to that number |
| `Coercion.ParseInt` | server.py:114 | every value `int()` of a string accepts lies strictly between -10^4300 and 10^4300 |
| `Coercion.ParseSurrounded` | server.py:114 | a string made of ASCII white space (tab, line feed, vertical tab, form feed, carriage return, space), an optional `+` or `-`, one or more ASCII digits and ASCII white space converts to the digits' value, negated after `-`, exactly when there are at most 4300 digits; otherwise `int()` rejects it |
| `Coercion.ParseAcceptedForm` | server.py:114 | conversely, every string `int()` accepts has that form with at most 4300 digits; every other string is rejected |
| `Coercion.DigitsValueBound` | server.py:114 | a numeral of n digits denotes a value below 10^n |
| `Coercion.ParseNumeral` | server.py:114 | a numeral made of an optional minus sign and digits converts to the value of its digits, negated after the minus, exactly when it has at most 4300 digits; otherwise the conversion fails |
| `Coercion.ParseShow` | server.py:114 | `int()` of a string reads back every integer of at most 4300 digits from its decimal rendering, with a leading minus for negative values |
| `Coercion.ParseShowTooLong` | server.py:114 | the decimal rendering of an integer of more than 4300 digits is rejected, so the handler ends |
| `Quotes.FetchQuote` | server.py:46-63 | never fails and always carries the requested symbol. It is a price record with currency "N/A" exactly when bars came back and the close converted; an empty download gives "No data returned", and an exception raised by the download or the conversion gives its text |
| `Quotes.Updates` | server.py:85-88 | the update list has one entry per subscribed symbol |
| `Quotes.UpdatesAt` | server.py:86-88 | entry i of the update list is the quote for the i-th symbol, built from the i-th download |
| `Quotes.UpdatesFollowSymbols` | server.py:85-88 | the updates keep the subscription's order: entry i names symbols[i], and it is a price exactly when download i returned bars |
| `Quotes.FailureIsolated` | server.py:85-88 | a failed download changes only that symbol's entry, which becomes an error record; every other entry stays the same and none is dropped |
| `Streaming.Connected` | server.py:72-76 | `connect` adds the socket and keeps every earlier member. Adding a socket already present leaves the set unchanged. A task is counted exactly when the set then has size 1 |
| `Streaming.SpawnsIff` | server.py:75-76 | a task is created exactly when the registry held nothing but possibly the same socket; live earlier tasks do not matter |
| `Streaming.Disconnected` | server.py:78-80 | `disconnect` removes the socket and leaves every other member. It changes nothing when the socket is absent |
| `Streaming.DisconnectIdempotent` | server.py:78-80 | removal by the handler and by a failed send converge: a second `disconnect` changes nothing |
| `Streaming.Iterated` | server.py:84-99 | one pass: with an empty registry the task leaves its loop. Otherwise exactly the failed sockets are removed, the subscription is untouched, and the task ends when the sleep overflows on the stored interval |
| `Streaming.SleepOverflowValue` | server.py:99 | the overflow threshold used by the model is exactly 2^1024 - 2^970, the least integer that does not convert to a float |
| `Streaming.Broadcast` | server.py:85-92 | the pass's message has one entry per symbol, with entry i naming symbols[i] |
| `Streaming.Handled` | server.py:106-116 | one frame. A disconnect deregisters the socket. Any other frame leaves the registry alone. A non-subscribe object changes nothing. Undecodable input or a non-object ends the handler and leaves the socket registered |
| `Streaming.SubscribePartialUpdate` | server.py:112-114 | a subscribe message sets `symbols` only when the key is present. It sets `interval` to `int()` of the value only when that key is present. An absent key keeps the prior value; a rejected interval ends the handler |
| `Streaming.OtherMessagesIgnored` | server.py:112 | a message whose `type` is not "subscribe" changes nothing and the handler keeps listening |
| `Streaming.HandledIdempotent` | server.py:110-116 | handling the same frame twice has the effect of handling it once |
| `Streaming.LastWriteWins` | server.py:113-114 | a subscribe message with both keys and a valid interval overrides whatever an earlier message set |
| `Streaming.TornUpdate` | server.py:113-115 | a subscribe message with any interval value that `int()` rejects still replaces `symbols`, keeps `interval`, ends the handler, and leaves the registry as it was |
| `Streaming.IntervalUnchecked` | server.py:114 | a zero or negative interval is stored as given |
| `Streaming.RunSnoc` | server.py:72-116 | a trace one event longer is one more step of the same state |
| `Streaming.InitialInv` | server.py:67-70 | start-up has no sockets and no task, and satisfies the invariant |
| `Streaming.StepInv` | server.py:72-116 | every atomic step of any task preserves the invariant (a non-empty registry has a live task, and live tasks never outnumber created ones), except a pass whose sleep overflows |
| `Streaming.StepSafe` | server.py:99-114 | a step that does not store an overflowing interval keeps the stored interval one the sleep accepts |
| `Streaming.RunInv` | server.py:72-116 | every interleaving of connects, frames and passes that stores no overflowing interval preserves the invariant |
| `Streaming.ReachableInv` | server.py:67-116 | every state reachable from start-up without storing an overflowing interval satisfies the invariant |
| `Streaming.AbsentStaysAbsent` | server.py:72-116 | an unregistered socket stays unregistered through any interleaving that does not connect it again |
| `Streaming.FailedSocketStaysGone` | server.py:93-97 | after a pass, a socket whose send failed is unregistered and stays so until it connects again; every other registered socket survives the pass |
| `Streaming.LoopOutlivesRegistry` | server.py:78-99 | after the only client leaves, its task is still alive with nothing registered until its next check |
| `Streaming.SecondLoopSpawned` | server.py:74-84 | a client joining in that window creates a second task. Two tasks stay alive and broadcast to the same registry, even after one of them passes again |
| `Streaming.OverflowStrandsRegistry` | server.py:74-114 | after a subscribe with an overflowing interval the only task ends with its socket registered; a second client then creates no task, so two sockets are registered and none is alive |
| `Streaming.OverflowRestartsWhenEmptied` | server.py:74-116 | after that trace, once both sockets have left, the next client creates a task over {3}; the interval is still the overflowing one, so that task's first pass ends it with 3 still registered |
| `Streaming.ServedStart` | server.py:107 | a handler that has read no frame has only connected |
| `Streaming.ServedStep` | server.py:109-116 | reading one more frame is one more `Handled` step of the same handler |
| `Server.ConnectionManager.constructor` | server.py:67-70 | empty registry, symbols ["^GSPC", "^NDX"], interval 15, no task |
| `Server.ConnectionManager.Connect` | server.py:72-76 | updates the object as `Connected` does and keeps the invariant when it held. It reports a spawn exactly when the old registry was contained in {ws} |
| `Server.ConnectionManager.Disconnect` | server.py:78-80 | updates the object as `Disconnected` does and keeps the invariant when it held |
| `Server.ConnectionManager.FetchAll` | server.py:85-88 | the loop builds exactly `Updates(symbols, fetched)`: one quote per symbol, in order |
| `Server.ConnectionManager.SendAll` | server.py:92-97 | every snapshot socket whose send failed is removed; only those are removed. Every other snapshot socket gets the same message exactly once. The subscription is untouched |
| `Server.ConnectionManager.StreamPass` | server.py:82-99 | one pass follows `Iterated`. It stops exactly when the registry is empty. Otherwise it sends `Broadcast(state, fetched)` to exactly the surviving sockets, each once, sleeps for the `interval` field, and ends the task exactly when that sleep overflows. It keeps the invariant unless the sleep overflows |
| `Server.ConnectionManager.HandleFrame` | server.py:109-116 | updates the object and reports the handler's status as `Handled` does, and keeps the invariant when it held |
| `Server.ConnectionManager.Serve` | server.py:105-116 | one handler with no task in between: its state is the `Run` of its connect and the frames it read. Every frame before the last one read left it listening; the status is the one `Handled` gives for the last frame read, and it is still listening only when the frames ran out |

## Left out

- The `/history` endpoint, the FastAPI app, the CORS middleware, the static file mount and `uvicorn.run`: framework plumbing outside the broadcast core.
- The yfinance download inside `fetch_quote`, and the float conversion of its last close. Their outcome is a `Fetched` parameter: bars with a price as an opaque `real`, no bars, or the text of the exception either one raised.
- `websocket.accept()`: `Connect` models `connect` from the moment the accept has returned.
- `json.dumps`/`json.loads` at the byte level, and the debug `print`. Messages are values. A frame arrives already classified as undecodable, non-object, or an object with the three fields the handler reads. Undecodable covers a binary frame, on which `receive_text` raises KeyError, and every text `json.loads` rejects, including a JSON integer of more than 4300 digits.
- A `symbols` value that is not a list of strings (null, a string, a number, an object). The source stores it as is. A pass then iterates a string's characters or an object's keys, and on null or a number `for s in self.symbols` raises TypeError, which ends the task with its sockets still registered, as an overflowing sleep does. The model only admits lists of strings, so `Streaming.ReachableInv` does not cover that case.
- `Coercion.ParseInt` accepts ASCII white space, a sign and ASCII digits. Python's `int()` also accepts `_` between digits, non-ASCII digits and non-ASCII white space; the model rejects those.
- `Coercion.ParseInt` fixes the digit limit at CPython's default of 4300. The limit can be changed at run time (`sys.set_int_max_str_digits`), or it may be absent on Python versions before 3.11; the model does not cover either case.
- NaN and Infinity (which `json.loads` accepts), and a number literal such as `1e400` that `json.loads` turns into an infinite float, count as `JOther`, which `int()` rejects, as Python does. A `JFloat` holds the exact value of the finite double `json.loads` produced, not the value of the literal.
- Real sleeping and time. A pass reports the interval it would sleep for, and whether that sleep raises OverflowError. The threshold 2^1024 - 2^970 is the least integer that does not convert to a float.
- Interleaving inside one pass. `StreamPass` is one atomic step. In the source, `fetch_quote` contains no `await` and its download blocks, so the `while` check, the read of `self.symbols`, all downloads and `json.dumps` run as one atomic stretch up to the first `send_text`. Other tasks can run at each send and during the sleep. For example, a socket that registers during the sends is missed by that message. A socket that leaves during the sends fails its send, and the guarded `disconnect` is then a no-op. Trace-level interleaving covers whole passes, connects and frames.
- `Server.ConnectionManager.Serve` runs one handler with nothing in between. Interleaving with other handlers and tasks is stated by `Streaming.Run` over arbitrary event sequences.
- The order of `list(self.connections)` (hash order in Python): `SendAll` visits the snapshot in an arbitrary order.
