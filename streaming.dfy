/**
 * The live-broadcast bookkeeping of server.py as a state machine over values.
 *
 * asyncio runs one task at a time and switches only at an `await`, so each
 * stretch of code between two awaits is one atomic transition.  A `Manager`
 * is the state of the `ConnectionManager` object (server.py:66-70) plus two
 * counters the source does not keep but whose values it determines: how many
 * `stream_prices` tasks were created, and how many of them have not yet left
 * their `while` loop.
 */
module Streaming {
  import opened Wrappers
  import opened Coercion
  import opened Quotes

  /** An accepted websocket, by identity. */
  type Socket = nat

  const DefaultSymbols: seq<string> := ["^GSPC", "^NDX"]
  const DefaultInterval: int := 15

  datatype Manager = Manager(
    connections: set<Socket>,
    symbols: seq<string>,
    interval: int,
    spawned: nat,   // `stream_prices` tasks created so far
    live: nat)      // of those, the ones still inside their `while` loop

  /** `ConnectionManager()` (server.py:67-70). */
  function Initial(): Manager
  {
    Manager({}, DefaultSymbols, DefaultInterval, 0, 0)
  }

  // ---------------------------------------------------------------- connect

  /** Whether `connect(ws)` creates a broadcast task: the set has size 1 after the add. */
  predicate Spawns(m: Manager, ws: Socket)
  {
    |m.connections + {ws}| == 1
  }

  /** The state after `connect(ws)` (server.py:74-76). */
  function Connected(m: Manager, ws: Socket): (r: Manager)
    ensures ws in r.connections && m.connections <= r.connections
    ensures forall x :: x in r.connections && x != ws ==> x in m.connections
    ensures ws in m.connections ==> r.connections == m.connections
    ensures r.symbols == m.symbols && r.interval == m.interval
    ensures r.spawned == m.spawned + (if Spawns(m, ws) then 1 else 0)
    ensures r.live == m.live + (if Spawns(m, ws) then 1 else 0)
  {
    var added := m.connections + {ws};
    if |added| == 1 then
      Manager(added, m.symbols, m.interval, m.spawned + 1, m.live + 1)
    else
      m.(connections := added)
  }

  /**
   * A task is created exactly when the registry held nothing but (possibly)
   * `ws` itself; whether an earlier task is still alive plays no part.
   */
  lemma SpawnsIff(m: Manager, ws: Socket)
    ensures Spawns(m, ws) <==> m.connections <= {ws}
  {
    var added := m.connections + {ws};
    if m.connections <= {ws} {
      assert added == {ws};
    } else {
      var x :| x in m.connections && x != ws;
      TwoMembers(added, x, ws);
    }
  }

  lemma TwoMembers(s: set<Socket>, x: Socket, y: Socket)
    requires x in s && y in s && x != y
    ensures |s| >= 2
  {
    var pair := {x, y};
    assert s == pair + (s - pair);
    assert pair * (s - pair) == {};
  }

  // ------------------------------------------------------------- disconnect

  /** The state after `disconnect(ws)` (server.py:78-80). */
  function Disconnected(m: Manager, ws: Socket): (r: Manager)
    ensures ws !in r.connections
    ensures forall x :: x != ws ==> (x in r.connections <==> x in m.connections)
    ensures ws !in m.connections ==> r == m
    ensures r.symbols == m.symbols && r.interval == m.interval
    ensures r.spawned == m.spawned && r.live == m.live
  {
    if ws in m.connections then m.(connections := m.connections - {ws}) else m
  }

  /** Both paths that call `disconnect` may reach the same socket; the second call changes nothing. */
  lemma DisconnectIdempotent(m: Manager, ws: Socket)
    ensures Disconnected(Disconnected(m, ws), ws) == Disconnected(m, ws)
  {
  }

  // ------------------------------------------------------ broadcast iteration

  /**
   * `asyncio.sleep(d)` with `d > 0` adds `d` to the event loop's float clock.
   * The least int that does not convert to a float, 2^1024 - 2^970, makes
   * that addition raise OverflowError; so does every larger one.
   */
  const SleepOverflow: int := 179769313486231580793728971405303415079934132710037826936173778980444968292764750946649017977587207096330286416692887910946555547851940402630657488671505820681908902000708383676273854845817711531764475730270069855571366959622842914819860834936475292719074168444365510704342711559699508093042880177904174497792

  function Pow2(n: nat): (p: nat)
    ensures p >= 1
  {
    if n == 0 then 1 else 2 * Pow2(n - 1)
  }

  lemma {:induction false} Pow2Add(a: nat, b: nat)
    ensures Pow2(a + b) == Pow2(a) * Pow2(b)
    decreases a
  {
    if a > 0 {
      Pow2Add(a - 1, b);
    }
  }

  /** The literal above is the threshold the comment gives. */
  lemma SleepOverflowValue()
    ensures SleepOverflow == Pow2(1024) - Pow2(970)
  {
    assert Pow2(2) == 4;
    Pow2Add(2, 2);
    assert Pow2(4) == 16;
    Pow2Add(4, 4);
    assert Pow2(8) == 256;
    Pow2Add(8, 8);
    assert Pow2(16) == 65536;
    Pow2Add(16, 16);
    assert Pow2(32) == 4294967296;
    Pow2Add(32, 32);
    assert Pow2(64) == 18446744073709551616;
    Pow2Add(64, 64);
    assert Pow2(128) == 340282366920938463463374607431768211456;
    Pow2Add(128, 128);
    assert Pow2(256) == 115792089237316195423570985008687907853269984665640564039457584007913129639936;
    Pow2Add(256, 256);
    assert Pow2(512) == 13407807929942597099574024998205846127479365820592393377723561443721764030073546976801874298166903427690031858186486050853753882811946569946433649006084096;
    Pow2Add(512, 512);
    assert Pow2(1024) == 179769313486231590772930519078902473361797697894230657273430081157732675805500963132708477322407536021120113879871393357658789768814416622492847430639474124377767893424865485276302219601246094119453082952085005768838150682342462881473913110540827237163350510684586298239947245938479716304835356329624224137216;
    Pow2Add(512, 256);
    assert Pow2(768) == 1552518092300708935148979488462502555256886017116696611139052038026050952686376886330878408828646477950487730697131073206171580044114814391444287275041181139204454976020849905550265285631598444825262999193716468750892846853816057856;
    Pow2Add(768, 128);
    assert Pow2(896) == 528294531135665246352339784916516606518847326036121522127960709026673902556724859474417255887657187894674394993257128678882347559502685537250538978462939576908386683999005084168731517676426441053024232908211188404148028292751561738838396898767036476489538580897737998336;
    Pow2Add(896, 64);
    assert Pow2(960) == 9745314011399999080353382387875188310876226857595007526867906457212948690766426102465615065882010259225304916231408668183459169865203094046577987296312653419531277699956473029870789655490053648352799593479218378873685597925394874945746363615468965612827738803104277547081828589991914110976;
    Pow2Add(960, 8);
    assert Pow2(968) == 2494800386918399764570465891296048207584314075544321926878184053046514864836205082231197456865794626361678058555240619054965547485491992075923964747856039275400007091188857095646922151805453733978316695930679904991663513068901087986111069085560055196883901133594695052052948119037930012409856;
    Pow2Add(968, 2);
    assert Pow2(970) == 9979201547673599058281863565184192830337256302177287707512736212186059459344820328924789827463178505446712234220962476219862189941967968303695858991424157101600028364755428382587688607221814935913266783722719619966654052275604351944444276342240220787535604534378780208211792476151720049639424;
  }

  predicate SleepRaises(interval: int)
  {
    interval >= SleepOverflow
  }

  /**
   * One pass of one `stream_prices` task through its loop (server.py:84-99):
   * with an empty registry the task leaves the loop; otherwise every socket of
   * the snapshot whose send failed is disconnected, and the task then sleeps
   * for `interval`, or ends on the exception the sleep raises.  `failed` is
   * the set of sockets whose `send_text` raises in this pass.
   */
  function Iterated(m: Manager, failed: set<Socket>): (r: Manager)
    requires m.live > 0
    ensures r.live == (if m.connections == {} || SleepRaises(m.interval) then m.live - 1 else m.live)
    ensures forall x :: x in r.connections <==> x in m.connections && x !in failed
    ensures r.symbols == m.symbols && r.interval == m.interval && r.spawned == m.spawned
  {
    if m.connections == {} then m.(live := m.live - 1)
    else if SleepRaises(m.interval) then m.(connections := m.connections - failed, live := m.live - 1)
    else m.(connections := m.connections - failed)
  }

  /** The message one pass sends: the updates for the current symbols. */
  function Broadcast(m: Manager, fetched: seq<Fetched>): (msg: Message)
    requires |fetched| == |m.symbols|
    ensures |msg.data| == |m.symbols|
    ensures forall i :: 0 <= i < |m.symbols| ==> msg.data[i].symbol == m.symbols[i]
  {
    UpdatesFollowSymbols(m.symbols, fetched);
    Quotes(Updates(m.symbols, fetched))
  }

  // ------------------------------------------------------ websocket handler

  /** The fields of a decoded JSON object that the handler looks at. */
  datatype Control = Control(
    kind: Option<string>,            // "type", when present and a string
    symbols: Option<seq<string>>,    // "symbols", when present
    interval: Option<JsonScalar>)    // "interval", when present

  /** What `json.loads` makes of one text frame. */
  datatype Inbound =
    | Undecodable            // a binary frame, on which `receive_text` raises KeyError, or text
                             // that `json.loads` rejects (not JSON, or an integer of more
                             // than 4300 digits)
    | NotObject              // JSON, but not an object: `data.get` raises
    | Object(control: Control)

  /** What `receive_text` yields: a text frame, or a disconnect. */
  datatype Frame = Text(payload: Inbound) | Closed

  /**
   * Where the handler stands after one frame: still listening; returned
   * after deregistering on `WebSocketDisconnect`; or ended by another
   * exception, which the `except` clause does not catch.
   */
  datatype Status = Listening | Deregistered | Crashed

  datatype Handling = Handling(state: Manager, status: Status)

  predicate IsSubscribe(f: Frame)
  {
    f.Text? && f.payload.Object? && f.payload.control.kind == Some("subscribe")
  }

  /** The handler's response to one frame (server.py:110-116). */
  function Handled(m: Manager, ws: Socket, f: Frame): (r: Handling)
    ensures r.state.connections == (if f.Closed? then m.connections - {ws} else m.connections)
    ensures r.state.spawned == m.spawned && r.state.live == m.live
    ensures f.Closed? <==> r.status.Deregistered?
    ensures f.Text? && !IsSubscribe(f) ==> r.state == m
    ensures f.Text? && !f.payload.Object? ==> r.status.Crashed?
    ensures r.status.Crashed? ==> ws in m.connections ==> ws in r.state.connections
  {
    match f
    case Closed => Handling(Disconnected(m, ws), Deregistered)
    case Text(Undecodable) => Handling(m, Crashed)
    case Text(NotObject) => Handling(m, Crashed)
    case Text(Object(c)) =>
      if c.kind != Some("subscribe") then Handling(m, Listening)
      else
        // line 113 runs before line 114 can raise
        var m1 := if c.symbols.Some? then m.(symbols := c.symbols.value) else m;
        var coerced := if c.interval.Some? then IntOf(c.interval.value) else Some(m.interval);
        if coerced.None? then Handling(m1, Crashed)
        else Handling(m1.(interval := coerced.value), Listening)
  }

  /**
   * A subscribe message is a partial update: each field takes the message's
   * value when its key is present and keeps its prior value when absent.
   */
  lemma SubscribePartialUpdate(m: Manager, ws: Socket, c: Control)
    requires c.kind == Some("subscribe")
    ensures var r := Handled(m, ws, Text(Object(c)));
      && r.state.connections == m.connections
      && r.state.symbols == (if c.symbols.Some? then c.symbols.value else m.symbols)
      && (c.interval.None? ==> r.state.interval == m.interval && r.status.Listening?)
      && (c.interval.Some? && IntOf(c.interval.value).Some? ==>
            r.state.interval == IntOf(c.interval.value).value && r.status.Listening?)
      && (c.interval.Some? && IntOf(c.interval.value).None? ==>
            r.state.interval == m.interval && r.status.Crashed?)
  {
  }

  /** A message that is not a subscribe message leaves the subscription alone. */
  lemma OtherMessagesIgnored(m: Manager, ws: Socket, c: Control)
    requires c.kind != Some("subscribe")
    ensures Handled(m, ws, Text(Object(c))) == Handling(m, Listening)
  {
  }

  /** The same frame twice has the effect of once. */
  lemma HandledIdempotent(m: Manager, ws: Socket, f: Frame)
    ensures Handled(Handled(m, ws, f).state, ws, f).state == Handled(m, ws, f).state
  {
  }

  /** A message carrying both fields overwrites whatever an earlier one set. */
  lemma LastWriteWins(m: Manager, ws: Socket, first: Frame, symbols: seq<string>, interval: JsonScalar)
    requires first.Text? && IntOf(interval).Some?
    ensures var second := Text(Object(Control(Some("subscribe"), Some(symbols), Some(interval))));
      Handled(Handled(m, ws, first).state, ws, second).state == Handled(m, ws, second).state
  {
    var second := Text(Object(Control(Some("subscribe"), Some(symbols), Some(interval))));
    var m1 := Handled(m, ws, first).state;
    assert m1.connections == m.connections && m1.spawned == m.spawned && m1.live == m.live;
    var after := Manager(m.connections, symbols, IntOf(interval).value, m.spawned, m.live);
    assert Handled(m1, ws, second).state == after;
    assert Handled(m, ws, second).state == after;
  }

  /**
   * An interval that `int(...)` rejects ends the handler after the symbols
   * have already been replaced, and the socket stays registered.
   */
  lemma TornUpdate(m: Manager, ws: Socket, symbols: seq<string>, interval: JsonScalar)
    requires IntOf(interval).None?
    ensures var r := Handled(m, ws, Text(Object(Control(Some("subscribe"), Some(symbols), Some(interval)))));
      r.status.Crashed? && r.state.symbols == symbols && r.state.interval == m.interval
      && r.state.connections == m.connections
  {
  }

  /** No lower bound is enforced on the interval: zero and negative values are stored. */
  lemma IntervalUnchecked(m: Manager, ws: Socket, n: int)
    requires n <= 0
    ensures Handled(m, ws, Text(Object(Control(Some("subscribe"), None, Some(JInt(n)))))).state.interval == n
  {
  }

  // ------------------------------------------------- interleavings of tasks

  /** One atomic step of some task. */
  datatype Event =
    | Join(ws: Socket)                    // a handler's `manager.connect(ws)` after the accept
    | Receive(ws: Socket, frame: Frame)   // a handler's reaction to one received frame
    | Iterate(failed: set<Socket>)        // one pass of one live `stream_prices` task

  function Step(m: Manager, e: Event): Manager
  {
    match e
    case Join(ws) => Connected(m, ws)
    case Receive(ws, f) => Handled(m, ws, f).state
    case Iterate(failed) => if m.live == 0 then m else Iterated(m, failed)
  }

  function Run(m: Manager, es: seq<Event>): Manager
    decreases |es|
  {
    if es == [] then m else Run(Step(m, es[0]), es[1..])
  }

  /** Running a trace one event longer is one more step. */
  lemma {:induction false} RunSnoc(m: Manager, es: seq<Event>, e: Event)
    ensures Run(m, es + [e]) == Step(Run(m, es), e)
    decreases |es|
  {
    if es != [] {
      assert (es + [e])[1..] == es[1..] + [e];
      RunSnoc(Step(m, es[0]), es[1..], e);
    }
  }

  /**
   * The invariant of every state reached without an overflowing sleep: while
   * some socket is registered some task is still inside its loop, and no more
   * tasks are alive than were created.
   */
  ghost predicate Inv(m: Manager)
  {
    (m.connections != {} ==> m.live > 0) && m.live <= m.spawned
  }

  /** The stored interval is one the sleep accepts. */
  predicate SleepsSafely(m: Manager)
  {
    !SleepRaises(m.interval)
  }

  /** An event that does not store an interval at which the sleep raises. */
  predicate Tame(e: Event)
  {
    !(e.Receive? && IsSubscribe(e.frame) && e.frame.payload.control.interval.Some?
      && IntOf(e.frame.payload.control.interval.value).Some?
      && SleepRaises(IntOf(e.frame.payload.control.interval.value).value))
  }

  lemma InitialInv()
    ensures Inv(Initial()) && SleepsSafely(Initial())
    ensures Initial().connections == {} && Initial().live == 0
  {
  }

  /** Every step keeps the invariant, except a pass whose sleep raises. */
  lemma StepInv(m: Manager, e: Event)
    requires Inv(m)
    requires e.Iterate? ==> SleepsSafely(m)
    ensures Inv(Step(m, e))
  {
  }

  /** Only a subscribe message changes the interval, and a tame one keeps it safe. */
  lemma StepSafe(m: Manager, e: Event)
    requires SleepsSafely(m) && Tame(e)
    ensures SleepsSafely(Step(m, e))
  {
  }

  lemma {:induction false} RunInv(m: Manager, es: seq<Event>)
    requires Inv(m) && SleepsSafely(m)
    requires forall i :: 0 <= i < |es| ==> Tame(es[i])
    ensures Inv(Run(m, es)) && SleepsSafely(Run(m, es))
    decreases |es|
  {
    if es != [] {
      StepInv(m, es[0]);
      StepSafe(m, es[0]);
      assert forall i :: 0 <= i < |es[1..]| ==> es[1..][i] == es[i + 1];
      RunInv(Step(m, es[0]), es[1..]);
    }
  }

  /**
   * Every state reachable from start-up keeps the invariant, provided no
   * client stored an interval at which the sleep raises.
   */
  lemma ReachableInv(es: seq<Event>)
    requires forall i :: 0 <= i < |es| ==> Tame(es[i])
    ensures Inv(Run(Initial(), es))
  {
    InitialInv();
    RunInv(Initial(), es);
  }

  /** A socket stays unregistered through any steps that do not connect it. */
  lemma {:induction false} AbsentStaysAbsent(m: Manager, ws: Socket, es: seq<Event>)
    requires ws !in m.connections
    requires forall i :: 0 <= i < |es| ==> es[i] != Join(ws)
    ensures ws !in Run(m, es).connections
    decreases |es|
  {
    if es != [] {
      assert es[0] != Join(ws);
      assert forall i :: 0 <= i < |es[1..]| ==> es[1..][i] == es[i + 1];
      AbsentStaysAbsent(Step(m, es[0]), ws, es[1..]);
    }
  }

  /**
   * A socket whose send failed is unregistered at the end of that pass and
   * stays so, whatever other steps follow, until it connects again; every
   * other registered socket survives the pass.
   */
  lemma FailedSocketStaysGone(m: Manager, failed: set<Socket>, ws: Socket, es: seq<Event>)
    requires m.live > 0 && ws in failed
    requires forall i :: 0 <= i < |es| ==> es[i] != Join(ws)
    ensures ws !in Run(Iterated(m, failed), es).connections
    ensures forall x :: x in m.connections && x !in failed ==> x in Iterated(m, failed).connections
  {
    AbsentStaysAbsent(Iterated(m, failed), ws, es);
  }

  /**
   * A task whose registry emptied while it slept outlives the registry until
   * its next check: alive with nothing registered.
   */
  lemma LoopOutlivesRegistry()
    ensures var m := Run(Initial(), [Join(1), Receive(1, Closed)]);
      m.connections == {} && m.live == 1
  {
  }

  /**
   * If a second client connects before that check, a second task is created
   * while the first is still alive: two tasks broadcast to the same registry.
   */
  lemma SecondLoopSpawned()
    ensures var m := Run(Initial(), [Join(1), Receive(1, Closed), Join(2)]);
      m.connections == {2} && m.live == 2 && m.spawned == 2
    ensures var m := Run(Initial(), [Join(1), Receive(1, Closed), Join(2), Iterate({})]);
      m.connections == {2} && m.live == 2
  {
  }

  /**
   * An interval at which the sleep raises ends the only task after its sends;
   * every socket whose send did not fail stays registered.  A later client
   * does not start another task, because the registry then has two members:
   * no task is created, and nothing is broadcast, until every registered
   * socket has left.
   */
  lemma OverflowStrandsRegistry()
    ensures var huge := Text(Object(Control(Some("subscribe"), None, Some(JInt(SleepOverflow)))));
      var m := Run(Initial(), [Join(1), Receive(1, huge), Iterate({}), Join(2)]);
      m.connections == {1, 2} && m.live == 0 && m.spawned == 1 && !Inv(m)
      && m.interval == SleepOverflow
  {
    var huge := Text(Object(Control(Some("subscribe"), None, Some(JInt(SleepOverflow)))));
    var m1 := Connected(Initial(), 1);
    assert m1.connections == {1} && m1.live == 1;
    var m2 := Handled(m1, 1, huge).state;
    assert m2.connections == {1} && m2.live == 1 && m2.interval == SleepOverflow;
    var m3 := Iterated(m2, {});
    assert m3.connections == {1} && m3.live == 0;
    var m4 := Connected(m3, 2);
    assert m3.connections + {2} == {1, 2};
    assert m4.connections == {1, 2} && m4.live == 0 && m4.spawned == 1;
    assert Run(Initial(), [Join(1), Receive(1, huge), Iterate({}), Join(2)])
        == Run(m1, [Receive(1, huge), Iterate({}), Join(2)]);
    assert Run(m1, [Receive(1, huge), Iterate({}), Join(2)]) == Run(m2, [Iterate({}), Join(2)]);
    assert Run(m2, [Iterate({}), Join(2)]) == Run(m3, [Join(2)]);
  }

  /**
   * Once both sockets have left, the next client does start a task, which
   * broadcasts once and then ends at the same sleep: the stored interval has
   * not changed.
   */
  lemma OverflowRestartsWhenEmptied()
    ensures var huge := Text(Object(Control(Some("subscribe"), None, Some(JInt(SleepOverflow)))));
      var m := Run(Initial(), [Join(1), Receive(1, huge), Iterate({}), Join(2)]
                              + [Receive(1, Closed), Receive(2, Closed), Join(3)]);
      m.connections == {3} && m.live == 1 && m.spawned == 2 && SleepRaises(m.interval)
      && Iterated(m, {}).connections == {3} && Iterated(m, {}).live == 0
  {
    var huge := Text(Object(Control(Some("subscribe"), None, Some(JInt(SleepOverflow)))));
    var first := [Join(1), Receive(1, huge), Iterate({}), Join(2)];
    OverflowStrandsRegistry();
    RunAppend(Initial(), first, [Receive(1, Closed), Receive(2, Closed), Join(3)]);
    var m4 := Run(Initial(), first);
    var m5 := Disconnected(m4, 1);
    var m6 := Disconnected(m5, 2);
    assert m6.connections == {} && m6.live == 0 && m6.spawned == 1;
    var m7 := Connected(m6, 3);
    assert m7.connections == {3} && m7.live == 1 && m7.spawned == 2;
    assert Run(m4, [Receive(1, Closed), Receive(2, Closed), Join(3)]) == Run(m5, [Receive(2, Closed), Join(3)]);
    assert Run(m5, [Receive(2, Closed), Join(3)]) == Run(m6, [Join(3)]);
  }

  lemma {:induction false} RunAppend(m: Manager, es: seq<Event>, more: seq<Event>)
    ensures Run(m, es + more) == Run(Run(m, es), more)
    decreases |es|
  {
    if es == [] {
      assert es + more == more;
    } else {
      assert (es + more)[1..] == es[1..] + more;
      RunAppend(Step(m, es[0]), es[1..], more);
    }
  }

  // ------------------------------------------------------- one handler alone

  /** The events of one handler receiving `frames`; it only builds the trace `Served` runs. */
  function Receipts(ws: Socket, frames: seq<Frame>): (es: seq<Event>)
    ensures |es| == |frames|
    ensures forall i :: 0 <= i < |frames| ==> es[i] == Receive(ws, frames[i])
  {
    seq(|frames|, i requires 0 <= i < |frames| => Receive(ws, frames[i]))
  }

  /**
   * The state after one handler connected and handled the first `k` of its
   * frames with no other task in between.
   */
  function Served(m: Manager, ws: Socket, frames: seq<Frame>, k: nat): Manager
    requires k <= |frames|
  {
    Run(m, [Join(ws)] + Receipts(ws, frames[..k]))
  }

  lemma ServedStart(m: Manager, ws: Socket, frames: seq<Frame>)
    ensures Served(m, ws, frames, 0) == Connected(m, ws)
  {
    assert [Join(ws)] + Receipts(ws, frames[..0]) == [Join(ws)];
    assert [Join(ws)][1..] == [];
    assert Run(m, [Join(ws)]) == Run(Step(m, Join(ws)), []);
  }

  /** Handling one more frame is one more `Handled` step. */
  lemma ServedStep(m: Manager, ws: Socket, frames: seq<Frame>, k: nat)
    requires k < |frames|
    ensures Served(m, ws, frames, k + 1) == Handled(Served(m, ws, frames, k), ws, frames[k]).state
  {
    var e := Receive(ws, frames[k]);
    var trace := [Join(ws)] + Receipts(ws, frames[..k]);
    RunSnoc(m, trace, e);
    ReceiptsSnoc(ws, frames, k);
    assert trace + [e] == [Join(ws)] + (Receipts(ws, frames[..k]) + [e]);
  }

  lemma ReceiptsSnoc(ws: Socket, frames: seq<Frame>, k: nat)
    requires k < |frames|
    ensures Receipts(ws, frames[..k + 1]) == Receipts(ws, frames[..k]) + [Receive(ws, frames[k])]
  {
    var longer := Receipts(ws, frames[..k + 1]);
    var shorter := Receipts(ws, frames[..k]) + [Receive(ws, frames[k])];
    assert |longer| == |shorter|;
    forall i | 0 <= i < |longer| ensures longer[i] == shorter[i] {
    }
  }
}
