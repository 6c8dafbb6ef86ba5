/**
 * `ConnectionManager` and the websocket handler of server.py as imperative
 * code over one object.  Each method is one atomic stretch between awaits and
 * is proved to move the object's state as the matching transition of module
 * Streaming does.  The outcome of every external call (a download, a send)
 * is a parameter.
 */
module Server {
  import opened Wrappers
  import opened Coercion
  import opened Quotes
  import opened Streaming

  /** One successful `send_text`: which socket got which message. */
  datatype Delivery = Delivery(to: Socket, msg: Message)

  function Recipients(ds: seq<Delivery>): set<Socket>
  {
    set d | d in ds :: d.to
  }

  /** What one pass through the `stream_prices` loop did. */
  datatype Pass =
    | Stopped          // the registry was empty: the task ends
    | Sent(            // one message sent, then a sleep
        msg: Message,
        deliveries: seq<Delivery>,
        sleep: int,    // the `self.interval` the sleep was called with
        ended: bool)   // the sleep raised, which ended the task

  class ConnectionManager {
    var connections: set<Socket>
    var symbols: seq<string>
    var interval: int
    ghost var spawned: nat
    ghost var live: nat

    ghost function State(): Manager
      reads this
    {
      Manager(connections, symbols, interval, spawned, live)
    }

    /**
     * The invariant of `Streaming.Inv`.  The source requires nothing of its
     * callers, so no method requires it; each one keeps it, except a pass
     * whose sleep raises.
     */
    ghost predicate Valid()
      reads this
    {
      Inv(State())
    }

    /** `ConnectionManager()`: nobody connected, the default subscription, no task. */
    constructor ()
      ensures State() == Initial() && Valid()
    {
      connections := {};
      symbols := DefaultSymbols;
      interval := DefaultInterval;
      spawned, live := 0, 0;
    }

    /** `connect(ws)` after the accept: register, and create a task when the set has size 1. */
    method Connect(ws: Socket) returns (spawn: bool)
      modifies this
      ensures State() == Connected(old(State()), ws)
      ensures old(Valid()) ==> Valid()
      ensures spawn == Spawns(old(State()), ws)
      ensures spawn <==> old(connections) <= {ws}
    {
      SpawnsIff(State(), ws);
      if Valid() {
        StepInv(State(), Join(ws));
      }
      connections := connections + {ws};
      spawn := |connections| == 1;
      if spawn {
        spawned, live := spawned + 1, live + 1;
      }
    }

    /** `disconnect(ws)`: remove the socket if it is registered. */
    method Disconnect(ws: Socket)
      modifies this
      ensures State() == Disconnected(old(State()), ws)
      ensures old(Valid()) ==> Valid()
    {
      if ws in connections {
        connections := connections - {ws};
      }
    }

    /** The `for s in self.symbols` loop: one quote per symbol, in order. */
    method FetchAll(fetched: seq<Fetched>) returns (updates: seq<Quote>)
      requires |fetched| == |symbols|
      ensures updates == Updates(symbols, fetched)
      ensures |updates| == |symbols|
      ensures forall i :: 0 <= i < |symbols| ==> updates[i].symbol == symbols[i]
    {
      updates := [];
      var i := 0;
      while i < |symbols|
        invariant 0 <= i <= |symbols|
        invariant updates == Updates(symbols[..i], fetched[..i])
      {
        assert symbols[..i + 1][..i] == symbols[..i] && fetched[..i + 1][..i] == fetched[..i];
        updates := updates + [FetchQuote(symbols[i], fetched[i])];
        i := i + 1;
      }
      assert symbols[..i] == symbols && fetched[..i] == fetched;
      UpdatesFollowSymbols(symbols, fetched);
    }

    /**
     * The send loop over `list(self.connections)`: every socket of the
     * snapshot either gets `msg` once or, when its send raises, is disconnected.
     */
    method SendAll(msg: Message, failed: set<Socket>) returns (deliveries: seq<Delivery>)
      modifies this
      ensures connections == old(connections) - failed
      ensures symbols == old(symbols) && interval == old(interval)
      ensures spawned == old(spawned) && live == old(live)
      ensures old(Valid()) ==> Valid()
      ensures Recipients(deliveries) == old(connections) - failed
      ensures forall i :: 0 <= i < |deliveries| ==> deliveries[i].msg == msg
      ensures forall i, j :: 0 <= i < j < |deliveries| ==> deliveries[i].to != deliveries[j].to
    {
      var snapshot := connections;
      var pending := snapshot;
      deliveries := [];
      while pending != {}
        invariant pending <= snapshot
        invariant connections == snapshot - (snapshot - pending) * failed
        invariant symbols == old(symbols) && interval == old(interval)
        invariant spawned == old(spawned) && live == old(live)
        invariant old(Valid()) ==> Valid()
        invariant Recipients(deliveries) == (snapshot - pending) - failed
        invariant forall i :: 0 <= i < |deliveries| ==> deliveries[i].msg == msg
        invariant forall i :: 0 <= i < |deliveries| ==> deliveries[i].to !in pending
        invariant forall i, j :: 0 <= i < j < |deliveries| ==> deliveries[i].to != deliveries[j].to
        decreases pending
      {
        var ws :| ws in pending;
        if ws in failed {
          Disconnect(ws);
        } else {
          RecipientsSnoc(deliveries, Delivery(ws, msg));
          deliveries := deliveries + [Delivery(ws, msg)];
        }
        pending := pending - {ws};
      }
    }

    /**
     * One pass of one live `stream_prices` task: the `while self.connections`
     * check, the downloads, one message to every registered socket, and the
     * sleep for `self.interval`, which ends the task when it raises.
     */
    method StreamPass(fetched: seq<Fetched>, failed: set<Socket>) returns (pass: Pass)
      requires live > 0
      requires |fetched| == |symbols|
      modifies this
      ensures State() == Iterated(old(State()), failed)
      ensures old(Valid()) && !SleepRaises(old(interval)) ==> Valid()
      ensures pass.Stopped? <==> old(connections) == {}
      ensures pass.Sent? ==> pass.msg == Broadcast(old(State()), fetched)
      ensures pass.Sent? ==> Recipients(pass.deliveries) == old(connections) - failed
      ensures pass.Sent? ==> forall i :: 0 <= i < |pass.deliveries| ==> pass.deliveries[i].msg == pass.msg
      ensures pass.Sent? ==> forall i, j :: 0 <= i < j < |pass.deliveries| ==>
                pass.deliveries[i].to != pass.deliveries[j].to
      ensures pass.Sent? ==> pass.sleep == interval && (pass.ended <==> SleepRaises(pass.sleep))
    {
      if Valid() && !SleepRaises(interval) {
        StepInv(State(), Iterate(failed));
      }
      if connections == {} {
        live := live - 1;
        return Stopped;
      }
      var updates := FetchAll(fetched);
      var msg := Quotes(updates);
      var deliveries := SendAll(msg, failed);
      var ended := SleepRaises(interval);
      if ended {
        live := live - 1;
      }
      return Sent(msg, deliveries, interval, ended);
    }

    /** The handler's response to one frame (the body of its `while True` loop and the `except`). */
    method HandleFrame(ws: Socket, f: Frame) returns (status: Status)
      modifies this
      ensures State() == Handled(old(State()), ws, f).state
      ensures old(Valid()) ==> Valid()
      ensures status == Handled(old(State()), ws, f).status
    {
      if Valid() {
        StepInv(State(), Receive(ws, f));
      }
      match f
      case Closed =>
        Disconnect(ws);
        status := Deregistered;
      case Text(Undecodable) =>
        status := Crashed;
      case Text(NotObject) =>
        status := Crashed;
      case Text(Object(c)) =>
        if c.kind == Some("subscribe") {
          if c.symbols.Some? {
            symbols := c.symbols.value;
          }
          var coerced := if c.interval.Some? then IntOf(c.interval.value) else Some(interval);
          if coerced.None? {
            status := Crashed;
          } else {
            interval := coerced.value;
            status := Listening;
          }
        } else {
          status := Listening;
        }
    }

    /**
     * `websocket_endpoint(ws)` when no other task runs in between: connect,
     * then handle the frames in order; every frame but the last one read left
     * the handler listening, and the last one read is the one that ended it,
     * unless the frames ran out.
     */
    method Serve(ws: Socket, frames: seq<Frame>) returns (spawn: bool, read: nat, status: Status)
      modifies this
      ensures old(Valid()) ==> Valid()
      ensures spawn == Spawns(old(State()), ws)
      ensures read <= |frames|
      ensures State() == Served(old(State()), ws, frames, read)
      ensures read == 0 ==> status.Listening?
      ensures read > 0 ==>
        status == Handled(Served(old(State()), ws, frames, read - 1), ws, frames[read - 1]).status
      ensures forall j :: 0 <= j < read - 1 ==>
        Handled(Served(old(State()), ws, frames, j), ws, frames[j]).status.Listening?
      ensures status.Listening? ==> read == |frames|
    {
      ghost var start := State();
      spawn := Connect(ws);
      ServedStart(start, ws, frames);
      read, status := 0, Listening;
      while read < |frames| && status.Listening?
        invariant old(Valid()) ==> Valid()
        invariant read <= |frames|
        invariant State() == Served(start, ws, frames, read)
        invariant read == 0 ==> status.Listening?
        invariant read > 0 ==>
          status == Handled(Served(start, ws, frames, read - 1), ws, frames[read - 1]).status
        invariant forall j :: 0 <= j < read - 1 ==>
          Handled(Served(start, ws, frames, j), ws, frames[j]).status.Listening?
      {
        ServedStep(start, ws, frames, read);
        status := HandleFrame(ws, frames[read]);
        read := read + 1;
      }
    }
  }

  lemma RecipientsSnoc(ds: seq<Delivery>, d: Delivery)
    ensures Recipients(ds + [d]) == Recipients(ds) + {d.to}
  {
  }
}
