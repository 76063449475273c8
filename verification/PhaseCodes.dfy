/**
 What each code of a handler does to a run of the phases, and in the preread phase what decides when the
 handler asks for more data. The statements are about the runs themselves: whose turn is next, and how it ends.
 */
module PhaseCodes {
  import opened Phases

  /** The run has the turns of the handlers `hs` in front of the run `rest`, and ends as that does. */
  ghost predicate GoesOn(t: Trace, hs: seq<Handler>, rest: Trace) {
    t.end == rest.end && Handlers(t.turns) == hs + Handlers(rest.turns) && |t.turns| == |hs| + |rest.turns|
  }

  /** The run has this one turn and is stopped with the status. */
  ghost predicate StopsWith(t: Trace, h: Handler, status: nat) {
    Handlers(t.turns) == [h] && t.end == Stopped(status)
  }

  /** Where a run goes after a turn of the first handler of `here`, with the reply `c`. */
  ghost predicate Follows(t: Trace, phases: seq<seq<Handler>>, i: nat, here: seq<Handler>, c: Code, os: seq<Observation>)
    requires |phases| == LOG && i < CONTENT && here != []
  {
    match c
    case Ok => GoesOn(t, [here[0]], Nested(phases, i + 1, Reversed(phases[i + 1]), os))
    case Declined => GoesOn(t, [here[0]], Nested(phases, i, here[1..], os))
    case Again => GoesOn(t, [here[0]], Nested(phases, i, here, os))
    case Done => GoesOn(t, [here[0]], Nested(phases, i, here, os))
    case Error => StopsWith(t, here[0], 500)
    case Status(s) => StopsWith(t, here[0], s)
  }

  lemma OneTurn(t: Turn, rest: Trace)
    ensures GoesOn(Then(t, rest), [t.handler], rest)
  {
    ThenHandlers(t, rest);
  }

  lemma OnlyTurn(t: Turn)
    ensures Handlers([t]) == [t.handler]
  {
    assert [t][1..] == [];
  }

  /**
   A turn in a generic phase, by the handler's reply: accept skips the rest of the phase, decline goes on to the
   next handler, "again" and "done" come back to the same one, an error stops with 500 and a status with itself.
   */
  lemma GenericTurn(phases: seq<seq<Handler>>, i: nat, here: seq<Handler>, os: seq<Observation>)
    requires |phases| == LOG && i < CONTENT && i != PREREAD && here != [] && os != []
    ensures Follows(Nested(phases, i, here, os), phases, i, here, os[0].reply, os[1..])
  {
    TurnFollows(phases, i, here, os, os[0].reply);
  }

  lemma TurnFollows(phases: seq<seq<Handler>>, i: nat, here: seq<Handler>, os: seq<Observation>, c: Code)
    requires |phases| == LOG && i < CONTENT && here != [] && os != [] && VerdictOf(i == PREREAD, os[0]) == OfCode(c)
    ensures Follows(Nested(phases, i, here, os), phases, i, here, c, os[1..])
  {
    var v := OfCode(c);
    match c
    case Ok =>
      assert Nested(phases, i, [], os[1..]) == Nested(phases, i + 1, Reversed(phases[i + 1]), os[1..]);
      OneTurn(Turn(here[0], v), Nested(phases, i, [], os[1..]));
    case Declined => OneTurn(Turn(here[0], v), Nested(phases, i, here[1..], os[1..]));
    case Again => OneTurn(Turn(here[0], v), Nested(phases, i, here, os[1..]));
    case Done => OneTurn(Turn(here[0], v), Nested(phases, i, here, os[1..]));
    case Error => OnlyTurn(Turn(here[0], v));
    case Status(_) => OnlyTurn(Turn(here[0], v));
  }

  /** `n` times the same handler. */
  function Times(h: Handler, n: nat): seq<Handler> {
    seq(n, _ => h)
  }

  /**
   A handler of a generic phase that replies "again" or "done" `n` times has the first `n` turns to itself, and
   the run goes on with it.
   */
  lemma {:induction false} WaitsForIt(phases: seq<seq<Handler>>, i: nat, here: seq<Handler>, os: seq<Observation>, n: nat)
    requires |phases| == LOG && i < CONTENT && i != PREREAD && here != [] && n <= |os|
    requires forall k | 0 <= k < n :: os[k].reply == Again || os[k].reply == Done
    ensures GoesOn(Nested(phases, i, here, os), Times(here[0], n), Nested(phases, i, here, os[n..]))
    ensures n == |os| ==> Nested(phases, i, here, os).end == Waiting
    decreases n
  {
    if n == 0 {
      assert os[0..] == os;
      assert Times(here[0], 0) == [];
    } else {
      GenericTurn(phases, i, here, os);
      WaitsForIt(phases, i, here, os[1..], n - 1);
      assert os[1..][n - 1..] == os[n..];
      assert Times(here[0], n) == [here[0]] + Times(here[0], n - 1);
      Chained(Nested(phases, i, here, os), [here[0]], Nested(phases, i, here, os[1..]), Times(here[0], n - 1), Nested(phases, i, here, os[n..]));
    }
  }

  lemma Chained(t: Trace, a: seq<Handler>, mid: Trace, b: seq<Handler>, rest: Trace)
    requires GoesOn(t, a, mid) && GoesOn(mid, b, rest)
    ensures GoesOn(t, a + b, rest)
  {
    assert a + (b + Handlers(rest.turns)) == a + b + Handlers(rest.turns);
  }

  // ----- The preread phase

  /** How many bytes the first `k` reads bring. */
  function Received(arrivals: seq<Read>, k: nat): nat
    requires k <= |arrivals|
  {
    if k == 0 then 0 else Received(arrivals, k - 1) + if arrivals[k - 1].Got? then arrivals[k - 1].n else 0
  }

  /**
   The handler has asked for more data, and again after each of the first `k` reads, which have not filled the
   buffer: the loop looks at the read number `k`.
   */
  ghost predicate Looking(o: Observation, k: nat) {
    && !o.timedout && (o.timerSet || o.reply == Again)
    && k <= |o.arrivals| && Received(o.arrivals, k) < o.room
    && forall j | 0 <= j < k :: o.arrivals[j].Got? && o.arrivals[j].reply == Again
  }

  lemma {:induction false} LoopLooks(o: Observation, k: nat)
    requires Looking(o, k)
    ensures VerdictOf(true, o) == PrereadVerdict(Again, o.room - Received(o.arrivals, k), o.arrivals[k..])
    decreases k
  {
    if k == 0 {
      assert o.arrivals[0..] == o.arrivals;
    } else {
      LoopLooks(o, k - 1);
      assert o.arrivals[k - 1..][0] == o.arrivals[k - 1];
      assert o.arrivals[k - 1..][1..] == o.arrivals[k..];
    }
  }

  /** What is decided at read `k`. */
  ghost predicate DecidedAt(t: Trace, phases: seq<seq<Handler>>, here: seq<Handler>, o: Observation, k: nat, os: seq<Observation>)
    requires |phases| == LOG && here != [] && k <= |o.arrivals|
  {
    if k == |o.arrivals| then GoesOn(t, [here[0]], Nested(phases, PREREAD, here, os))
    else
      match o.arrivals[k]
      case Eof => StopsWith(t, here[0], 200)
      case Failed => StopsWith(t, here[0], 200)
      case NotReady(armed) =>
        if armed then GoesOn(t, [here[0]], Nested(phases, PREREAD, here, os)) else StopsWith(t, here[0], 500)
      case Got(n, reply) =>
        if reply != Again then Follows(t, phases, PREREAD, here, reply, os)
        else Received(o.arrivals, k + 1) >= o.room ==> StopsWith(t, here[0], 400)
  }

  /**
   A turn of the preread phase that has come to read `k`: the end of the stream and a read error stop with 200, a
   read event that cannot be armed with 500, a buffer that is then full with 400; if there is nothing to read the
   same handler has the next turn; and a reply other than "again" decides as in any phase.
   */
  lemma PrereadDecides(phases: seq<seq<Handler>>, here: seq<Handler>, os: seq<Observation>, k: nat)
    requires |phases| == LOG && here != [] && os != [] && Looking(os[0], k)
    ensures DecidedAt(Nested(phases, PREREAD, here, os), phases, here, os[0], k, os[1..])
  {
    var o, t := os[0], Nested(phases, PREREAD, here, os);
    LoopLooks(o, k);
    if k == |o.arrivals| {
      TurnFollows(phases, PREREAD, here, os, Again);
    } else {
      assert o.arrivals[k..][0] == o.arrivals[k];
      ReadDecides(phases, here, os, k, o.arrivals[k..]);
    }
  }

  lemma ReadDecides(phases: seq<seq<Handler>>, here: seq<Handler>, os: seq<Observation>, k: nat, rest: seq<Read>)
    requires |phases| == LOG && here != [] && os != [] && Looking(os[0], k) && k < |os[0].arrivals| && rest == os[0].arrivals[k..]
    requires VerdictOf(true, os[0]) == PrereadVerdict(Again, os[0].room - Received(os[0].arrivals, k), rest)
    ensures DecidedAt(Nested(phases, PREREAD, here, os), phases, here, os[0], k, os[1..])
  {
    var o := os[0];
    assert rest[0] == o.arrivals[k];
    match o.arrivals[k]
    case Eof => TurnFollows(phases, PREREAD, here, os, Status(200));
    case Failed => TurnFollows(phases, PREREAD, here, os, Status(200));
    case NotReady(armed) => TurnFollows(phases, PREREAD, here, os, if armed then Again else Error);
    case Got(n, reply) =>
      if reply != Again {
        TurnFollows(phases, PREREAD, here, os, reply);
      } else if Received(o.arrivals, k + 1) >= o.room {
        TurnFollows(phases, PREREAD, here, os, Status(400));
      }
  }

  /** The first read that decides. */
  ghost predicate Decides(o: Observation, k: nat)
    requires k <= |o.arrivals|
  {
    k < |o.arrivals| && o.arrivals[k].Got? && o.arrivals[k].reply == Again ==> Received(o.arrivals, k + 1) >= o.room
  }

  /** Whenever the handler asks for more data and there is room, some read decides, or there is nothing left to read. */
  lemma {:induction false} SomeReadDecides(o: Observation, from: nat) returns (k: nat)
    requires Looking(o, from)
    ensures from <= k <= |o.arrivals| && Looking(o, k) && Decides(o, k)
    decreases |o.arrivals| - from
  {
    if Decides(o, from) {
      k := from;
    } else {
      k := SomeReadDecides(o, from + 1);
    }
  }

  /** The other turns: on the timeout 200, with a full buffer 400, and a first reply other than "again" decides. */
  lemma PrereadAtOnce(phases: seq<seq<Handler>>, here: seq<Handler>, os: seq<Observation>)
    requires |phases| == LOG && here != [] && os != [] && !Looking(os[0], 0)
    ensures var o, t := os[0], Nested(phases, PREREAD, here, os);
            if o.timedout then StopsWith(t, here[0], 200)
            else if o.timerSet || o.reply == Again then StopsWith(t, here[0], 400)
            else Follows(t, phases, PREREAD, here, o.reply, os[1..])
  {
    var o := os[0];
    if o.timedout {
      TurnFollows(phases, PREREAD, here, os, Status(200));
    } else if o.timerSet || o.reply == Again {
      TurnFollows(phases, PREREAD, here, os, Status(400));
    } else {
      TurnFollows(phases, PREREAD, here, os, o.reply);
    }
  }
}
