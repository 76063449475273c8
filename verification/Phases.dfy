/**
 The phase engine: handlers registered per phase are flattened, at configuration time, into one jump
 table that `run_phases` walks with an index kept in the session.
 */
module Phases {

  type Handler = nat

  // Indexes of phases; the log phase comes after and is not part of the engine.
  const PREREAD: nat := 4
  const CONTENT: nat := 5
  const LOG: nat := 6

  /** What a handler returns. */
  datatype Code = Ok | Declined | Again | Done | Error | Status(status: nat)

  const STATUS_OK: nat := 200
  const BAD_REQUEST: nat := 400
  const INTERNAL_SERVER_ERROR: nat := 500

  /** What a turn of the preread loop finds on the connection. */
  datatype Read = Eof | NotReady(armed: bool) | Failed | Got(n: nat, reply: Code)

  /**
   What one call of a checker meets: the handler's reply, and, in the preread phase, the timer, the
   room left in the buffer and what each read brings. When `arrivals` runs out, nothing is ready.
   */
  datatype Observation = Observation(reply: Code, timedout: bool, timerSet: bool, room: nat, arrivals: seq<Read>)

  datatype Checker = NoChecker | GenericPhase | PrereadPhase | ContentPhase

  datatype Entry = Entry(checker: Checker, handler: Handler, next: nat)

  /** What a checker makes of it. */
  datatype Verdict = NextPhase | NextHandler | Suspend | Finalize(status: nat)

  function OfCode(c: Code): Verdict {
    match c
    case Ok => NextPhase
    case Declined => NextHandler
    case Again => Suspend
    case Done => Suspend
    case Error => Finalize(INTERNAL_SERVER_ERROR)
    case Status(s) => Finalize(s)
  }

  /** The preread loop on a reply: while it is "again", look for more data. */
  function PrereadVerdict(rc: Code, room: nat, arrivals: seq<Read>): Verdict
    decreases |arrivals|
  {
    if !rc.Again? then OfCode(rc)
    else if room == 0 then Finalize(BAD_REQUEST)
    else if arrivals == [] then Suspend
    else
      match arrivals[0]
      case Eof => Finalize(STATUS_OK)
      case NotReady(armed) => if armed then Suspend else Finalize(INTERNAL_SERVER_ERROR)
      case Failed => Finalize(STATUS_OK)
      case Got(n, reply) => PrereadVerdict(reply, if n <= room then room - n else 0, arrivals[1..])
  }

  function FirstReply(o: Observation): Code {
    if o.timedout then Status(STATUS_OK) else if o.timerSet then Again else o.reply
  }

  function VerdictOf(preread: bool, o: Observation): Verdict {
    if preread then PrereadVerdict(FirstReply(o), o.room, o.arrivals) else OfCode(o.reply)
  }

  /** On the timeout of the preread phase the session ends with status 200, whatever the handler would say or has arrived. */
  lemma TimeoutEnds(o: Observation)
    requires o.timedout
    ensures VerdictOf(true, o) == Finalize(STATUS_OK)
  {
  }

  /** ngx_nsoc_core_generic_phase and ngx_nsoc_core_preread_phase, up to the move of the index. */
  method Check(checker: Checker, o: Observation) returns (v: Verdict)
    requires checker.GenericPhase? || checker.PrereadPhase?
    ensures v == VerdictOf(checker.PrereadPhase?, o)
  {
    if checker.GenericPhase? {
      return OfCode(o.reply);
    }
    var rc, room, i := FirstReply(o), o.room, 0;
    while rc.Again?
      invariant 0 <= i <= |o.arrivals|
      invariant PrereadVerdict(rc, room, o.arrivals[i..]) == VerdictOf(true, o)
      decreases |o.arrivals| - i
    {
      if room == 0 {
        rc := Status(BAD_REQUEST);
        break;
      }
      if i == |o.arrivals| {
        return Suspend;
      }
      var read := o.arrivals[i];
      assert o.arrivals[i..][1..] == o.arrivals[i + 1..];
      match read {
        case Eof => rc := Status(STATUS_OK); break;
        case NotReady(armed) =>
          if armed {
            return Suspend;
          }
          rc := Error;
          break;
        case Failed => rc := Status(STATUS_OK); break;
        case Got(n, reply) =>
          room := if n <= room then room - n else 0;
          rc := reply;
      }
      i := i + 1;
    }
    return OfCode(rc);
  }

  // The table.

  function CheckerOf(phase: nat): Checker {
    if phase == PREREAD then PrereadPhase else GenericPhase
  }

  function Reversed(hs: seq<Handler>): (r: seq<Handler>)
    ensures |r| == |hs|
  {
    if hs == [] then [] else [hs[|hs| - 1]] + Reversed(hs[..|hs| - 1])
  }

  /** The entries of one phase: the handlers in the order they are tried, all jumping to `next`. */
  function Block(hs: seq<Handler>, checker: Checker, next: nat): (b: seq<Entry>)
    ensures |b| == |hs|
  {
    if hs == [] then [] else [Entry(checker, hs[0], next)] + Block(hs[1..], checker, next)
  }

  lemma {:induction false} BlockAt(hs: seq<Handler>, checker: Checker, next: nat, k: nat)
    requires k < |hs|
    ensures Block(hs, checker, next)[k] == Entry(checker, hs[k], next)
  {
    if k > 0 {
      BlockAt(hs[1..], checker, next, k - 1);
    }
  }

  const ContentEntry := Entry(ContentPhase, 0, 0)

  /** How many handlers the phases from `i` up to content have. */
  function HandlersFrom(phases: seq<seq<Handler>>, i: nat): nat
    requires |phases| == LOG && i <= CONTENT
    decreases CONTENT - i
  {
    if i == CONTENT then 0 else |phases[i]| + HandlersFrom(phases, i + 1)
  }

  /** The table from phase `i` on, when the first entry of that phase is at `n`. */
  function Flat(phases: seq<seq<Handler>>, i: nat, n: nat): (t: seq<Entry>)
    requires |phases| == LOG && i <= CONTENT
    ensures |t| == HandlersFrom(phases, i) + 1
    decreases CONTENT - i
  {
    if i == CONTENT then [ContentEntry]
    else
      var next := n + |phases[i]|;
      Block(Reversed(phases[i]), CheckerOf(i), next) + Flat(phases, i + 1, next)
  }

  // What the phases mean, with no table: the last registered handler of a phase is tried first.

  datatype End = Waiting | Content | Stopped(status: nat)

  /** A handler's turn and what its checker made of it. */
  datatype Turn = Turn(handler: Handler, verdict: Verdict)

  /** The turns in order, and how it ended. */
  datatype Trace = Trace(turns: seq<Turn>, end: End)

  function Then(t: Turn, rest: Trace): Trace {
    rest.(turns := [t] + rest.turns)
  }

  /** Phase `i` with the handlers `here` of it still to try. */
  function Nested(phases: seq<seq<Handler>>, i: nat, here: seq<Handler>, os: seq<Observation>): (t: Trace)
    requires |phases| == LOG && i <= CONTENT
    decreases |os|, CONTENT - i, |here|
  {
    if i == CONTENT then Trace([], Content)
    else if here == [] then Nested(phases, i + 1, Reversed(phases[i + 1]), os)
    else if os == [] then Trace([], Waiting)
    else
      var v := VerdictOf(i == PREREAD, os[0]);
      match v
      case NextPhase => Then(Turn(here[0], v), Nested(phases, i, [], os[1..]))
      case NextHandler => Then(Turn(here[0], v), Nested(phases, i, here[1..], os[1..]))
      case Suspend => Then(Turn(here[0], v), Nested(phases, i, here, os[1..]))
      case Finalize(s) => Trace([Turn(here[0], v)], Stopped(s))
  }

  // The table machine.

  ghost predicate TableOk(t: seq<Entry>) {
    forall k :: 0 <= k < |t| ==> EntryOk(t, k)
  }

  ghost predicate EntryOk(t: seq<Entry>, k: nat)
    requires k < |t|
  {
    && !t[k].checker.NoChecker?
    && (t[k].checker.ContentPhase? || (k + 1 < |t| && k < t[k].next < |t|))
  }

  ghost function FlatRun(t: seq<Entry>, pos: nat, os: seq<Observation>): (r: Trace)
    requires TableOk(t) && pos < |t|
    decreases |os|
  {
    var e := t[pos];
    assert EntryOk(t, pos);
    if e.checker.ContentPhase? then Trace([], Content)
    else if os == [] then Trace([], Waiting)
    else
      var v := VerdictOf(e.checker.PrereadPhase?, os[0]);
      match v
      case NextPhase => Then(Turn(e.handler, v), FlatRun(t, e.next, os[1..]))
      case NextHandler => Then(Turn(e.handler, v), FlatRun(t, pos + 1, os[1..]))
      case Suspend => Then(Turn(e.handler, v), FlatRun(t, pos, os[1..]))
      case Finalize(s) => Trace([Turn(e.handler, v)], Stopped(s))
  }

  /** At `pos` the table continues with the handlers `here` of phase `i`, then the later phases. */
  ghost predicate Continues(t: seq<Entry>, phases: seq<seq<Handler>>, i: nat, here: seq<Handler>, pos: nat)
    requires |phases| == LOG && i <= CONTENT
    decreases CONTENT - i, |here|
  {
    if i == CONTENT then pos + 1 == |t| && t[pos] == ContentEntry
    else if here == [] then Continues(t, phases, i + 1, Reversed(phases[i + 1]), pos)
    else
      && pos < |t| && t[pos] == Entry(CheckerOf(i), here[0], pos + |here|)
      && Continues(t, phases, i, here[1..], pos + 1)
  }

  lemma {:induction false} NextPhaseAt(t: seq<Entry>, phases: seq<seq<Handler>>, i: nat, here: seq<Handler>, pos: nat)
    requires |phases| == LOG && i < CONTENT && Continues(t, phases, i, here, pos)
    ensures Continues(t, phases, i, [], pos + |here|)
    decreases |here|
  {
    if here != [] {
      NextPhaseAt(t, phases, i, here[1..], pos + 1);
    }
  }

  lemma {:induction false} Inside(t: seq<Entry>, phases: seq<seq<Handler>>, i: nat, here: seq<Handler>, pos: nat)
    requires |phases| == LOG && i <= CONTENT && Continues(t, phases, i, here, pos)
    ensures pos < |t|
    decreases CONTENT - i, |here|
  {
    if i < CONTENT && here == [] {
      Inside(t, phases, i + 1, Reversed(phases[i + 1]), pos);
    }
  }

  lemma ConsAt(t: seq<Entry>, pos: nat, e: Entry, b: seq<Entry>, f: seq<Entry>)
    requires pos <= |t| && t[pos..] == ([e] + b) + f
    ensures pos < |t| && t[pos] == e && t[pos + 1..] == b + f
  {
    assert t[pos] == t[pos..][0];
    assert t[pos + 1..] == t[pos..][1..] == b + f;
  }

  /** The flattened phases continue as they should. */
  lemma {:induction false} FlatContinues(t: seq<Entry>, phases: seq<seq<Handler>>, i: nat, here: seq<Handler>, pos: nat)
    requires |phases| == LOG && i < CONTENT && pos <= |t|
    requires t[pos..] == Block(here, CheckerOf(i), pos + |here|) + Flat(phases, i + 1, pos + |here|)
    ensures Continues(t, phases, i, here, pos)
    decreases CONTENT - i, |here|
  {
    var f := Flat(phases, i + 1, pos + |here|);
    if here != [] {
      var b := Block(here[1..], CheckerOf(i), pos + |here|);
      ConsAt(t, pos, Entry(CheckerOf(i), here[0], pos + |here|), b, f);
      FlatContinues(t, phases, i, here[1..], pos + 1);
    } else if i + 1 < CONTENT {
      assert [] + f == f;
      FlatContinues(t, phases, i + 1, Reversed(phases[i + 1]), pos);
    } else {
      assert t[pos] == t[pos..][0] && |t[pos..]| == 1;
    }
  }

  /** One observation, when the runs agree wherever it may lead. */
  lemma SameStep(t: seq<Entry>, phases: seq<seq<Handler>>, i: nat, here: seq<Handler>, pos: nat, os: seq<Observation>)
    requires |phases| == LOG && i < CONTENT && TableOk(t) && here != [] && os != []
    requires pos + 1 < |t| && pos + |here| < |t| && t[pos] == Entry(CheckerOf(i), here[0], pos + |here|)
    requires FlatRun(t, pos + |here|, os[1..]) == Nested(phases, i, [], os[1..])
    requires FlatRun(t, pos + 1, os[1..]) == Nested(phases, i, here[1..], os[1..])
    requires FlatRun(t, pos, os[1..]) == Nested(phases, i, here, os[1..])
    ensures FlatRun(t, pos, os) == Nested(phases, i, here, os)
  {
    assert VerdictOf(t[pos].checker.PrereadPhase?, os[0]) == VerdictOf(i == PREREAD, os[0]);
  }

  /** The jump table visits the same handlers as the phases, to the same end. */
  lemma {:induction false} TableMeansPhases(
    t: seq<Entry>, phases: seq<seq<Handler>>, i: nat, here: seq<Handler>, pos: nat, os: seq<Observation>)
    requires |phases| == LOG && i <= CONTENT && TableOk(t)
    requires Continues(t, phases, i, here, pos) && pos < |t|
    ensures FlatRun(t, pos, os) == Nested(phases, i, here, os)
    decreases |os|, CONTENT - i, |here|
  {
    if i == CONTENT {
    } else if here == [] {
      TableMeansPhases(t, phases, i + 1, Reversed(phases[i + 1]), pos, os);
    } else {
      if os != [] {
        NextPhaseAt(t, phases, i, here, pos);
        Inside(t, phases, i, [], pos + |here|);
        Inside(t, phases, i, here[1..], pos + 1);
        TableMeansPhases(t, phases, i, [], pos + |here|, os[1..]);
        TableMeansPhases(t, phases, i, here[1..], pos + 1, os[1..]);
        TableMeansPhases(t, phases, i, here, pos, os[1..]);
        SameStep(t, phases, i, here, pos, os);
      }
    }
  }

  /** Every jump of the table goes forward and stays inside it. */
  ghost predicate JumpsOk(t: seq<Entry>, n: nat) {
    forall k :: 0 <= k < |t| ==> JumpOk(t, n, k)
  }

  ghost predicate JumpOk(t: seq<Entry>, n: nat, k: nat)
    requires k < |t|
  {
    && !t[k].checker.NoChecker?
    && (t[k].checker.ContentPhase? || (k + 1 < |t| && n + k < t[k].next < n + |t|))
  }

  lemma {:induction false} FlatJumps(phases: seq<seq<Handler>>, i: nat, n: nat)
    requires |phases| == LOG && i <= CONTENT
    ensures JumpsOk(Flat(phases, i, n), n)
    decreases CONTENT - i
  {
    if i < CONTENT {
      var next := n + |phases[i]|;
      var b, f := Block(Reversed(phases[i]), CheckerOf(i), next), Flat(phases, i + 1, next);
      FlatJumps(phases, i + 1, next);
      var t := Flat(phases, i, n);
      forall k | 0 <= k < |t|
        ensures JumpOk(t, n, k)
      {
        if k < |b| {
          BlockAt(Reversed(phases[i]), CheckerOf(i), next, k);
        } else {
          assert t[k] == f[k - |b|];
          assert JumpOk(f, next, k - |b|);
        }
      }
    }
  }

  /** The table from phase `i` on, placed at the start, and the phases from `i` on. */
  lemma TableOfPhases(phases: seq<seq<Handler>>, i: nat, n: nat, os: seq<Observation>)
    requires |phases| == LOG && i < CONTENT && n == 0
    ensures TableOk(Flat(phases, i, n))
    ensures FlatRun(Flat(phases, i, n), n, os) == Nested(phases, i, Reversed(phases[i]), os)
  {
    var t := Flat(phases, i, n);
    FlatJumps(phases, i, n);
    forall k | 0 <= k < |t|
      ensures EntryOk(t, k)
    {
      assert JumpOk(t, n, k);
    }
    assert t[n..] == t;
    FlatContinues(t, phases, i, Reversed(phases[i]), n);
    TableMeansPhases(t, phases, i, Reversed(phases[i]), n, os);
  }

  // Building the table.

  /** How many handlers the phases before `i` have. */
  function HandlersBefore(phases: seq<seq<Handler>>, i: nat): nat
    requires i <= |phases|
  {
    if i == 0 then 0 else HandlersBefore(phases, i - 1) + |phases[i - 1]|
  }

  lemma {:induction false} FlatFits(phases: seq<seq<Handler>>, i: nat, c: nat)
    requires |phases| == LOG && i <= c == CONTENT
    ensures HandlersBefore(phases, i) + HandlersFrom(phases, i) == HandlersBefore(phases, c)
    decreases c - i
  {
    if i < c {
      FlatFits(phases, i + 1, c);
    }
  }

  /** The table to build fits. */
  lemma TableFits(phases: seq<seq<Handler>>, first: nat, c: nat, t: seq<Entry>)
    requires |phases| == LOG && first == 0 && c == CONTENT && t == Flat(phases, first, 0)
    ensures |t| <= 1 + HandlersBefore(phases, |phases|)
  {
    FlatFits(phases, first, c);
    BeforeGrows(phases, c);
  }

  lemma BeforeGrows(phases: seq<seq<Handler>>, c: nat)
    requires c < |phases|
    ensures HandlersBefore(phases, c) <= HandlersBefore(phases, c + 1)
  {
  }

  /** It holds the phases in order. */
  lemma TableInOrder(phases: seq<seq<Handler>>, first: nat, t: seq<Entry>)
    requires |phases| == LOG && first == 0 && t == Flat(phases, first, 0)
    ensures Continues(t, phases, first, Reversed(phases[first]), 0)
  {
    assert t[0..] == t;
    FlatContinues(t, phases, first, Reversed(phases[first]), 0);
  }

  /** The first pass: an entry per handler, one for content, and those of content, which stay unused. */
  method CountEntries(phases: seq<seq<Handler>>) returns (n: nat)
    requires |phases| == LOG
    ensures n == 1 + HandlersBefore(phases, |phases|)
  {
    n := 1;
    var i := 0;
    while i < |phases|
      invariant 0 <= i <= |phases| && n == 1 + HandlersBefore(phases, i)
    {
      n := n + |phases[i]|;
      i := i + 1;
    }
  }

  /** The cells before `p` are those of the table `t`; the others are still empty. */
  ghost predicate Upto(ph: array<Entry>, p: nat, t: seq<Entry>)
    reads ph
  {
    && p <= |t| < ph.Length
    && (forall k :: 0 <= k < p ==> ph[k] == t[k])
    && (forall k :: p <= k < ph.Length ==> ph[k].checker.NoChecker?)
  }

  /** The entries of phase `i`, from the last registered handler to the first. */
  method PlacePhase(ph: array<Entry>, p: nat, phases: seq<seq<Handler>>, i: nat, ghost t: seq<Entry>) returns (n: nat)
    requires |phases| == LOG && i < CONTENT
    requires Upto(ph, p, t) && Continues(t, phases, i, Reversed(phases[i]), p)
    modifies ph
    ensures Upto(ph, n, t) && Continues(t, phases, i, [], n)
  {
    var hs := phases[i];
    var checker, next := CheckerOf(i), p + |hs|;
    var j: nat := |hs|;
    n := p;
    assert hs[..j] == hs;
    while j > 0
      invariant n + j == next && j <= |hs|
      invariant Upto(ph, n, t) && Continues(t, phases, i, Reversed(hs[..j]), n)
    {
      assert hs[..j][..j - 1] == hs[..j - 1];
      j := j - 1;
      ph[n] := Entry(checker, hs[j], next);
      n := n + 1;
    }
  }

  /** The second pass: the phases in order, then the entry of the content phase. */
  method PlaceAll(ph: array<Entry>, phases: seq<seq<Handler>>, first: nat, ghost t: seq<Entry>)
    requires |phases| == LOG && first < CONTENT
    requires Upto(ph, 0, t) && Continues(t, phases, first, Reversed(phases[first]), 0)
    modifies ph
    ensures Upto(ph, |t|, t)
  {
    var i, p: nat := first, 0;
    while i < CONTENT
      invariant first <= i <= CONTENT && Upto(ph, p, t) && Continues(t, phases, i, Reversed(phases[i]), p)
    {
      p := PlacePhase(ph, p, phases, i, t);
      i := i + 1;
    }
    ph[p] := ContentEntry;
  }

  /** ngx_nsoc_init_phase_handlers, `first` being the first phase. */
  method InitPhaseHandlers(phases: seq<seq<Handler>>, first: nat) returns (ph: array<Entry>, ghost t: seq<Entry>)
    requires |phases| == LOG && first == 0
    ensures fresh(ph)
    ensures t == Flat(phases, first, 0) && TableOk(t)
    ensures Upto(ph, |t|, t)
  {
    var n := CountEntries(phases);
    ph := new Entry[n + 1](_ => Entry(NoChecker, 0, 0));
    t := Flat(phases, first, 0);
    ghost var c := CONTENT;
    TableFits(phases, first, c, t);
    TableInOrder(phases, first, t);
    TableOfPhases(phases, first, 0, []);
    PlaceAll(ph, phases, first, t);
  }

  // Running it.

  /** The turns so far in front of what a run still brings. */
  ghost function Joined(log: seq<Turn>, t: Trace): Trace {
    Trace(log + t.turns, t.end)
  }

  /** A session in the engine: where it stands, and whether it has been finalized or reached content. */
  class Session {
    const handlers: array<Entry>
    ghost const table: seq<Entry>
    var phaseHandler: nat
    var end: End
    ghost var log: seq<Turn>

    ghost predicate Valid()
      reads this, handlers
    {
      && TableOk(table) && Upto(handlers, |table|, table)
      && phaseHandler < |table|
      && (end.Content? ==> table[phaseHandler].checker.ContentPhase?)
    }

    constructor (handlers: array<Entry>, ghost table: seq<Entry>)
      requires TableOk(table) && Upto(handlers, |table|, table) && table != []
      ensures Valid() && phaseHandler == 0 && end == Waiting && log == []
      ensures this.handlers == handlers && this.table == table
    {
      this.handlers, this.table := handlers, table;
      phaseHandler, end, log := 0, Waiting, [];
    }

    /** What the session has done and, on the observations `os`, will do. */
    ghost function Story(os: seq<Observation>): Trace
      requires Valid()
      reads this, handlers
    {
      if end.Waiting? then Joined(log, FlatRun(table, phaseHandler, os)) else Trace(log, end)
    }

    /** One checker call, and what it does to the session; `back` returns to the event loop. */
    method CheckOne(o: Observation, ghost os: seq<Observation>) returns (back: bool)
      requires Valid() && end.Waiting? && !table[phaseHandler].checker.ContentPhase?
      modifies this
      ensures Valid() && !end.Content?
      ensures Story(os) == old(Story([o] + os))
      ensures !back ==> end.Waiting? && phaseHandler > old(phaseHandler)
      ensures back && end.Waiting? ==> phaseHandler == old(phaseHandler)
    {
      assert EntryOk(table, phaseHandler);
      var e := handlers[phaseHandler];
      var v := Check(e.checker, o);
      assert ([o] + os)[1..] == os;
      ghost var was := log;
      log := log + [Turn(e.handler, v)];
      match v {
        case NextPhase => phaseHandler := e.next; back := false;
        case NextHandler => phaseHandler := phaseHandler + 1; back := false;
        case Suspend => back := true;
        case Finalize(s) => end := Stopped(s); back := true;
      }
      ghost var t := FlatRun(table, phaseHandler, os);
      assert was + [Turn(e.handler, v)] + t.turns == was + ([Turn(e.handler, v)] + t.turns);
    }

    /** ngx_nsoc_core_run_phases: one wakeup, which looks at no more checkers than the table has. */
    method RunPhases(os: seq<Observation>) returns (used: nat)
      requires Valid() && end.Waiting?
      modifies this
      ensures Valid() && used <= |os| && used <= |table|
      ensures Story(os[used..]) == old(Story(os))
      ensures used == 0 < |os| ==> !end.Waiting?
      ensures end.Waiting? ==> !table[phaseHandler].checker.ContentPhase?
    {
      used := 0;
      assert os[0..] == os;
      while !handlers[phaseHandler].checker.ContentPhase?
        invariant Valid() && end.Waiting? && used <= |os| && used <= phaseHandler
        invariant Story(os[used..]) == old(Story(os))
        decreases |table| - phaseHandler
      {
        if used == |os| {
          return;
        }
        assert [os[used]] + os[used + 1..] == os[used..];
        var back := CheckOne(os[used], os[used + 1..]);
        used := used + 1;
        if back {
          return;
        }
      }
      end := Content;
    }

    /** Wakeups until the observations are used up or the session is over. */
    method RunAll(os: seq<Observation>)
      requires Valid() && end.Waiting?
      modifies this
      ensures Valid() && Trace(log, end) == old(Story(os))
    {
      var n := RunPhases(os);
      while n < |os| && end.Waiting?
        invariant 0 <= n <= |os| && Valid()
        invariant Story(os[n..]) == old(Story(os))
        invariant end.Waiting? ==> !table[phaseHandler].checker.ContentPhase?
        decreases |os| - n, end.Waiting?
      {
        var used := RunPhases(os[n..]);
        assert os[n..][used..] == os[n + used..];
        n := n + used;
      }
    }
  }

  /** A whole session, wakeup after wakeup, does what the phases mean. */
  method Serve(phases: seq<seq<Handler>>, first: nat, os: seq<Observation>) returns (s: Session)
    requires |phases| == LOG && first == 0
    ensures fresh(s)
    ensures Trace(s.log, s.end) == Nested(phases, first, Reversed(phases[first]), os)
  {
    var ph, t := InitPhaseHandlers(phases, first);
    s := new Session(ph, t);
    TableOfPhases(phases, first, 0, os);
    s.RunAll(os);
  }

  // When content is reached.

  ghost predicate NoStop(ts: seq<Turn>) {
    forall k :: 0 <= k < |ts| ==> !ts[k].verdict.Finalize?
  }

  function Waits(ts: seq<Turn>): nat {
    if ts == [] then 0 else (if ts[0].verdict.Suspend? then 1 else 0) + Waits(ts[1..])
  }

  lemma ThenStops(t: Turn, rest: Trace)
    requires !t.verdict.Finalize?
    ensures NoStop(Then(t, rest).turns) <==> NoStop(rest.turns)
    ensures Waits(Then(t, rest).turns) == Waits(rest.turns) + if t.verdict.Suspend? then 1 else 0
  {
    var ts := Then(t, rest).turns;
    assert ts[1..] == rest.turns;
    if NoStop(ts) {
      forall k | 0 <= k < |rest.turns|
        ensures !rest.turns[k].verdict.Finalize?
      {
        assert ts[k + 1] == rest.turns[k];
      }
    }
  }

  /**
   The run is stopped exactly when some handler's turn stops it; it waits only while observations
   are lacking, and takes at most one turn per handler besides those that suspended it.
   */
  lemma {:induction false} HowItEnds(phases: seq<seq<Handler>>, i: nat, here: seq<Handler>, os: seq<Observation>)
    requires |phases| == LOG && i <= CONTENT && (i == CONTENT ==> here == [])
    ensures var t := Nested(phases, i, here, os);
            && (t.end.Stopped? <==> !NoStop(t.turns))
            && (t.end.Waiting? ==> |t.turns| == |os|)
            && |t.turns| - Waits(t.turns) <= |here| + (if i == CONTENT then 0 else HandlersFrom(phases, i + 1))
    decreases |os|, CONTENT - i, |here|
  {
    if i == CONTENT {
    } else if here == [] {
      HowItEnds(phases, i + 1, if i + 1 == CONTENT then [] else Reversed(phases[i + 1]), os);
    } else if os != [] {
      var v := VerdictOf(i == PREREAD, os[0]);
      var t := Turn(here[0], v);
      match v {
        case NextPhase =>
          HowItEnds(phases, i, [], os[1..]);
          ThenStops(t, Nested(phases, i, [], os[1..]));
        case NextHandler =>
          HowItEnds(phases, i, here[1..], os[1..]);
          ThenStops(t, Nested(phases, i, here[1..], os[1..]));
        case Suspend =>
          HowItEnds(phases, i, here, os[1..]);
          ThenStops(t, Nested(phases, i, here, os[1..]));
        case Finalize(_) =>
          assert Nested(phases, i, here, os).turns[0] == t;
      }
    }
  }

  // What the two codes that keep a run going mean for it.

  function Handlers(ts: seq<Turn>): (hs: seq<Handler>) {
    if ts == [] then [] else [ts[0].handler] + Handlers(ts[1..])
  }

  /** All handlers from phase `i` on, in the order in which they are tried. */
  function InOrder(phases: seq<seq<Handler>>, i: nat): seq<Handler>
    requires |phases| == LOG && i <= CONTENT
    decreases CONTENT - i
  {
    if i == CONTENT then [] else Reversed(phases[i]) + InOrder(phases, i + 1)
  }

  /** The last registered handler of every phase from `i` on that has any. */
  function LastOfEach(phases: seq<seq<Handler>>, i: nat): seq<Handler>
    requires |phases| == LOG && i <= CONTENT
    decreases CONTENT - i
  {
    if i == CONTENT then []
    else (if phases[i] == [] then [] else [phases[i][|phases[i]| - 1]]) + LastOfEach(phases, i + 1)
  }

  ghost predicate Answer(os: seq<Observation>, c: Code) {
    forall k :: 0 <= k < |os| ==> os[k].reply == c && !os[k].timedout && !os[k].timerSet
  }

  lemma ThenHandlers(t: Turn, rest: Trace)
    ensures Handlers(Then(t, rest).turns) == [t.handler] + Handlers(rest.turns)
  {
    assert Then(t, rest).turns[1..] == rest.turns;
  }

  /** If every handler declines, every handler of every phase has its turn before content is reached. */
  lemma {:induction false} AllDecline(phases: seq<seq<Handler>>, i: nat, here: seq<Handler>, os: seq<Observation>)
    requires |phases| == LOG && i < CONTENT && Answer(os, Declined)
    requires |os| >= |here| + HandlersFrom(phases, i + 1)
    ensures var t := Nested(phases, i, here, os);
            t.end.Content? && Handlers(t.turns) == here + InOrder(phases, i + 1)
    decreases CONTENT - i, |here|
  {
    if here == [] {
      if i + 1 < CONTENT {
        AllDecline(phases, i + 1, Reversed(phases[i + 1]), os);
      }
    } else {
      AllDecline(phases, i, here[1..], os[1..]);
      var rest := Nested(phases, i, here[1..], os[1..]);
      assert VerdictOf(i == PREREAD, os[0]) == NextHandler;
      ThenHandlers(Turn(here[0], NextHandler), rest);
      assert here == [here[0]] + here[1..];
      assert [here[0]] + (here[1..] + InOrder(phases, i + 1)) == here + InOrder(phases, i + 1);
    }
  }

  /** If every handler accepts, the last registered handler of each phase decides for it. */
  lemma {:induction false} AllAccept(phases: seq<seq<Handler>>, i: nat, here: seq<Handler>, os: seq<Observation>)
    requires |phases| == LOG && i < CONTENT && Answer(os, Ok) && |os| >= CONTENT - i
    ensures var t := Nested(phases, i, here, os);
            t.end.Content? && Handlers(t.turns) == (if here == [] then [] else [here[0]]) + LastOfEach(phases, i + 1)
    decreases CONTENT - i, |here|
  {
    if here == [] {
      if i + 1 < CONTENT {
        AllAccept(phases, i + 1, Reversed(phases[i + 1]), os);
      }
    } else {
      var rest := Nested(phases, i, [], os[1..]);
      if i + 1 < CONTENT {
        AllAccept(phases, i + 1, Reversed(phases[i + 1]), os[1..]);
      }
      assert rest == Nested(phases, i + 1, Reversed(phases[i + 1]), os[1..]);
      assert VerdictOf(i == PREREAD, os[0]) == NextPhase;
      ThenHandlers(Turn(here[0], NextPhase), rest);
    }
  }
}
