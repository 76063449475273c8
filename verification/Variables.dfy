/**
 The per-session cache of indexed variables. The handlers behind it are
 arbitrary: each call may give another answer, find nothing, or fail.
 */
module Variables {
  import opened Bytes

  /** ngx_variable_value_t */
  datatype Entry = Entry(valid: bool, notFound: bool, noCacheable: bool, data: seq<byte>)

  /** A handler's answer; one that fails may have cleared `no_cacheable` before it did. */
  datatype Outcome = Found(data: seq<byte>) | Missing | Failure(cleared: bool)

  /** The entry after its handler has answered. `flag` is NGX_NSOC_VAR_NOCACHEABLE. */
  function Answered(e: Entry, o: Outcome, flag: bool): Entry {
    match o
    case Found(data) => Entry(true, false, flag, data)
    case Missing => e.(notFound := true, noCacheable := e.noCacheable || flag)
    case Failure(cleared) => e.(valid := false, notFound := true, noCacheable := e.noCacheable && !cleared)
  }

  predicate Cached(e: Entry) {
    e.valid || e.notFound
  }

  /** What a script copies for the variable: nothing unless it is there and found. */
  function Text(vars: seq<Entry>, i: nat): seq<byte> {
    if i < |vars| && vars[i].valid && !vars[i].notFound then vars[i].data else []
  }

  /** Reading the variable again would not call its handler. */
  predicate Settled(vars: seq<Entry>, depth: nat, i: nat) {
    i < |vars| ==> Cached(vars[i]) || depth == 0
  }

  function Flushed(e: Entry): Entry {
    if e.noCacheable then e.(valid := false, notFound := false) else e
  }

  /** The cache after the first `n` entries of the flush list have been flushed. */
  function FlushAll(vars: seq<Entry>, flushes: seq<nat>, n: nat): (out: seq<Entry>)
    requires n <= |flushes|
    ensures |out| == |vars|
  {
    if n == 0 then vars
    else
      var out := FlushAll(vars, flushes, n - 1);
      var i := flushes[n - 1];
      if i < |out| then out[i := Flushed(out[i])] else out
  }

  class Session {
    var variables: seq<Entry>
    const flags: seq<bool>
    var depth: nat
    /** What the handler of a variable answers, given the number of calls there have been. */
    const handler: (nat, nat) -> Outcome
    var calls: nat
    const captures: seq<int>
    const ncaptures: nat
    const capturesData: seq<byte>

    constructor (flags: seq<bool>, depth: nat, handler: (nat, nat) -> Outcome,
                 captures: seq<int>, ncaptures: nat, capturesData: seq<byte>)
      ensures this.flags == flags && this.depth == depth && this.handler == handler && calls == 0
      ensures this.captures == captures && this.ncaptures == ncaptures && this.capturesData == capturesData
      ensures |variables| == |flags| && forall i | 0 <= i < |flags| :: variables[i] == Entry(false, false, false, [])
    {
      this.flags, this.depth, this.handler, calls := flags, depth, handler, 0;
      this.captures, this.ncaptures, this.capturesData := captures, ncaptures, capturesData;
      variables := seq(|flags|, _ => Entry(false, false, false, []));
    }

    /** There is an entry per variable, and captures come in pairs that lie in the matched text or are unset. */
    ghost predicate Valid()
      reads this
    {
      && |variables| == |flags|
      && ncaptures <= |captures| && ncaptures % 2 == 0
      && forall k | 0 <= k < ncaptures && k % 2 == 0 :: CaptureOk(k)
    }

    ghost predicate CaptureOk(k: nat)
      requires k < ncaptures <= |captures| && ncaptures % 2 == 0 && k % 2 == 0
    {
      || 0 <= captures[k] <= captures[k + 1] <= |capturesData|
      || captures[k] == captures[k + 1] == -1
    }

    /** ngx_nsoc_get_indexed_variable */
    method GetIndexedVariable(index: nat) returns (v: Option<Entry>)
      requires Valid()
      modifies this`variables, this`calls, this`depth
      ensures Valid() && depth == old(depth)
      ensures (if v.Some? && !v.value.notFound then v.value.data else []) == Text(variables, index)
      ensures if Settled(old(variables), depth, index)
              then variables == old(variables) && calls == old(calls)
              else calls == old(calls) + 1
                   && variables == old(variables)[index := Answered(old(variables)[index], handler(index, old(calls)), flags[index])]
      ensures Settled(variables, depth, index)
    {
      if |variables| <= index {
        return None;
      }
      if variables[index].notFound || variables[index].valid {
        return Some(variables[index]);
      }
      if depth == 0 {
        return None;
      }
      depth := depth - 1;
      var outcome := handler(index, calls);
      calls := calls + 1;
      depth := depth + 1;
      match outcome
      case Found(data) =>
        variables := variables[index := Entry(true, false, flags[index], data)];
        return Some(variables[index]);
      case Missing =>
        var e := variables[index];
        e := e.(notFound := true);
        if flags[index] {
          e := e.(noCacheable := true);
        }
        variables := variables[index := e];
        return Some(e);
      case Failure(cleared) =>
        var e := variables[index];
        if cleared {
          e := e.(noCacheable := false);
        }
        variables := variables[index := e.(valid := false, notFound := true)];
        return None;
    }

    /** ngx_nsoc_get_flushed_variable */
    method GetFlushedVariable(index: nat) returns (v: Option<Entry>)
      requires Valid() && index < |variables|
      modifies this`variables, this`calls, this`depth
      ensures Valid() && depth == old(depth)
      ensures (if v.Some? && !v.value.notFound then v.value.data else []) == Text(variables, index)
      ensures var e := old(variables)[index];
              if Cached(e) && !e.noCacheable then variables == old(variables) && calls == old(calls)
              else if depth == 0 then variables == old(variables)[index := Flushed(e)] && calls == old(calls)
              else calls == old(calls) + 1
                   && variables == old(variables)[index := Answered(Flushed(e), handler(index, old(calls)), flags[index])]
    {
      var e := variables[index];
      if e.valid || e.notFound {
        if !e.noCacheable {
          return Some(e);
        }
        variables := variables[index := e.(valid := false, notFound := false)];
      }
      v := GetIndexedVariable(index);
    }

    /** ngx_nsoc_script_flush_complex_value: the list ends with -1. */
    method Flush(flushes: seq<int>, ghost list: seq<nat>)
      requires Valid()
      requires |flushes| == |list| + 1 && flushes[|list|] == -1
      requires forall k | 0 <= k < |list| :: flushes[k] == list[k] < |variables|
      modifies this`variables
      ensures Valid()
      ensures variables == FlushAll(old(variables), list, |list|)
    {
      var k := 0;
      while flushes[k] != -1
        invariant 0 <= k <= |list|
        invariant variables == FlushAll(old(variables), list, k)
        decreases |list| - k
      {
        var i := flushes[k];
        if variables[i].noCacheable {
          variables := variables[i := variables[i].(valid := false, notFound := false)];
        }
        k := k + 1;
      }
    }
  }

  // ----- What caching means

  /** Flushing touches exactly the listed entries that are marked no-cacheable. */
  lemma {:induction false} FlushEffect(vars: seq<Entry>, flushes: seq<nat>, n: nat, i: nat)
    requires n <= |flushes| && i < |vars|
    ensures FlushAll(vars, flushes, n)[i] == if i in flushes[..n] then Flushed(vars[i]) else vars[i]
  {
    if n > 0 {
      FlushEffect(vars, flushes, n - 1, i);
      assert flushes[..n] == flushes[..n - 1] + [flushes[n - 1]];
    }
  }

  /**
   An entry that was asked for stays cached over a flush exactly when it carries no mark afterwards: a
   found or missing variable unless it is no-cacheable, but after a failure every variable that was not
   marked before (in particular one asked for the first time) or whose handler took the mark off before
   it failed.
   */
  lemma FailureSticks(e: Entry, o: Outcome, flag: bool)
    requires !Cached(e)
    ensures Cached(Flushed(Answered(e, o, flag))) <==>
            match o
            case Found(_) => !flag
            case Missing => !flag && !e.noCacheable
            case Failure(cleared) => !e.noCacheable || cleared
  {
  }

  // ----- Which handlers an evaluation calls

  /** The cache, and how many handler calls there have been. */
  datatype Cache = Cache(vars: seq<Entry>, calls: nat)

  /** The variables of `list` whose handlers have to be asked, in the order in which they first come up. */
  function Askers(vars: seq<Entry>, depth: nat, list: seq<nat>): (asked: seq<nat>) {
    if list == [] then []
    else
      var asked, i := Askers(vars, depth, list[..|list| - 1]), list[|list| - 1];
      if Settled(vars, depth, i) || i in asked then asked else asked + [i]
  }

  ghost predicate Once(xs: seq<nat>) {
    forall i, j | 0 <= i < j < |xs| :: xs[i] != xs[j]
  }

  /** They are exactly the listed variables without a cached value, each of them once; none if the depth is used up. */
  lemma {:induction false} AskersAre(vars: seq<Entry>, depth: nat, list: seq<nat>)
    ensures Once(Askers(vars, depth, list))
    ensures forall i :: i in Askers(vars, depth, list) <==> i in list && i < |vars| && !Cached(vars[i]) && depth > 0
  {
    if list != [] {
      AskersAre(vars, depth, list[..|list| - 1]);
      assert list == list[..|list| - 1] + [list[|list| - 1]];
    }
  }

  /**
   From `before` to `after` exactly the handlers of the variables of `list` that needed it were called,
   once each and in order, and their entries hold what they answered. Nothing else has changed.
   */
  ghost predicate Answering(before: Cache, after: Cache, depth: nat, handler: (nat, nat) -> Outcome, flags: seq<bool>, list: seq<nat>)
    requires |flags| == |before.vars|
  {
    var asked := Askers(before.vars, depth, list);
    && |after.vars| == |before.vars|
    && after.calls == before.calls + |asked|
    && (forall j: nat | j < |asked| :: HoldsAnswer(before, after, handler, flags, asked[j], before.calls + j))
    && (forall i: nat | i < |before.vars| && i !in asked :: after.vars[i] == before.vars[i])
  }

  /** The entry `i` holds what the call number `k` answered. */
  ghost predicate HoldsAnswer(before: Cache, after: Cache, handler: (nat, nat) -> Outcome, flags: seq<bool>, i: nat, k: nat)
    requires |flags| == |before.vars|
  {
    i < |before.vars| && i < |after.vars| && after.vars[i] == Answered(before.vars[i], handler(i, k), flags[i])
  }

  /** One variable is looked up. */
  ghost predicate Looked(before: Cache, after: Cache, depth: nat, handler: (nat, nat) -> Outcome, flags: seq<bool>, i: nat)
    requires |flags| == |before.vars|
  {
    if Settled(before.vars, depth, i) then after == before
    else after == Cache(before.vars[i := Answered(before.vars[i], handler(i, before.calls), flags[i])], before.calls + 1)
  }

  lemma AnsweringSettles(before: Cache, after: Cache, depth: nat, handler: (nat, nat) -> Outcome, flags: seq<bool>, list: seq<nat>, i: nat)
    requires |flags| == |before.vars| && Answering(before, after, depth, handler, flags, list) && i in list
    ensures Settled(after.vars, depth, i)
  {
    AskersAre(before.vars, depth, list);
    var asked := Askers(before.vars, depth, list);
    if i in asked {
      var j: nat :| j < |asked| && asked[j] == i;
      assert HoldsAnswer(before, after, handler, flags, asked[j], before.calls + j);
    }
  }

  /** Looking up one more variable. */
  lemma AnsweringMore(before: Cache, mid: Cache, after: Cache, depth: nat, handler: (nat, nat) -> Outcome, flags: seq<bool>,
                      list: seq<nat>, i: nat)
    requires |flags| == |before.vars| == |mid.vars|
    requires Answering(before, mid, depth, handler, flags, list) && Looked(mid, after, depth, handler, flags, i)
    ensures Answering(before, after, depth, handler, flags, list + [i])
  {
    AskersAre(before.vars, depth, list);
    var asked, more := Askers(before.vars, depth, list), Askers(before.vars, depth, list + [i]);
    assert (list + [i])[..|list|] == list;
    if i in asked {
      var j: nat :| j < |asked| && asked[j] == i;
      assert HoldsAnswer(before, mid, handler, flags, asked[j], before.calls + j);
    } else if !Settled(before.vars, depth, i) {
      forall j: nat | j < |more|
        ensures HoldsAnswer(before, after, handler, flags, more[j], before.calls + j)
      {
        assert j < |asked| ==> HoldsAnswer(before, mid, handler, flags, asked[j], before.calls + j);
      }
    }
  }
}
