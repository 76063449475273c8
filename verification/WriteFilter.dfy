/**
 The write filter: what a connection cannot take at once is saved, per direction, and goes first the
 next time.
 */
module WriteFilter {
  import opened Bytes

  /** A buffer of a chain; one that is not in memory carries flags only. */
  datatype Buf = Buf(bytes: seq<byte>, inMemory: bool, flush: bool, recycled: bool, sync: bool, last: bool)

  predicate Special(b: Buf) {
    (b.flush || b.last || b.sync) && !b.inMemory
  }

  /** What the filter accepts: data, or a buffer that is there for its flags. */
  predicate Sendable(b: Buf) {
    b.bytes != [] || Special(b)
  }

  function Content(chain: seq<Buf>): (bs: seq<byte>) {
    if chain == [] then [] else chain[0].bytes + Content(chain[1..])
  }

  ghost predicate AllSendable(chain: seq<Buf>) {
    forall i :: 0 <= i < |chain| ==> Sendable(chain[i])
  }

  lemma {:induction false} ContentConcat(a: seq<Buf>, b: seq<Buf>)
    ensures Content(a + b) == Content(a) + Content(b)
  {
    if a == [] {
      assert a + b == b;
    } else {
      assert (a + b)[1..] == a[1..] + b;
      ContentConcat(a[1..], b);
    }
  }

  /** The chain that is left when the connection took `n` bytes; flag buffers in front are done too. */
  function Unsent(chain: seq<Buf>, n: nat): (rest: seq<Buf>)
    requires n <= |Content(chain)|
  {
    if chain == [] then []
    else if Special(chain[0]) && chain[0].bytes == [] then Unsent(chain[1..], n)
    else if n == 0 then chain
    else if n >= |chain[0].bytes| then Unsent(chain[1..], n - |chain[0].bytes|)
    else [chain[0].(bytes := chain[0].bytes[n..])] + chain[1..]
  }

  lemma {:induction false} UnsentContent(chain: seq<Buf>, n: nat)
    requires n <= |Content(chain)|
    ensures Content(Unsent(chain, n)) == Content(chain)[n..]
  {
    if chain != [] && !(Special(chain[0]) && chain[0].bytes == []) && n > 0 {
      if n >= |chain[0].bytes| {
        UnsentContent(chain[1..], n - |chain[0].bytes|);
        assert Content(chain)[n..] == Content(chain[1..])[n - |chain[0].bytes|..];
      } else {
        assert Content(chain)[n..] == chain[0].bytes[n..] + Content(chain[1..]);
        var head := chain[0].(bytes := chain[0].bytes[n..]);
        assert ([head] + chain[1..])[1..] == chain[1..];
      }
    } else if chain != [] && Special(chain[0]) && chain[0].bytes == [] {
      UnsentContent(chain[1..], n);
    }
  }

  lemma {:induction false} UnsentSendable(chain: seq<Buf>, n: nat)
    requires n <= |Content(chain)| && AllSendable(chain)
    ensures AllSendable(Unsent(chain, n))
    ensures Unsent(chain, n) != [] ==> Content(Unsent(chain, n)) != []
  {
    if chain != [] {
      if Special(chain[0]) && chain[0].bytes == [] {
        UnsentSendable(chain[1..], n);
      } else if n >= |chain[0].bytes| {
        UnsentSendable(chain[1..], n - |chain[0].bytes|);
      }
    }
  }

  /** What the two passes over the chains find out. */
  datatype Survey = Survey(size: nat, flush: bool, sync: bool, last: bool)

  function Look(v: Survey, b: Buf): Survey {
    Survey(v.size + |b.bytes|, v.flush || b.flush || b.recycled, v.sync || b.sync, v.last || b.last)
  }

  function SurveyOf(v: Survey, chain: seq<Buf>): Survey
    decreases |chain|
  {
    if chain == [] then v else SurveyOf(Look(v, chain[0]), chain[1..])
  }

  predicate Marked(v: Survey) {
    v.flush || v.sync || v.last
  }

  /** The size is that of the bytes, and a chain without bytes is there for its marks. */
  lemma {:induction false} SurveyFinds(v: Survey, chain: seq<Buf>)
    requires AllSendable(chain)
    ensures SurveyOf(v, chain).size == v.size + |Content(chain)|
    ensures Marked(v) ==> Marked(SurveyOf(v, chain))
    ensures chain != [] && Content(chain) == [] ==> Marked(SurveyOf(v, chain))
    decreases |chain|
  {
    if chain != [] {
      assert Sendable(chain[0]);
      SurveyFinds(Look(v, chain[0]), chain[1..]);
    }
  }

  /** The chain has the last buffer. */
  ghost predicate HasLast(chain: seq<Buf>) {
    exists i :: 0 <= i < |chain| && chain[i].last
  }

  lemma {:induction false} SurveyLast(v: Survey, chain: seq<Buf>)
    ensures SurveyOf(v, chain).last <==> v.last || HasLast(chain)
    ensures chain == [] ==> SurveyOf(v, chain) == v
    decreases |chain|
  {
    if chain != [] {
      SurveyLast(Look(v, chain[0]), chain[1..]);
      if HasLast(chain) && !chain[0].last {
        var i :| 0 <= i < |chain| && chain[i].last;
        assert chain[1..][i - 1].last;
      } else if HasLast(chain[1..]) {
        var i :| 0 <= i < |chain[1..]| && chain[1..][i].last;
        assert chain[i + 1].last;
      }
    }
  }

  /** How much of the chain the connection took. */
  function Amount(taken: Option<nat>): nat {
    if taken.Some? then taken.value else 0
  }

  datatype Rc = Ok | Again | Error

  /** One direction: the saved chain and the connection it is for. */
  class Direction {
    var saved: seq<Buf>
    var failed: bool
    var buffered: bool
    var lowLevel: bool
    const shared: bool
    const needLast: bool
    ghost var submitted: seq<byte>
    /** What the connection has taken. */
    ghost var consumed: seq<byte>

    /** Bytes taken by the connection, then bytes saved: all that was submitted, in order. */
    ghost predicate Valid()
      reads this
    {
      && AllSendable(saved)
      && submitted == consumed + Content(saved)
      && (buffered <==> saved != [])
      && (saved != [] ==> Content(saved) != [])
    }

    constructor (shared: bool, needLast: bool)
      ensures Valid() && !failed && saved == [] && submitted == [] && consumed == []
      ensures this.shared == shared && this.needLast == needLast
    {
      this.shared, this.needLast := shared, needLast;
      saved, failed, buffered, lowLevel, submitted, consumed := [], false, false, false, [], [];
    }

    /** The pass over one chain: its survey, or nothing if a buffer has no business there. */
    method Scan(chain: seq<Buf>, start: Survey) returns (r: Option<Survey>)
      ensures r.Some? <==> AllSendable(chain)
      ensures r.Some? ==> r.value == SurveyOf(start, chain)
    {
      var i, v := 0, start;
      while i < |chain|
        invariant 0 <= i <= |chain|
        invariant forall j :: 0 <= j < i ==> Sendable(chain[j])
        invariant SurveyOf(v, chain[i..]) == SurveyOf(start, chain)
      {
        if |chain[i].bytes| == 0 && !Special(chain[i]) {
          return None;
        }
        assert chain[i..][1..] == chain[i + 1..];
        v := Look(v, chain[i]);
        i := i + 1;
      }
      return Some(v);
    }

    /** Both passes: over the saved chain and over the new one behind it. */
    method SurveyBoth(chain: seq<Buf>) returns (r: Option<Survey>)
      requires Valid()
      ensures r.Some? <==> AllSendable(chain)
      ensures r.Some? ==> r.value.size == |Content(saved + chain)|
      ensures r.Some? && saved + chain != [] && r.value.size == 0 ==> Marked(r.value)
      ensures r.Some? && saved + chain == [] ==> !Marked(r.value)
      ensures r.Some? ==> (r.value.last <==> HasLast(saved) || HasLast(chain))
    {
      var first := Scan(saved, Survey(0, false, false, false));
      r := Scan(chain, first.value);
      if r.Some? {
        SurveyFinds(Survey(0, false, false, false), saved);
        SurveyFinds(first.value, chain);
        SurveyLast(Survey(0, false, false, false), saved);
        SurveyLast(first.value, chain);
        ContentConcat(saved, chain);
      }
    }

    /** The connection is asked: there are bytes to send, or it holds some back, or it wants the last buffer. */
    ghost predicate Asks(chain: seq<Buf>)
      reads this
    {
      Content(saved + chain) != [] || lowLevel || (needLast && (HasLast(saved) || HasLast(chain)))
    }

    /** The send: the connection takes `n` bytes of the whole chain, or fails; `low` says it holds some back. */
    method Send(out: seq<Buf>, taken: Option<nat>, low: bool) returns (rc: Rc)
      requires AllSendable(out) && submitted == consumed + Content(out) && !failed
      requires taken.Some? ==> taken.value <= |Content(out)|
      modifies this`saved, this`failed, this`buffered, this`lowLevel, this`consumed
      ensures rc.Error? <==> taken.None? || (shared && Unsent(out, taken.value) != [])
      ensures !rc.Error? ==>
                && Valid() && !failed
                && saved == Unsent(out, taken.value)
                && consumed == old(consumed) + Content(out)[..taken.value]
                && (rc.Again? <==> saved != [] || low)
    {
      if taken.None? {
        failed := true;
        return Error;
      }
      UnsentContent(out, taken.value);
      UnsentSendable(out, taken.value);
      Rejoin(consumed, Content(out), taken.value);
      saved, lowLevel := Unsent(out, taken.value), low;
      consumed := consumed + Content(out)[..taken.value];
      if saved != [] {
        if shared {
          return Error;
        }
        buffered := true;
        return Again;
      }
      buffered := false;
      return if low then Again else Ok;
    }

    /** Nothing but marks to send: they are done. */
    method Finish(v: Survey, ghost out: seq<Buf>) returns (rc: Rc)
      requires submitted == consumed + Content(out) && Content(out) == []
      modifies this`saved, this`buffered
      ensures !rc.Again? && (rc.Ok? <==> Marked(v))
      ensures rc.Ok? ==> Valid() && saved == []
    {
      if v.last || v.flush || v.sync {
        saved, buffered := [], false;
        return Ok;
      }
      return Error;
    }

    /** ngx_nsoc_write_filter for this direction. */
    method Write(chain: seq<Buf>, taken: Option<nat>, low: bool) returns (rc: Rc)
      requires Valid()
      requires taken.Some? ==> taken.value <= |Content(saved + chain)|
      modifies this
      ensures !rc.Error? ==> Valid() && !failed
      ensures !rc.Error? ==> submitted == old(submitted) + Content(chain)
      ensures !rc.Error? ==> consumed == old(consumed) + Content(old(saved) + chain)[..Amount(taken)]
      ensures rc.Ok? ==> saved == []
      ensures rc.Again? ==> saved != [] || low
      ensures old(failed) || !AllSendable(chain) ==> rc.Error?
      ensures !old(failed) && AllSendable(chain) ==>
                if old(Asks(chain)) then taken.None? ==> rc.Error?
                else rc == if old(saved) + chain != [] then Ok else Error
      ensures !old(failed) && AllSendable(chain) && old(saved) + chain != [] && taken.Some? && !shared ==> !rc.Error?
    {
      if failed {
        return Error;
      }
      var v := SurveyBoth(chain);
      if v.None? {
        return Error;
      }
      var out := saved + chain;
      Append(consumed, saved, chain);
      submitted := submitted + Content(chain);
      if v.value.size == 0 && !lowLevel && !(v.value.last && needLast) {
        rc := Finish(v.value, out);
      } else {
        rc := Send(out, taken, low);
      }
    }
  }

  lemma Append(a: seq<byte>, b: seq<Buf>, c: seq<Buf>)
    ensures a + Content(b) + Content(c) == a + Content(b + c)
  {
    ContentConcat(b, c);
  }

  lemma Rejoin(a: seq<byte>, b: seq<byte>, n: nat)
    requires n <= |b|
    ensures a + b[..n] + b[n..] == a + b
    ensures a <= a + b[..n]
  {
    assert b == b[..n] + b[n..];
  }

  /** A call of the filter: the direction, the chain, and how much the connection would take of what is there. */
  datatype Call = Call(fromUpstream: bool, chain: seq<Buf>, taken: Option<nat>, low: bool)

  /** The bytes of all chains submitted in one direction. */
  function Submitted(calls: seq<Call>, fromUpstream: bool): seq<byte> {
    if calls == [] then []
    else
      var last := calls[|calls| - 1];
      Submitted(calls[..|calls| - 1], fromUpstream) +
      if last.fromUpstream == fromUpstream then Content(last.chain) else []
  }

  function Min(a: nat, b: nat): nat {
    if a <= b then a else b
  }

  /** How many of them the connection has taken: in each call as many as it would, if there are that many. */
  function Taken(calls: seq<Call>, fromUpstream: bool): (n: nat)
    ensures n <= |Submitted(calls, fromUpstream)|
  {
    if calls == [] then 0
    else
      var last, n := calls[|calls| - 1], Taken(calls[..|calls| - 1], fromUpstream);
      if last.fromUpstream == fromUpstream
      then n + Min(Amount(last.taken), |Submitted(calls, fromUpstream)| - n) else n
  }

  /** The direction has passed on the first `n` of the bytes `all` and saved the rest. */
  ghost predicate Queue(d: Direction, all: seq<byte>, n: nat)
    reads d
  {
    && d.Valid() && !d.failed && n <= |all|
    && d.submitted == all && d.consumed == all[..n] && Content(d.saved) == all[n..]
  }

  /** One call moves the queue on by what was submitted and what was taken. */
  lemma QueueMoves(all: seq<byte>, n: nat, saved: seq<Buf>, chain: seq<Buf>, m: nat)
    requires n <= |all| && Content(saved) == all[n..] && m <= |Content(saved + chain)|
    ensures n + m <= |all + Content(chain)|
    ensures all[..n] + Content(saved + chain)[..m] == (all + Content(chain))[..n + m]
    ensures |Content(saved + chain)| == |all + Content(chain)| - n
  {
    ContentConcat(saved, chain);
    assert all[..n] + Content(saved + chain) == all + Content(chain);
    Prefix(all[..n], Content(saved + chain), m);
  }

  lemma Prefix(a: seq<byte>, b: seq<byte>, m: nat)
    requires m <= |b|
    ensures a + b[..m] == (a + b)[..|a| + m]
  {
  }

  lemma SavedIs(all: seq<byte>, n: nat, saved: seq<byte>)
    requires n <= |all| && all == all[..n] + saved
    ensures saved == all[n..]
  {
    assert (all[..n] + saved)[n..] == saved;
  }

  /** A call that has something to send, on a connection that does not fail. */
  ghost predicate Fine(call: Call) {
    call.chain != [] && AllSendable(call.chain) && call.taken.Some?
  }

  /** Both directions of a session. */
  class Filter {
    const down: Direction
    const up: Direction

    constructor (shared: bool, needLast: bool)
      ensures fresh(down) && fresh(up) && Queues([])
    {
      var d := new Direction(shared, needLast);
      var u := new Direction(shared, needLast);
      down, up := d, u;
    }

    /** ngx_nsoc_write_filter: the direction it is for moves on, the other stays. */
    method Write(call: Call, ghost all: seq<byte>, ghost n: nat) returns (rc: Rc)
      requires down != up && Queue(if call.fromUpstream then down else up, all, n)
      modifies if call.fromUpstream then down else up
      ensures !rc.Error? ==>
                var more := all + Content(call.chain);
                Queue(if call.fromUpstream then down else up, more, n + Min(Amount(call.taken), |more| - n))
      ensures Fine(call) && !(if call.fromUpstream then down else up).shared ==> !rc.Error?
    {
      var out := if call.fromUpstream then down else up;
      var size := |Content(out.saved + call.chain)|;
      var taken := if call.taken.Some? then Some(Min(call.taken.value, size)) else None;
      QueueMoves(all, n, out.saved, call.chain, Amount(taken));
      rc := out.Write(call.chain, taken, call.low);
      if !rc.Error? {
        SavedIs(all + Content(call.chain), n + Amount(taken), Content(out.saved));
      }
    }

    /** In both directions: what the connection has taken is that much of what was submitted, the rest is saved. */
    ghost predicate Queues(calls: seq<Call>)
      reads this, down, up
    {
      && down != up
      && Queue(down, Submitted(calls, true), Taken(calls, true))
      && Queue(up, Submitted(calls, false), Taken(calls, false))
    }

    method Step(call: Call, ghost calls: seq<Call>) returns (rc: Rc)
      requires Queues(calls)
      modifies down, up
      ensures !rc.Error? ==> Queues(calls + [call])
      ensures Fine(call) && !down.shared && !up.shared ==> !rc.Error?
    {
      CallsPush(calls, call, true);
      CallsPush(calls, call, false);
      rc := Write(call, Submitted(calls, call.fromUpstream), Taken(calls, call.fromUpstream));
    }

    method Loop(calls: seq<Call>) returns (done: nat)
      requires Queues([])
      modifies down, up
      ensures done <= |calls| && (done == |calls| ==> Queues(calls))
      ensures (forall i :: 0 <= i < |calls| ==> Fine(calls[i])) && !down.shared && !up.shared ==> done == |calls|
    {
      done := 0;
      assert calls[..0] == [];
      while done < |calls|
        invariant 0 <= done <= |calls| && Queues(calls[..done])
      {
        var rc := Step(calls[done], calls[..done]);
        if rc.Error? {
          return;
        }
        assert calls[..done + 1] == calls[..done] + [calls[done]];
        done := done + 1;
      }
      assert calls[..done] == calls;
    }

    /**
     Any run of calls without an error is, in each direction, a queue of bytes, and the flag tells
     whether anything is left in it.
     */
    method Run(calls: seq<Call>) returns (done: nat)
      requires Queues([])
      modifies down, up
      ensures done <= |calls|
      ensures done == |calls| ==>
                && Queues(calls)
                && (down.buffered <==> Taken(calls, true) < |Submitted(calls, true)|)
                && (up.buffered <==> Taken(calls, false) < |Submitted(calls, false)|)
      ensures (forall i :: 0 <= i < |calls| ==> Fine(calls[i])) && !down.shared && !up.shared ==> done == |calls|
    {
      done := Loop(calls);
      if done == |calls| {
        FlagTells(down, Submitted(calls, true), Taken(calls, true));
        FlagTells(up, Submitted(calls, false), Taken(calls, false));
      }
    }
  }

  lemma FlagTells(d: Direction, all: seq<byte>, n: nat)
    requires Queue(d, all, n)
    ensures d.buffered <==> n < |all|
  {
    assert |Content(d.saved)| == |all| - n;
  }

  lemma CallsPush(calls: seq<Call>, call: Call, fromUpstream: bool)
    ensures var more := Submitted(calls, fromUpstream) + Content(call.chain);
            if call.fromUpstream == fromUpstream then
              && Submitted(calls + [call], fromUpstream) == more
              && Taken(calls + [call], fromUpstream) ==
                 Taken(calls, fromUpstream) + Min(Amount(call.taken), |more| - Taken(calls, fromUpstream))
            else
              && Submitted(calls + [call], fromUpstream) == Submitted(calls, fromUpstream)
              && Taken(calls + [call], fromUpstream) == Taken(calls, fromUpstream)
  {
    assert (calls + [call])[..|calls|] == calls;
    assert Submitted(calls, fromUpstream) + [] == Submitted(calls, fromUpstream);
  }
}
