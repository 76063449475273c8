/**
 What the names and captures of a template stand for in a session: names without regard to case, captures by
 their offsets, and variables by what their handlers have answered.
 */
module ScriptMeaning {
  import opened Bytes
  import opened Template
  import opened Variables
  import opened ScriptCode
  import opened ScriptCompile
  import opened ScriptRun
  import opened Script

  /** Two names are the same variable exactly when they differ at most in the case of A-Z and a-z. */
  lemma SameVariable(names: seq<seq<byte>>, a: seq<byte>, b: seq<byte>)
    requires Lower(a) in names && Lower(b) in names
    ensures IndexOf(names, Lower(a)) == IndexOf(names, Lower(b)) <==>
            |a| == |b| && forall k | 0 <= k < |a| ::
              a[k] == b[k] || (65 <= a[k] <= 90 && b[k] == a[k] + 32) || (65 <= b[k] <= 90 && a[k] == b[k] + 32)
  {
    IndexOfIsFirst(names, Lower(a));
    IndexOfIsFirst(names, Lower(b));
    if Lower(a) == Lower(b) {
      forall k | 0 <= k < |a|
        ensures a[k] == b[k] || (65 <= a[k] <= 90 && b[k] == a[k] + 32) || (65 <= b[k] <= 90 && a[k] == b[k] + 32)
      {
        assert LowerByte(a[k]) == Lower(a)[k] == Lower(b)[k] == LowerByte(b[k]);
      }
    }
  }

  /** Capture `n` is the part of the matched text between its two offsets; nothing if it is unset or not there. */
  lemma CaptureStandsFor(v: View, names: seq<seq<byte>>, n: nat)
    requires v.ncaptures <= |v.captures| && v.ncaptures % 2 == 0
    ensures EnvOf(v, names).capture(n) ==
            if 2 * n < v.ncaptures && 0 <= v.captures[2 * n] <= v.captures[2 * n + 1] <= |v.data|
            then v.data[v.captures[2 * n]..v.captures[2 * n + 1]] else []
  {
  }

  /** What a handler's answer is worth. */
  function Said(o: Outcome): seq<byte> {
    if o.Found? then o.data else []
  }

  /** An entry that its handler has just answered. */
  lemma AnswerIsText(vars: seq<Entry>, i: nat, o: Outcome, flag: bool)
    requires i < |vars| && !Cached(vars[i])
    ensures Text(vars[i := Answered(vars[i], o, flag)], i) == Said(o)
  {
  }

  /**
   After an evaluation a variable of the template stands for what its own handler has answered in it, if it had
   no cached value or one that is marked, and for what it stood for before otherwise.
   */
  lemma StandsForAnswer(before: Cache, after: Cache, rules: Rules, list: seq<nat>, i: nat)
    requires |rules.flags| == |before.vars| && Evaluated(before, after, rules, list)
    requires i in list && i < |before.vars| && rules.depth > 0
    ensures if Cached(before.vars[i]) && !before.vars[i].noCacheable then Text(after.vars, i) == Text(before.vars, i)
            else exists k: nat | before.calls <= k < after.calls :: Text(after.vars, i) == Said(rules.handler(i, k))
  {
    var flushed := Cache(FlushAll(before.vars, list, |list|), before.calls);
    if !(Cached(before.vars[i]) && !before.vars[i].noCacheable) {
      FlushEffect(before.vars, list, |list|, i);
      assert list[..|list|] == list;
      AskersAre(flushed.vars, rules.depth, list);
      var asked := Askers(flushed.vars, rules.depth, list);
      var j: nat :| j < |asked| && asked[j] == i;
      assert HoldsAnswer(flushed, after, rules.handler, rules.flags, asked[j], before.calls + j);
      AnswerIsText(flushed.vars, i, rules.handler(i, before.calls + j), rules.flags[i]);
    }
  }

  /** Every code is padded to whole words, and by less than a word. */
  lemma AlignIsNext(n: nat)
    ensures Align(n) % 8 == 0 && n <= Align(n) < n + 8
  {
  }
}
