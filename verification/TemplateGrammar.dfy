/**
 The grammar of templates, byte by byte: what each dollar (36) stands for, and which dollars stand for nothing.
 Together with the bytes that are not dollars this determines the meaning of every template.
 */
module TemplateGrammar {
  import opened Bytes
  import opened Template

  /** What is in front of a template that means `rest`, if that means anything. */
  function Before(front: seq<byte>, rest: Option<seq<byte>>): Option<seq<byte>> {
    if rest.None? then None else Some(front + rest.value)
  }

  /** A byte that is not a dollar stands for itself. */
  lemma OtherByte(c: byte, rest: seq<byte>, env: Env)
    requires c != 36
    ensures Substitute([c] + rest, env) == Before([c], Substitute(rest, env))
    ensures Substitute([], env) == Some([])
  {
    assert ([c] + rest)[1..] == rest;
  }

  /** The name in front of a text that does not go on with it, by its bytes: A-Z, a-z, 0-9 and the underscore. */
  lemma {:induction false} NameInFront(name: seq<byte>, rest: seq<byte>)
    requires forall k | 0 <= k < |name| ::
               65 <= name[k] <= 90 || 97 <= name[k] <= 122 || 48 <= name[k] <= 57 || name[k] == 95
    requires rest == [] || !(65 <= rest[0] <= 90 || 97 <= rest[0] <= 122 || 48 <= rest[0] <= 57 || rest[0] == 95)
    ensures NameLen(name + rest) == |name|
  {
    if name == [] {
      assert name + rest == rest;
    } else {
      NameInFront(name[1..], rest);
      assert (name + rest)[1..] == name[1..] + rest;
    }
  }

  /** A dollar and a name that does not start with 1 to 9: the longest such name is the variable. */
  lemma BareName(name: seq<byte>, rest: seq<byte>, env: Env)
    requires name != [] && !(49 <= name[0] <= 57)
    requires forall k | 0 <= k < |name| ::
               65 <= name[k] <= 90 || 97 <= name[k] <= 122 || 48 <= name[k] <= 57 || name[k] == 95
    requires rest == [] || !(65 <= rest[0] <= 90 || 97 <= rest[0] <= 122 || 48 <= rest[0] <= 57 || rest[0] == 95)
    ensures Substitute([36] + name + rest, env) == Before(env.variable(name), Substitute(rest, env))
  {
    var t := [36] + name + rest;
    Slices([36], name, rest);
    NameInFront(name, rest);
    BareExpands(t, |name|);
    Expands(t, Head(Variable(name), 1 + |name|), env);
  }

  lemma BareExpands(t: seq<byte>, n: nat)
    requires |t| > 1 && t[0] == DOLLAR && !(49 <= t[1] <= 57) && t[1] != 123 && n > 0 && NameLen(t[1..]) == n
    ensures Expansion(t) == Some(Head(Variable(t[1..1 + n]), 1 + n))
  {
  }

  lemma Slices(a: seq<byte>, b: seq<byte>, c: seq<byte>)
    ensures var t := a + b + c;
            t[|a|..|a| + |b|] == b && t[|a| + |b|..] == c && t[|a|..] == b + c
    ensures b != [] ==> (a + b + c)[|a|] == b[0]
  {
  }

  lemma Expands(t: seq<byte>, h: Head, env: Env)
    requires t != [] && t[0] == DOLLAR && Expansion(t) == Some(h)
    ensures Substitute(t, env) == Before(Meaning(h.piece, env), Substitute(t[h.size..], env))
  {
  }

  /** A dollar and a name in braces (123 and 125), whatever the name starts with. */
  lemma BracedName(name: seq<byte>, rest: seq<byte>, env: Env)
    requires name != []
    requires forall k | 0 <= k < |name| ::
               65 <= name[k] <= 90 || 97 <= name[k] <= 122 || 48 <= name[k] <= 57 || name[k] == 95
    ensures Substitute([36, 123] + name + [125] + rest, env) == Before(env.variable(name), Substitute(rest, env))
  {
    var t := [36, 123] + name + [125] + rest;
    NameInFront(name, [125] + rest);
    assert t[2..] == name + ([125] + rest);
    assert t[0] == 36 && t[1] == 123 && t[2 + |name|] == 125;
    assert t[2..2 + |name|] == name;
    assert t[3 + |name|..] == rest;
    Expands(t, Head(Variable(name), 3 + |name|), env);
  }

  /** A dollar and a digit from 1 to 9: that capture, whatever follows. */
  lemma CaptureDigit(d: byte, rest: seq<byte>, env: Env)
    requires 49 <= d <= 57
    ensures Substitute([36, d] + rest, env) == Before(env.capture(d - 48), Substitute(rest, env))
  {
    var t := [36, d] + rest;
    assert t[0] == 36 && t[1] == d && t[2..] == rest;
    Expands(t, Head(Capture(d - 48), 2), env);
  }

  /** The bytes behind a dollar with which it stands for nothing. */
  ghost predicate StandsForNothing(t: seq<byte>) {
    || t == []
    || (!(65 <= t[0] <= 90 || 97 <= t[0] <= 122 || 48 <= t[0] <= 57 || t[0] == 95) && t[0] != 123)
    || (t[0] == 123 && forall n: nat :: !ClosesAfter(t, n))
  }

  /** Behind the first byte there are `n` bytes of a name, at least one, and then a closing brace. */
  ghost predicate ClosesAfter(t: seq<byte>, n: nat) {
    0 < n < |t| - 1 && t[1 + n] == 125 && !HasOther(t[1..1 + n])
  }

  /** Some byte that no name has. */
  ghost predicate HasOther(s: seq<byte>) {
    exists k | 0 <= k < |s| :: !(65 <= s[k] <= 90 || 97 <= s[k] <= 122 || 48 <= s[k] <= 57 || s[k] == 95)
  }

  lemma NameHasNoOther(t: seq<byte>)
    ensures !HasOther(t[..NameLen(t)])
    ensures NameLen(t) < |t| ==> HasOther([t[NameLen(t)]])
  {
    NameLenIsLongest(t);
    if NameLen(t) < |t| {
      var s := [t[NameLen(t)]];
      assert !(65 <= s[0] <= 90 || 97 <= s[0] <= 122 || 48 <= s[0] <= 57 || s[0] == 95);
    }
  }

  lemma NameCloses(t: seq<byte>)
    requires t != []
    ensures var n := NameLen(t[1..]);
            n > 0 && 1 + n < |t| && t[1 + n] == 125 ==> ClosesAfter(t, n)
  {
    var n := NameLen(t[1..]);
    NameHasNoOther(t[1..]);
    assert t[1..][..n] == t[1..1 + n];
  }

  /** Such a dollar makes the template malformed. */
  lemma Malformed(t: seq<byte>, env: Env)
    requires StandsForNothing(t)
    ensures Substitute([36] + t, env) == None
  {
    var u := [36] + t;
    assert u[1..] == t;
    if t != [] {
      assert u[1] == t[0];
      assert u[2..] == t[1..];
      NameCloses(t);
    }
  }

  /** What follows a dollar: a name, a name in braces, or a digit. */
  datatype Form = Bare(name: seq<byte>) | Braced(name: seq<byte>) | Digit(d: byte)

  /** The bytes of a form, as the three lemmas above have them. */
  ghost predicate Forms(f: Form, rest: seq<byte>, t: seq<byte>) {
    match f
    case Bare(name) =>
      && t == name + rest && name != [] && !HasOther(name) && !(49 <= name[0] <= 57)
      && (rest == [] || HasOther(rest[..1]))
    case Braced(name) => t == [123] + name + [125] + rest && name != [] && !HasOther(name)
    case Digit(d) => t == [d] + rest && 49 <= d <= 57
  }

  /** Every other dollar is one of the three forms, so a template is malformed only by such a dollar. */
  lemma WellFormed(t: seq<byte>) returns (f: Form, rest: seq<byte>)
    requires !StandsForNothing(t)
    ensures Forms(f, rest, t)
  {
    if 49 <= t[0] <= 57 {
      f, rest := Digit(t[0]), t[1..];
      assert t == [t[0]] + rest;
    } else if t[0] == 123 {
      f, rest := BracedForm(t);
    } else {
      f, rest := BareForm(t);
    }
  }

  lemma BracedForm(t: seq<byte>) returns (f: Form, rest: seq<byte>)
    requires t != [] && t[0] == 123 && !StandsForNothing(t)
    ensures Forms(f, rest, t)
  {
    var n: nat :| ClosesAfter(t, n);
    f, rest := Braced(t[1..1 + n]), t[2 + n..];
    assert t == [123] + t[1..1 + n] + [125] + rest;
  }

  lemma BareForm(t: seq<byte>) returns (f: Form, rest: seq<byte>)
    requires t != [] && t[0] != 123 && !(49 <= t[0] <= 57) && !StandsForNothing(t)
    ensures Forms(f, rest, t)
  {
    var n := NameLen(t);
    NameHasNoOther(t);
    f, rest := Bare(t[..n]), t[n..];
    assert t == t[..n] + rest;
    assert rest != [] ==> rest[..1] == [t[n]];
  }

  /** The meaning of a form. */
  function MeaningOf(f: Form, env: Env): seq<byte>
    requires f.Digit? ==> f.d >= 48
  {
    match f
    case Bare(name) => env.variable(name)
    case Braced(name) => env.variable(name)
    case Digit(d) => env.capture(d - 48)
  }

  /** A dollar that stands for something: the rest decides whether the template is malformed. */
  lemma DollarMeans(t: seq<byte>, env: Env) returns (f: Form, rest: seq<byte>)
    requires !StandsForNothing(t)
    ensures Forms(f, rest, t)
    ensures Substitute([36] + t, env) == Before(MeaningOf(f, env), Substitute(rest, env))
  {
    f, rest := WellFormed(t);
    match f
    case Bare(name) =>
      assert [36] + t == [36] + name + rest;
      BareName(name, rest, env);
    case Braced(name) =>
      assert [36] + t == [36, 123] + name + [125] + rest;
      BracedName(name, rest, env);
    case Digit(d) =>
      assert [36] + t == [36, d] + rest;
      CaptureDigit(d, rest, env);
  }
}
