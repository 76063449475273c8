/**
 Handshake messages that arrive in pieces. A read that has to wait is entered again from the start:
 msg_num moves once more and the data read so far is dropped. The theorems say, for every way to cut a
 message into pieces, whether it is read and what the endpoint then does.
 */
module HandshakeCuts {
  import opened Bytes
  import opened HandshakeReads
  import opened Handshake
  import opened HandshakeLink

  // ----- Pieces

  ghost function Joined(pieces: seq<seq<byte>>): seq<byte>
    decreases |pieces|
  {
    if pieces == [] then [] else pieces[0] + Joined(pieces[1..])
  }

  /** How much has arrived after the first piece that goes beyond byte `k`. */
  ghost function Beyond(k: nat, seen: nat, pieces: seq<seq<byte>>): nat
    decreases |pieces|
  {
    if pieces == [] || seen > k then seen else Beyond(k, seen + |pieces[0]|, pieces[1..])
  }

  /** How many wakeups, up to that piece, find the negotiation length of a second or third message complete. */
  ghost function Moves(seen: nat, pieces: seq<seq<byte>>): nat
    decreases |pieces|
  {
    if pieces == [] || seen > 4 then 0
    else
      var next := seen + |pieces[0]|;
      (if next >= 2 then 1 else 0) + Moves(next, pieces[1..])
  }

  /** msg_num after the negotiation data of one message. */
  function Moved(num: nat): nat {
    if num == MSG2_OK then MSG3 else if num == MSG3 then MSG1 else MSG2_OK
  }

  function MovedBy(num: nat, k: nat): nat
    decreases k
  {
    if k == 0 then num else MovedBy(Moved(num), k - 1)
  }

  predicate Cyclic(num: nat) {
    num == MSG1 || num == MSG2_OK || num == MSG3
  }

  /** msg_num goes round in three. */
  lemma {:induction false} RoundInThree(num: nat, k: nat)
    requires Cyclic(num)
    ensures MovedBy(num, k) == if k % 3 == 0 then num else if k % 3 == 1 then Moved(num) else Moved(Moved(num))
    decreases k
  {
    if k > 0 {
      RoundInThree(Moved(num), k - 1);
    }
  }

  // ----- The second and the third message

  /** `m` is one message that is accepted as number `step`, and nothing else. */
  predicate IsMessage(p: Noise, step: nat, m: seq<byte>) {
    4 < |m| < 0x1_0000 + 4 && m[0] == 0 && m[1] == 0 && FromBe16(m[2], m[3]) == |m| - 4 && p.accepts(step, m[4..])
  }

  lemma Layout(p: Noise, step: nat, m: seq<byte>)
    ensures IsMessage(p, step, m) <==> MessageReady(p, step, m) && After(After(m)) == []
  {
    if Whole(m) && Size(m) == 0 {
      assert After(m) == m[2..];
      if Whole(After(m)) {
        assert After(After(m)) == m[4 + Size(m[2..])..];
        assert After(After(m)) == [] ==> Block(After(m)) == m[4..];
      }
    }
    if IsMessage(p, step, m) {
      assert Whole(m) && After(m) == m[2..];
      assert Block(After(m)) == m[4..];
    }
  }

  /** What is known of the two length fields after `c` bytes. */
  function NegAt(c: nat): Length {
    if c == 0 then NoLength else Length(0, c == 1)
  }

  function NoiseAt(m: seq<byte>, c: nat): Length
    requires |m| > 4
  {
    if c <= 2 then NoLength else if c == 3 then Length(m[2], true) else Length(|m| - 4, false)
  }

  /** Some `c` bytes of `m` have been read; of the data behind the length fields nothing need be left. */
  predicate Partly(r: Reading, num: nat, step: nat, m: seq<byte>, c: nat)
    requires |m| > 4
  {
    && r.msgNum == num && r.step == step && r.input == [] && BufferOk(r.buf)
    && r.negLen == NegAt(c) && r.noiseLen == NoiseAt(m, c)
  }

  /** The negotiation length, of which `c` bytes were there before. */
  lemma NegotiationPart(r: Reading, m: seq<byte>, num: nat, step: nat, c: nat, d: seq<byte>)
    requires |m| > 4 && m[0] == 0 && m[1] == 0 && Cyclic(num) && (num == MSG1 ==> c >= 2)
    requires Partly(r, num, step, m, c) && ReadingOk(r) && c + |d| <= |m| && d == m[c..c + |d|]
    ensures GetNegotiation(r.(input := d)) ==
            if c + |d| < 2 then MessageGot(AGAIN, r.(negLen := NegAt(c + |d|), buf := None))
            else MessageGot(0, r.(msgNum := Moved(num), negLen := NegAt(2), buf := None, input := d[if c < 2 then 2 - c else 0..]))
  {
    if c == 0 && |d| >= 2 {
      assert d[0] == m[0] && d[1] == m[1];
    }
    if c == 0 && |d| == 1 {
      assert d[0] == m[0];
    }
    if c == 1 && |d| >= 1 {
      assert d[0] == m[1];
    }
  }

  /** The Noise message, of which `c - 2` bytes were there before and those behind its length are lost. */
  lemma NoisePart(p: Noise, r: Reading, m: seq<byte>, c: nat, e: seq<byte>)
    requires IsMessage(p, r.step, m) && 2 <= c && c + |e| <= |m| && e == m[c..c + |e|]
    requires ReadingOk(r) && r.noiseLen == NoiseAt(m, c) && r.buf == None && r.input == e
    ensures var g := GetNoise(p, r);
            if c <= 4 && c + |e| == |m|
            then g == MessageGot(0, r.(step := r.step + 1, negLen := NoLength, noiseLen := NoLength, input := []))
            else g.n == AGAIN && g.after == r.(noiseLen := NoiseAt(m, c + |e|), buf := g.after.buf, input := [])
  {
    if c == 2 && |e| >= 2 {
      assert e[0] == m[2] && e[1] == m[3];
      BodyPart(m, 4, e[2..]);
    } else if c == 2 && |e| == 1 {
      assert e[0] == m[2];
    } else if c == 3 && |e| >= 1 {
      assert e[0] == m[3];
      BodyPart(m, 4, e[1..]);
    } else if c >= 4 {
      BodyPart(m, c, e);
    }
  }

  lemma BodyPart(m: seq<byte>, c: nat, e: seq<byte>)
    requires 4 <= c && 4 < |m| < 0x1_0000 + 4 && c + |e| <= |m| && e == m[c..c + |e|]
    ensures var g := GetBody(Length(|m| - 4, false), None, e);
            if c == 4 && c + |e| == |m| then g == BlockGot(|m| - 4, Length(|m| - 4, false), Some(Buffer(|m| - 4, m[4..])), [])
            else g.n == AGAIN && g.len == Length(|m| - 4, false) && g.rest == []
  {
    assert e[..|e|] == e && [] + e == e;
    assert c == 4 && c + |e| == |m| ==> e == m[4..] && e[|m| - 4..] == [];
  }

  /** What a piece that brings the bytes of `m` from `c` to `now` makes of an endpoint at `num`. */
  predicate PartGot(g: MessageGot, num: nat, step: nat, m: seq<byte>, c: nat, now: nat)
    requires |m| > 4
  {
    if c <= 4 && now == |m| then g == MessageGot(0, Reading(Moved(num), NoLength, NoLength, None, step + 1, []))
    else g.n == AGAIN && Partly(g.after, if now < 2 then num else Moved(num), step, m, now)
  }

  /** One more piece of a message. */
  lemma PartRead(p: Noise, r: Reading, m: seq<byte>, num: nat, step: nat, c: nat, d: seq<byte>)
    requires IsMessage(p, step, m) && Cyclic(num) && (num == MSG1 ==> c >= 2)
    requires Partly(r, num, step, m, c) && ReadingOk(r) && c + |d| <= |m| && d == m[c..c + |d|]
    ensures PartGot(GetMessage(p, r.(input := d)), num, step, m, c, c + |d|)
  {
    NegotiationPart(r, m, num, step, c, d);
    if c + |d| >= 2 {
      var from := if c < 2 then 2 else c;
      var e := d[from - c..];
      SliceBehind(m, c, d, from);
      var mid := Reading(Moved(num), NegAt(2), NoiseAt(m, from), None, step, e);
      NoiseBehind(p, r.(input := d), mid);
      PartNoise(p, mid, m, num, step, from, e);
    }
  }

  lemma PartNoise(p: Noise, mid: Reading, m: seq<byte>, num: nat, step: nat, c: nat, e: seq<byte>)
    requires IsMessage(p, step, m) && 2 <= c && c + |e| <= |m| && e == m[c..c + |e|]
    requires mid == Reading(Moved(num), NegAt(2), NoiseAt(m, c), None, step, e)
    ensures PartGot(GetNoise(p, mid), num, step, m, c, c + |e|)
  {
    NoisePart(p, mid, m, c, e);
  }

  lemma NoiseBehind(p: Noise, r: Reading, mid: Reading)
    requires ReadingOk(r) && GetNegotiation(r) == MessageGot(0, mid)
    ensures GetMessage(p, r) == GetNoise(p, mid)
  {
  }

  lemma SliceBehind(m: seq<byte>, c: nat, d: seq<byte>, from: nat)
    requires c + |d| <= |m| && d == m[c..c + |d|] && c <= from <= c + |d|
    ensures d[from - c..] == m[from..c + |d|]
  {
  }

  /**
   The second or third message cut once: the first part leaves the endpoint waiting, the rest completes the
   message exactly when the cut is inside or right behind the length fields, and as if there had been no cut
   exactly when it is one byte in.
   */
  lemma CutOnce(p: Noise, r: Reading, m: seq<byte>, c: nat)
    requires CleanReading(r) && (r.msgNum == MSG2_OK || r.msgNum == MSG3) && IsMessage(p, r.step, m) && 0 < c < |m|
    ensures var g := GetMessage(p, r.(input := m[..c]));
            && g.n == AGAIN && g.after.input == []
            && var then' := GetMessage(p, g.after.(input := m[c..]));
            && (then'.n == 0 <==> c <= 4) && (then'.n != 0 ==> then'.n == AGAIN)
            && (then' == GetMessage(p, r.(input := m)) <==> c == 1)
  {
    var num := r.msgNum;
    var start := r.(input := []);
    CutSlices(m, c);
    PartRead(p, start, m, num, r.step, 0, m);
    PartRead(p, start, m, num, r.step, 0, m[..c]);
    var g := GetMessage(p, r.(input := m[..c]));
    var num' := if c < 2 then num else Moved(num);
    PartRead(p, g.after, m, num', r.step, c, m[c..]);
    CutCompared(GetMessage(p, r.(input := m)), GetMessage(p, g.after.(input := m[c..])), num, num', r.step, m, c);
  }

  lemma CutSlices(m: seq<byte>, c: nat)
    requires c <= |m|
    ensures m[..c] == m[0..0 + |m[..c]|] && m[c..] == m[c..c + |m[c..]|] && m == m[0..0 + |m|]
  {
  }

  lemma CutCompared(whole: MessageGot, rest: MessageGot, num: nat, num': nat, step: nat, m: seq<byte>, c: nat)
    requires |m| > 4 && 0 < c < |m| && Cyclic(num) && num' == (if c < 2 then num else Moved(num))
    requires PartGot(whole, num, step, m, 0, |m|) && PartGot(rest, num', step, m, c, |m|)
    ensures (rest.n == 0 <==> c <= 4) && (rest.n != 0 ==> rest.n == AGAIN) && (rest == whole <==> c == 1)
  {
  }

  /** An endpoint that is given a message piece by piece, for as long as it asks for more. */
  ghost function Retried(p: Noise, r: Reading, pieces: seq<seq<byte>>): (g: MessageGot)
    requires ReadingOk(r)
    ensures ReadingOk(g.after)
    decreases |pieces|
  {
    if pieces == [] then MessageGot(AGAIN, r)
    else
      var g := GetMessage(p, r.(input := r.input + pieces[0]));
      if g.n == AGAIN then Retried(p, g.after, pieces[1..]) else g
  }

  /**
   Every way to cut a message: it is read exactly when the piece that goes beyond its two length fields
   brings all of its data, and msg_num has then moved once for every wakeup since the negotiation length.
   */
  lemma {:induction false} AnyCut(p: Noise, r: Reading, m: seq<byte>, num: nat, step: nat, c: nat, pieces: seq<seq<byte>>)
    requires IsMessage(p, step, m) && Cyclic(num) && (num == MSG1 ==> c >= 2)
    requires Partly(r, num, step, m, c) && ReadingOk(r) && c <= |m| && Joined(pieces) == m[c..]
    ensures var g := Retried(p, r, pieces);
            if c <= 4 && Beyond(4, c, pieces) == |m|
            then g == MessageGot(0, Reading(MovedBy(num, Moves(c, pieces)), NoLength, NoLength, None, step + 1, []))
            else g.n == AGAIN
    decreases |pieces|
  {
    if pieces != [] {
      var now := c + |pieces[0]|;
      FirstPiece(m, c, pieces);
      Counted(num, c, pieces);
      if c > 4 || now < |m| {
        var after := PieceWaits(p, r, m, num, step, c, pieces);
        AnyCut(p, after, m, if now < 2 then num else Moved(num), step, now, pieces[1..]);
      } else {
        PieceCompletes(p, r, m, num, step, c, pieces);
      }
    }
  }

  lemma PieceWaits(p: Noise, r: Reading, m: seq<byte>, num: nat, step: nat, c: nat, pieces: seq<seq<byte>>) returns (after: Reading)
    requires IsMessage(p, step, m) && Cyclic(num) && (num == MSG1 ==> c >= 2) && pieces != []
    requires var now := c + |pieces[0]|; now <= |m| && pieces[0] == m[c..now] && (c > 4 || now < |m|)
    requires Partly(r, num, step, m, c) && ReadingOk(r)
    ensures var now := c + |pieces[0]|; Partly(after, if now < 2 then num else Moved(num), step, m, now)
    ensures ReadingOk(after) && Retried(p, r, pieces) == Retried(p, after, pieces[1..])
  {
    assert r.input + pieces[0] == pieces[0];
    PartRead(p, r, m, num, step, c, pieces[0]);
    after := GetMessage(p, r.(input := pieces[0])).after;
  }

  lemma PieceCompletes(p: Noise, r: Reading, m: seq<byte>, num: nat, step: nat, c: nat, pieces: seq<seq<byte>>)
    requires IsMessage(p, step, m) && Cyclic(num) && (num == MSG1 ==> c >= 2) && pieces != []
    requires c <= 4 && c + |pieces[0]| == |m| && pieces[0] == m[c..c + |pieces[0]|]
    requires Partly(r, num, step, m, c) && ReadingOk(r)
    ensures Retried(p, r, pieces) == MessageGot(0, Reading(Moved(num), NoLength, NoLength, None, step + 1, []))
  {
    assert r.input + pieces[0] == pieces[0];
    PartRead(p, r, m, num, step, c, pieces[0]);
  }

  /** What one piece adds to the counts. */
  lemma Counted(num: nat, c: nat, pieces: seq<seq<byte>>)
    requires pieces != []
    ensures var now := c + |pieces[0]|;
            && (c <= 4 ==> Beyond(4, c, pieces) == Beyond(4, now, pieces[1..]))
            && (now > 4 ==> Beyond(4, now, pieces[1..]) == now && Moves(now, pieces[1..]) == 0)
            && (c <= 4 ==> MovedBy(num, Moves(c, pieces)) ==
                           MovedBy(if now < 2 then num else Moved(num), Moves(now, pieces[1..])))
            && (forall n :: MovedBy(n, 0) == n)
  {
  }

  lemma FirstPiece(m: seq<byte>, c: nat, pieces: seq<seq<byte>>)
    requires c <= |m| && pieces != [] && Joined(pieces) == m[c..]
    ensures c + |pieces[0]| <= |m| && pieces[0] == m[c..c + |pieces[0]|] && Joined(pieces[1..]) == m[c + |pieces[0]|..]
  {
    var d := pieces[0];
    assert |m[c..]| == |d| + |Joined(pieces[1..])|;
    assert d == (d + Joined(pieces[1..]))[..|d|] == m[c..][..|d|];
    assert Joined(pieces[1..]) == (d + Joined(pieces[1..]))[|d|..] == m[c..][|d|..];
  }

  // ----- Whole wakeups

  /** An endpoint woken for each piece, until it has something to say or is done. */
  ghost function Delivered(p: Noise, own: seq<byte>, role: Role, phase: Phase, r: Reading, pieces: seq<seq<byte>>): (w: Woken)
    requires Going(r) && (phase.NonePhase? ==> r.step == 0)
    ensures Going(w.after) && (w.said.Some? ==> w.said.value.step < 3) && (w.phase.NonePhase? ==> w.after.step == 0)
    decreases |pieces|
  {
    if pieces == [] then Woken(AGAIN, phase, r, None)
    else
      var w := GetWake(p, own, role, phase, r.(input := r.input + pieces[0]));
      if w.n == AGAIN && w.said.None? then Delivered(p, own, role, w.phase, w.after, pieces[1..]) else w
  }

  /** The same as the reads of that message, and behind it the rest of the loop. */
  lemma {:induction false} DeliveredReads(p: Noise, own: seq<byte>, role: Role, r: Reading, pieces: seq<seq<byte>>)
    requires Going(r) && ActionAt(role, r.step).ReadMessage?
    ensures var g := Retried(p, r, pieces);
            && Going(g.after)
            && Delivered(p, own, role, ProcessPhase, r, pieces) ==
               if g.n == 0 then GetProcess(p, role, g.after) else Woken(g.n, ProcessPhase, g.after, None)
    decreases |pieces|
  {
    if pieces != [] {
      var next := r.(input := r.input + pieces[0]);
      var g := GetMessage(p, next);
      WakeReads(p, own, role, next, g);
      if g.n == AGAIN {
        DeliveredReads(p, own, role, g.after, pieces[1..]);
      }
    }
  }

  /** One wakeup in front of a message: after a message that was read, the loop says something or ends. */
  lemma WakeReads(p: Noise, own: seq<byte>, role: Role, r: Reading, g: MessageGot)
    requires Going(r) && ActionAt(role, r.step).ReadMessage? && g == GetMessage(p, r)
    ensures Going(g.after) && (g.n == 0 || g.n == AGAIN || g.n == ERROR) && (g.n != 0 ==> g.after.step == r.step)
    ensures var w := GetWake(p, own, role, ProcessPhase, r);
            if g.n == 0 then w == GetProcess(p, role, g.after) && (w.n != AGAIN || w.said.Some?)
            else w == Woken(g.n, ProcessPhase, g.after, None)
  {
    LoopReads(p, role, r);
    if g.n == 0 {
      InTurn(role, r.step);
      NotSilent(p, role, g.after);
    }
  }

  /** No side reads twice in a row. */
  lemma InTurn(role: Role, step: nat)
    requires ActionAt(role, step).ReadMessage?
    ensures step == 0 || step == 1 || step == 2
    ensures !ActionAt(role, step + 1).ReadMessage?
  {
  }

  lemma NotSilent(p: Noise, role: Role, r: Reading)
    requires Going(r) && !ActionAt(role, r.step).ReadMessage?
    ensures var w := GetProcess(p, role, r); w.n != AGAIN || w.said.Some?
  {
  }

  lemma Between(p: Noise, k: nat, m: seq<byte>)
    requires IsMessage(p, k, m) && 0 < k < 3
    ensures Partly(Resting(k, []), NumAt(k), k, m, 0) && Cyclic(NumAt(k)) && NumAt(k) != MSG1 && m[0..] == m
  {
  }

  /** The client and the second message, in any pieces: when it is done, and which message it then sends. */
  lemma ClientInPieces(p: Noise, own: seq<byte>, m: seq<byte>, pieces: seq<seq<byte>>)
    requires IsMessage(p, 1, m) && Joined(pieces) == m
    ensures var w := Delivered(p, own, Client, ProcessPhase, Resting(1, []), pieces);
            if Beyond(4, 0, pieces) == |m|
            then w.n == 0 && w.phase.EndPhase? && w.said == Some(Sent(2, MovedBy(MSG2_OK, Moves(0, pieces))))
            else w.n == AGAIN && w.said == None
  {
    Between(p, 1, m);
    AnyCut(p, Resting(1, []), m, MSG2_OK, 1, 0, pieces);
    DeliveredReads(p, own, Client, Resting(1, []), pieces);
    if Beyond(4, 0, pieces) == |m| {
      var num := MovedBy(MSG2_OK, Moves(0, pieces));
      RoundInThree(MSG2_OK, Moves(0, pieces));
      ClientEnds(p, Reading(num, NoLength, NoLength, None, 2, []));
    }
  }

  /** The server and the third message, in any pieces: when it is done. */
  lemma ServerInPieces(p: Noise, own: seq<byte>, m: seq<byte>, pieces: seq<seq<byte>>)
    requires IsMessage(p, 2, m) && Joined(pieces) == m
    ensures var w := Delivered(p, own, Server, ProcessPhase, Resting(2, []), pieces);
            && w.said == None
            && if Beyond(4, 0, pieces) == |m| then w.n == 0 && w.phase.EndPhase? else w.n == AGAIN
  {
    Between(p, 2, m);
    AnyCut(p, Resting(2, []), m, MSG3, 2, 0, pieces);
    DeliveredReads(p, own, Server, Resting(2, []), pieces);
    if Beyond(4, 0, pieces) == |m| {
      var num := MovedBy(MSG3, Moves(0, pieces));
      RoundInThree(MSG3, Moves(0, pieces));
      ServerEnds(p, Reading(num, NoLength, NoLength, None, 3, []));
    }
  }

  /** The messages of a handshake have that form. */
  lemma SpokenIsMessage(ms: seq<seq<byte>>, p: Noise, header: seq<byte>, k: nat)
    requires Spoken(ms, p, header) && 0 < k < 3
    ensures IsMessage(p, k, ms[k])
  {
    assert ms[k] + [] == ms[k];
    MessageArrives(ms, p, header, k, []);
    Layout(p, k, ms[k]);
  }

  /** The third message under another number is the same, */
  lemma ThirdUnder(ms: seq<seq<byte>>, p: Noise, header: seq<byte>, num: nat, said: seq<byte>)
    requires Spoken(ms, p, header) && Cyclic(num) && num != MSG1 && said == SentBytes(p, header, Some(Sent(2, num)))
    ensures said == ms[2]
  {
    ThirdIs(ms, p, header);
    SentUnder(p, header, num, said);
  }

  /** unless the client is back at the first. */
  lemma ThirdUnderFirst(ms: seq<seq<byte>>, p: Noise, header: seq<byte>, said: seq<byte>)
    requires Spoken(ms, p, header) && said == SentBytes(p, header, Some(Sent(2, MSG1)))
    ensures said != ms[2] && |said| > 2 && said[0] == 0 && said[1] == NEG1
  {
    ThirdIs(ms, p, header);
    SentUnder(p, header, MSG1, said);
    PacketsDiffer(header, p.messages[2], said, ms[2]);
  }

  lemma PacketsDiffer(header: seq<byte>, msg: seq<byte>, a: seq<byte>, b: seq<byte>)
    requires |header| == NEG1 && |msg| < 0x1_0000 && a == Packet(header, msg) && b == Packet([], msg)
    ensures a != b && |a| > 2 && a[0] == 0 && a[1] == NEG1
  {
    PacketStarts(header, msg);
    PacketStarts([], msg);
  }

  lemma ThirdIs(ms: seq<seq<byte>>, p: Noise, header: seq<byte>)
    requires Spoken(ms, p, header)
    ensures |p.messages| == 3 && |p.messages[2]| <= MAX_HANDSHAKE_LEN && ms[2] == Packet([], p.messages[2])
  {
    assert At(2);
  }

  lemma SentUnder(p: Noise, header: seq<byte>, num: nat, said: seq<byte>)
    requires NoiseOk(p) && |header| == NEG1 && Cyclic(num) && said == SentBytes(p, header, Some(Sent(2, num)))
    ensures num == MSG1 ==> said == Packet(header, p.messages[2])
    ensures num != MSG1 ==> said == Packet([], p.messages[2])
  {
  }

  lemma PacketStarts(neg: seq<byte>, msg: seq<byte>)
    requires |neg| == 0 || |neg| == NEG1
    requires |msg| < 0x1_0000
    ensures var m := Packet(neg, msg); |m| > 2 && m[0] == 0 && m[1] == |neg|
  {
  }

  /** A message that is not empty in its negotiation data is refused, in any pieces. */
  lemma {:induction false} OtherInPieces(p: Noise, r: Reading, m: seq<byte>, c: nat, pieces: seq<seq<byte>>)
    requires |m| > 2 && m[0] == 0 && m[1] == NEG1 && c < 2 && r.msgNum == MSG3 && Joined(pieces) == m[c..]
    requires r.negLen == (if c == 0 then NoLength else Length(0, true)) && ReadingOk(r) && r.input == []
    ensures Retried(p, r, pieces).n == ERROR
    decreases |pieces|
  {
    var d, now := pieces[0], c + |pieces[0]|;
    FirstPiece(m, c, pieces);
    assert r.input + d == d;
    if now < 2 {
      assert |d| > 0 ==> d[0] == m[c];
      OtherInPieces(p, GetMessage(p, r.(input := d)).after, m, now, pieces[1..]);
    } else {
      assert d[0] == m[c] && (c == 0 ==> d[1] == m[1]);
    }
  }

  /**
   The second message, in any pieces in which it is read: what the client sends is the third message unless
   the number of wakeups since the negotiation length is two modulo three. Then it sends its header again,
   and the server, in whatever pieces that arrives, ends with an error while the client is done.
   */
  lemma HeaderAgain(ms: seq<seq<byte>>, p: Noise, header: seq<byte>, own: seq<byte>, pieces: seq<seq<byte>>, later: seq<seq<byte>>)
    requires Spoken(ms, p, header) && Joined(pieces) == ms[1] && Beyond(4, 0, pieces) == |ms[1]|
    requires Joined(later) == SentBytes(p, header, Delivered(p, header, Client, ProcessPhase, Resting(1, []), pieces).said)
    ensures Delivered(p, header, Client, ProcessPhase, Resting(1, []), pieces).n == 0
    ensures Joined(later) == ms[2] <==> Moves(0, pieces) % 3 != 2
    ensures Moves(0, pieces) % 3 == 2 ==> Delivered(p, own, Server, ProcessPhase, Resting(2, []), later).n == ERROR
  {
    SecondInPieces(ms, p, header, pieces);
    if Moves(0, pieces) % 3 == 2 {
      var m := Joined(later);
      SpokenIsMessage(ms, p, header, 1);
      ClientInPieces(p, header, ms[1], pieces);
      RoundInThree(MSG2_OK, Moves(0, pieces));
      ThirdUnderFirst(ms, p, header, m);
      assert m[0..] == m;
      OtherInPieces(p, Resting(2, []), m, 0, later);
      DeliveredReads(p, own, Server, Resting(2, []), later);
    }
  }

  /** One cut, in these terms. */
  lemma OneCut(m: seq<byte>, c: nat)
    requires |m| > 4 && 0 < c < |m|
    ensures var pieces: seq<seq<byte>> := [m[..c], m[c..]];
            && Joined(pieces) == m && (Beyond(4, 0, pieces) == |m| <==> c <= 4)
            && (c <= 4 ==> Moves(0, pieces) == if c == 1 then 1 else 2)
  {
    var pieces: seq<seq<byte>> := [m[..c], m[c..]];
    assert pieces[1..] == [m[c..]];
    assert |pieces[1..][1..]| == 0;
    assert Joined(pieces[1..]) == m[c..] + Joined(pieces[1..][1..]) == m[c..];
    assert Joined(pieces) == m[..c] + m[c..] == m;
    assert Beyond(4, 0, pieces) == Beyond(4, c, pieces[1..]);
    assert c <= 4 ==> Beyond(4, c, pieces[1..]) == Beyond(4, |m|, []);
    assert Moves(0, pieces) == (if c >= 2 then 1 else 0) + Moves(c, pieces[1..]);
    assert c <= 4 ==> Moves(c, pieces[1..]) == 1 + Moves(|m|, []);
  }

  /** The second message cut once: the client is done exactly when the cut is at most 4 bytes in, and right exactly when it is 1. */
  lemma SecondCutOnce(ms: seq<seq<byte>>, p: Noise, header: seq<byte>, c: nat, pieces: seq<seq<byte>>)
    requires Spoken(ms, p, header) && 0 < c < |ms[1]| && pieces == [ms[1][..c], ms[1][c..]]
    ensures var w := Delivered(p, header, Client, ProcessPhase, Resting(1, []), pieces);
            && (w.n == 0 <==> c <= 4) && (SentBytes(p, header, w.said) == ms[2] <==> c == 1)
  {
    SpokenIsMessage(ms, p, header, 1);
    OneCut(ms[1], c);
    SecondInPieces(ms, p, header, pieces);
  }

  /** What the client says to the second message in any pieces. */
  lemma SecondInPieces(ms: seq<seq<byte>>, p: Noise, header: seq<byte>, pieces: seq<seq<byte>>)
    requires Spoken(ms, p, header) && Joined(pieces) == ms[1]
    ensures var w := Delivered(p, header, Client, ProcessPhase, Resting(1, []), pieces);
            && (w.n == 0 <==> Beyond(4, 0, pieces) == |ms[1]|)
            && (SentBytes(p, header, w.said) == ms[2] <==> Beyond(4, 0, pieces) == |ms[1]| && Moves(0, pieces) % 3 != 2)
  {
    SpokenIsMessage(ms, p, header, 1);
    SpokenIsMessage(ms, p, header, 2);
    ClientInPieces(p, header, ms[1], pieces);
    if Beyond(4, 0, pieces) == |ms[1]| {
      var num := MovedBy(MSG2_OK, Moves(0, pieces));
      RoundInThree(MSG2_OK, Moves(0, pieces));
      var said := SentBytes(p, header, Some(Sent(2, num)));
      if num != MSG1 {
        ThirdUnder(ms, p, header, num, said);
      } else {
        ThirdUnderFirst(ms, p, header, said);
      }
    }
  }

  // ----- The first message

  /** `m` is one first message with this header: length, header, length, Noise message. */
  predicate IsFirst(p: Noise, header: seq<byte>, m: seq<byte>) {
    && |header| == NEG1 && 10 < |m| < 0x1_0000 + 10 && m[0] == 0 && m[1] == NEG1 && m[2..8] == header
    && FromBe16(m[8], m[9]) == |m| - 10 && p.accepts(0, m[10..])
  }

  /** The server with `c` bytes of the length of the header. */
  function Awaiting(c: nat): Reading
    requires c <= 2
  {
    Reading(MSG1, if c == 0 then NoLength else if c == 1 then Length(0, true) else Length(NEG1, false), NoLength,
            if c < 2 then None else Some(Buffer(NEG1, [])), 0, [])
  }

  /** A header of which a part has been read in an earlier wakeup. */
  predicate HeaderCut(r: Reading) {
    r.negLen == Length(NEG1, false) && r.buf.Some? && r.buf.value.cap == NEG1 && 0 < |r.buf.value.bytes| <= NEG1
  }

  /** The server, past the header of the first message but not past the message. */
  predicate Stuck(r: Reading) {
    r.msgNum == MSG2_OK && r.negLen == Length(NEG1, false)
  }

  /** The wakeups that can no longer succeed. */
  predicate Lost(phase: Phase, r: Reading) {
    Going(r) && r.step == 0 && if phase.NonePhase? then HeaderCut(r) else phase.ProcessPhase? && Stuck(r)
  }

  /** A header in two parts is never complete: the server waits until the buffer is full, then fails. */
  lemma HeaderCutStays(p: Noise, own: seq<byte>, r: Reading)
    requires Lost(NonePhase, r)
    ensures var w := GetWake(p, own, Server, NonePhase, r);
            && w.said == None && w.n != 0
            && (w.n == ERROR <==> |r.buf.value.bytes| == NEG1)
            && (w.n == AGAIN ==> w.phase.NonePhase? && Lost(NonePhase, w.after))
            && (w.n == AGAIN ==> (|w.after.buf.value.bytes| == NEG1 <==> |r.buf.value.bytes| + |r.input| >= NEG1))
  {
  }

  lemma StuckStays(p: Noise, own: seq<byte>, r: Reading)
    requires Lost(ProcessPhase, r)
    ensures var w := GetWake(p, own, Server, ProcessPhase, r);
            w.said == None && w.n != 0 && (w.n == AGAIN ==> Lost(w.phase, w.after))
  {
    LoopReads(p, Server, r);
  }

  /** Nothing that arrives afterwards completes that message. */
  lemma {:induction false} LostForever(p: Noise, own: seq<byte>, phase: Phase, r: Reading, pieces: seq<seq<byte>>)
    requires Lost(phase, r)
    ensures var w := Delivered(p, own, Server, phase, r, pieces); w.n != 0 && w.said == None
    decreases |pieces|
  {
    if pieces != [] {
      var next := r.(input := r.input + pieces[0]);
      if phase.NonePhase? {
        HeaderCutStays(p, own, next);
      } else {
        StuckStays(p, own, next);
      }
      var w := GetWake(p, own, Server, phase, next);
      if w.n == AGAIN {
        LostForever(p, own, w.phase, w.after, pieces[1..]);
      }
    }
  }

  /** The header, of whose length `c` bytes were there before. */
  lemma HeaderPart(p: Noise, header: seq<byte>, m: seq<byte>, c: nat, d: seq<byte>)
    requires IsFirst(p, header, m) && c <= 2 && c + |d| <= |m| && d == m[c..c + |d|]
    ensures var g, now := GetHeader(Awaiting(c).(input := d)), c + |d|;
            if now <= 2 then g == HeaderGot(AGAIN, Awaiting(now), [])
            else if now < 8 then g == HeaderGot(AGAIN, Awaiting(2).(buf := Some(Buffer(NEG1, m[2..now]))), [])
            else g == HeaderGot(0, Awaiting(2).(buf := Some(Buffer(NEG1, header)), input := m[8..now]), header)
  {
    if c < 2 && |d| > 0 {
      assert d[0] == m[c];
    }
    if c + |d| >= 2 {
      if c == 0 {
        assert d[1] == m[1];
      }
      SliceBehind(m, c, d, 2);
      HeaderBody(m, m[2..c + |d|]);
    }
  }

  lemma HeaderBody(m: seq<byte>, e: seq<byte>)
    requires |m| > 10 && 2 + |e| <= |m| && e == m[2..2 + |e|]
    ensures forall b :: b == None || b == Some(Buffer(NEG1, [])) ==>
              var g := GetBody(Length(NEG1, false), b, e);
              if e == [] then g == BlockGot(AGAIN, Length(NEG1, false), Some(Buffer(NEG1, [])), [])
              else if |e| < NEG1 then g == BlockGot(AGAIN, Length(NEG1, false), Some(Buffer(NEG1, e)), [])
              else g == BlockGot(NEG1, Length(NEG1, false), Some(Buffer(NEG1, m[2..8])), m[8..2 + |e|])
  {
    assert [] + e == e && e[..|e|] == e;
    if |e| >= NEG1 {
      assert [] + e[..NEG1] == m[2..8] && e[NEG1..] == m[8..2 + |e|];
    }
  }

  /** The Noise message behind the header, in one wakeup with the end of the header. */
  lemma FirstPart(p: Noise, header: seq<byte>, m: seq<byte>, now: nat)
    requires IsFirst(p, header, m) && 8 <= now <= |m|
    ensures var w := GetProcess(p, Server, Awaiting(2).(buf := None, input := m[8..now]));
            if now == |m| then w == Woken(AGAIN, ProcessPhase, Resting(2, []), Some(Sent(1, MSG2_OK)))
            else w.n == AGAIN && w.said == None && Lost(w.phase, w.after)
  {
    var r := Awaiting(2).(buf := None, input := m[8..now]);
    LoopReads(p, Server, r);
    if now == |m| {
      BehindHeader(m);
      FirstArrived(p, r);
      ServerReplies(p, Resting(1, []));
    } else {
      NotBehindHeader(p, m, now);
    }
  }

  /** One wakeup of the server with the next piece, of which `c` bytes of the header's length were there before. */
  lemma FirstWake(p: Noise, header: seq<byte>, own: seq<byte>, m: seq<byte>, c: nat, d: seq<byte>, w: Woken)
    requires IsFirst(p, header, m) && p.supports(header) && c <= 2 && c + |d| <= |m| && d == m[c..c + |d|]
    requires w == GetWake(p, own, Server, NonePhase, Awaiting(c).(input := d))
    ensures var now := c + |d|;
            if now <= 2 then w == Woken(AGAIN, NonePhase, Awaiting(now), None)
            else if now >= 8 && !VersionOk(header) then w.n == ERROR && w.said == Some(Sent(0, MSG2_ERR))
            else if now == |m| then w == Woken(AGAIN, ProcessPhase, Resting(2, []), Some(Sent(1, MSG2_OK)))
            else w.n == AGAIN && w.said == None && Lost(w.phase, w.after)
  {
    var r := Awaiting(c).(input := d);
    var h := GetHeader(r);
    HeaderPart(p, header, m, c, d);
    WakeHeader(p, own, r, h);
    if c + |d| >= 8 {
      FirstPart(p, header, m, c + |d|);
    }
  }

  lemma WakeHeader(p: Noise, own: seq<byte>, r: Reading, h: HeaderGot)
    requires Going(r) && r.step == 0 && h == GetHeader(r)
    ensures var w := GetWake(p, own, Server, NonePhase, r);
            && (h.n != 0 ==> w == Woken(h.n, NonePhase, h.after, None))
            && (h.n == 0 && !VersionOk(h.offered) ==> w.n == ERROR && w.said == Some(Sent(0, MSG2_ERR)))
            && (h.n == 0 && VersionOk(h.offered) && p.supports(h.offered) ==> w == GetProcess(p, Server, h.after.(buf := None)))
  {
  }

  lemma BehindHeader(m: seq<byte>)
    requires |m| > 10 && FromBe16(m[8], m[9]) == |m| - 10
    ensures Whole(m[8..]) && Block(m[8..]) == m[10..] && After(m[8..]) == []
    ensures m[8..|m|] == m[8..]
  {
    var e := m[8..];
    assert e[0] == m[8] && e[1] == m[9];
    assert Size(e) == |m| - 10;
  }

  lemma NotBehindHeader(p: Noise, m: seq<byte>, now: nat)
    requires 10 < |m| && 8 <= now < |m| && FromBe16(m[8], m[9]) == |m| - 10
    ensures var g := GetMessage(p, Awaiting(2).(buf := None, input := m[8..now])); g.n == AGAIN && Stuck(g.after)
  {
    if now >= 10 {
      var e := m[8..now];
      assert e[0] == m[8] && e[1] == m[9];
    }
  }

  /** A cut inside the header: the server waits for the rest, waits once more with all of it there, and fails. */
  lemma CutInHeader(p: Noise, header: seq<byte>, own: seq<byte>, m: seq<byte>, c: nat)
    requires IsFirst(p, header, m) && 2 < c < 8
    ensures var w := GetWake(p, own, Server, NonePhase, Awaiting(0).(input := m[..c]));
            && w.n == AGAIN && w.phase.NonePhase? && w.after.input == []
            && var w' := GetWake(p, own, Server, NonePhase, w.after.(input := m[c..]));
            && w'.n == AGAIN && w'.phase.NonePhase?
            && forall more :: GetWake(p, own, Server, NonePhase, w'.after.(input := w'.after.input + more)).n == ERROR
  {
    assert m[..c] == m[0..0 + c];
    HeaderPart(p, header, m, 0, m[..c]);
    var r := Awaiting(2).(buf := Some(Buffer(NEG1, m[2..c])));
    HeaderCutStays(p, own, r.(input := m[c..]));
    var w := GetWake(p, own, Server, NonePhase, r.(input := m[c..]));
    forall more: seq<byte>
      ensures GetWake(p, own, Server, NonePhase, w.after.(input := w.after.input + more)).n == ERROR
    {
      HeaderCutStays(p, own, w.after.(input := w.after.input + more));
    }
  }

  /** What the server makes of a first message of `size` bytes of which `first` arrive with the header. */
  predicate Answered(header: seq<byte>, size: nat, first: nat, w: Woken) {
    if first >= 8 && !VersionOk(header) then w.n == ERROR && w.said == Some(Sent(0, MSG2_ERR))
    else if first == size then w == Woken(AGAIN, ProcessPhase, Resting(2, []), Some(Sent(1, MSG2_OK)))
    else w.n != 0 && w.said == None
  }

  /** A piece that ends inside or right behind the length of the header changes nothing. */
  lemma FirstWaits(p: Noise, header: seq<byte>, own: seq<byte>, m: seq<byte>, c: nat, all: seq<seq<byte>>)
    requires IsFirst(p, header, m) && p.supports(header) && all != []
    requires c + |all[0]| <= 2 && all[0] == m[c..c + |all[0]|]
    ensures Delivered(p, own, Server, NonePhase, Awaiting(c), all) ==
            Delivered(p, own, Server, NonePhase, Awaiting(c + |all[0]|), all[1..])
  {
    var d := all[0];
    assert [] + d == d;
    FirstWake(p, header, own, m, c, d, GetWake(p, own, Server, NonePhase, Awaiting(c).(input := d)));
  }

  /** The piece that goes beyond it decides. */
  lemma FirstDecides(p: Noise, header: seq<byte>, own: seq<byte>, m: seq<byte>, c: nat, all: seq<seq<byte>>)
    requires IsFirst(p, header, m) && p.supports(header) && all != [] && c <= 2
    requires 2 < c + |all[0]| <= |m| && all[0] == m[c..c + |all[0]|]
    ensures Answered(header, |m|, c + |all[0]|, Delivered(p, own, Server, NonePhase, Awaiting(c), all))
  {
    var d := all[0];
    assert [] + d == d;
    var w := GetWake(p, own, Server, NonePhase, Awaiting(c).(input := d));
    FirstWake(p, header, own, m, c, d, w);
    if w.n == AGAIN && w.said == None {
      LostForever(p, own, w.phase, w.after, all[1..]);
    }
  }

  /**
   The first message in any pieces, and anything behind it: the server answers exactly when the piece that
   goes beyond the length of the header brings all the rest, refuses a version it does not speak exactly
   when that piece brings the header, and otherwise says nothing, whatever arrives later.
   */
  lemma {:induction false} FirstInPieces(p: Noise, header: seq<byte>, own: seq<byte>, m: seq<byte>, c: nat,
                                         pieces: seq<seq<byte>>, later: seq<seq<byte>>)
    requires IsFirst(p, header, m) && p.supports(header) && c <= 2 && Joined(pieces) == m[c..]
    ensures Answered(header, |m|, Beyond(2, c, pieces), Delivered(p, own, Server, NonePhase, Awaiting(c), pieces + later))
    decreases |pieces|
  {
    var all, now := pieces + later, c + |pieces[0]|;
    FirstPiece(m, c, pieces);
    assert all[0] == pieces[0] && all[1..] == pieces[1..] + later;
    if now <= 2 {
      FirstWaits(p, header, own, m, c, all);
      FirstInPieces(p, header, own, m, now, pieces[1..], later);
    } else {
      FirstDecides(p, header, own, m, c, all);
      assert Beyond(2, now, pieces[1..]) == now;
    }
  }

  /** The first message of a handshake has that form. */
  lemma SpokenIsFirst(ms: seq<seq<byte>>, p: Noise, header: seq<byte>)
    requires Spoken(ms, p, header)
    ensures IsFirst(p, header, ms[0]) && Awaiting(0) == Resting(0, []) && ms[0][0..] == ms[0]
  {
    assert At(0);
    var m, msg := ms[0], p.messages[0];
    assert m == Be16(NEG1) + header + (Be16(|msg|) + msg);
    assert m[2..8] == header && m[10..] == msg;
    assert m[8] == Be16(|msg|)[0] && m[9] == Be16(|msg|)[1];
  }

  /**
   A whole handshake whose three messages arrive in any pieces, each side woken for every piece: both sides
   are done exactly when the first message is cut at most inside or right behind the length of its header,
   the others at most inside or right behind their length fields, and the wakeups of the client since the
   negotiation length of the second are not two modulo three.
   */
  lemma SurvivesCuts(ms: seq<seq<byte>>, p: Noise, header: seq<byte>, own: seq<byte>,
                     first: seq<seq<byte>>, second: seq<seq<byte>>, third: seq<seq<byte>>)
    requires Spoken(ms, p, header) && VersionOk(header) && p.supports(header)
    requires Joined(first) == ms[0] && Joined(second) == ms[1]
    requires Joined(third) == SentBytes(p, header, Delivered(p, header, Client, ProcessPhase, Resting(1, []), second).said)
    ensures var reply := Delivered(p, own, Server, NonePhase, Resting(0, []), first);
            var client := Delivered(p, header, Client, ProcessPhase, Resting(1, []), second);
            var server := Delivered(p, own, Server, reply.phase, reply.after, third);
            reply.said == Some(Sent(1, MSG2_OK)) && client.n == 0 && server.n == 0 <==>
            && Beyond(2, 0, first) == |ms[0]|
            && Beyond(4, 0, second) == |ms[1]| && Moves(0, second) % 3 != 2
            && Beyond(4, 0, third) == |ms[2]|
  {
    ServerReplied(ms, p, header, own, first);
    SpokenIsMessage(ms, p, header, 1);
    ClientInPieces(p, header, ms[1], second);
    if Beyond(4, 0, second) == |ms[1]| {
      HeaderAgain(ms, p, header, own, second, third);
      if Moves(0, second) % 3 != 2 {
        SpokenIsMessage(ms, p, header, 2);
        ServerInPieces(p, own, ms[2], third);
      }
    }
  }

  lemma ServerReplied(ms: seq<seq<byte>>, p: Noise, header: seq<byte>, own: seq<byte>, first: seq<seq<byte>>)
    requires Spoken(ms, p, header) && VersionOk(header) && p.supports(header) && Joined(first) == ms[0]
    ensures var reply := Delivered(p, own, Server, NonePhase, Resting(0, []), first);
            if Beyond(2, 0, first) == |ms[0]| then reply == Woken(AGAIN, ProcessPhase, Resting(2, []), Some(Sent(1, MSG2_OK)))
            else reply.n != 0 && reply.said == None
  {
    SpokenIsFirst(ms, p, header);
    FirstInPieces(p, header, own, ms[0], 0, first, []);
    assert first + [] == first;
  }
}
