/**
 The time-to-first-token tracker of the channel test (controller/channel-test.go, lines
 47-93): it sees a stream in arbitrary chunks and looks for the first complete `data:` line
 that carries something. Trimming and judging a payload are parameters.
 */
module TtftTracker {
  import opened Wrappers
  import opened Octets

  const LIMIT := 32768
  const NEWLINE: Byte := 10
  const DATA: Bytes := [0x64, 0x61, 0x74, 0x61, 0x3A]

  datatype Judge = Judge(trim: Bytes -> Bytes, meaningful: Bytes -> bool)

  predicate Fires(judge: Judge, line: Bytes) {
    var t := judge.trim(line);
    DATA <= t && judge.meaningful(judge.trim(t[|DATA|..]))
  }

  /** Index of the first newline, or -1. */
  function FirstNewline(b: Bytes): (k: int)
    ensures k == -1 ==> NEWLINE !in b
    ensures k != -1 ==> 0 <= k < |b| && b[k] == NEWLINE && NEWLINE !in b[..k]
  {
    if b == [] then -1
    else if b[0] == NEWLINE then 0
    else
      var k := FirstNewline(b[1..]);
      assert k >= 0 ==> b[..k + 1] == [b[0]] + b[1..][..k];
      if k == -1 then -1 else k + 1
  }

  /** The complete lines of a text, and what follows the last newline. */
  function Lines(s: Bytes): seq<Bytes>
    decreases |s|
  {
    var k := FirstNewline(s);
    if k < 0 then [] else [s[..k]] + Lines(s[k + 1..])
  }

  function Unfinished(s: Bytes): Bytes
    decreases |s|
  {
    var k := FirstNewline(s);
    if k < 0 then s else Unfinished(s[k + 1..])
  }

  predicate SomeFires(judge: Judge, lines: seq<Bytes>) {
    exists i | 0 <= i < |lines| :: Fires(judge, lines[i])
  }

  // ---------- the tracker ----------

  datatype State = State(buffer: Bytes, firstToken: Option<int>)

  function Kept(b: Bytes): Bytes {
    if |b| > LIMIT then b[|b| - LIMIT..] else b
  }

  /** The loop over a buffer: whether a line fired, and the buffer it leaves. */
  function Drain(judge: Judge, b: Bytes): (bool, Bytes)
    decreases |b|
  {
    var k := FirstNewline(b);
    if k < 0 then (false, b)
    else if Fires(judge, b[..k]) then (true, b[k + 1..])
    else Drain(judge, b[k + 1..])
  }

  function Observed(judge: Judge, st: State, data: Bytes, now: int): State {
    if st.firstToken.Some? || data == [] then st
    else
      var (fired, rest) := Drain(judge, Kept(st.buffer + data));
      State(rest, if fired then Some(now) else None)
  }

  /** Lines 65-81: the loop. */
  method DrainBuffer(judge: Judge, b: Bytes) returns (fired: bool, rest: Bytes)
    ensures (fired, rest) == Drain(judge, b)
  {
    rest := b;
    while true
      invariant Drain(judge, rest) == Drain(judge, b)
      decreases |rest|
    {
      var newline := FirstNewline(rest);
      if newline < 0 { return false, rest; }
      var line := rest[..newline];
      if Fires(judge, line) { return true, rest[newline + 1..]; }
      rest := rest[newline + 1..];
    }
  }

  class Tracker {
    const judge: Judge
    const startedAt: int
    var buffer: Bytes
    var firstToken: Option<int>

    constructor (judge: Judge, startedAt: int)
      ensures this.judge == judge && this.startedAt == startedAt && buffer == [] && firstToken == None
    {
      this.judge, this.startedAt := judge, startedAt;
      buffer, firstToken := [], None;
    }

    /** Lines 57-82. */
    method Observe(data: Bytes, now: int)
      modifies this
      ensures State(buffer, firstToken) == Observed(judge, State(old(buffer), old(firstToken)), data, now)
    {
      if firstToken.Some? || data == [] { return; }
      var grown := buffer + data;
      if |grown| > LIMIT { grown := grown[|grown| - LIMIT..]; }
      assert grown == Kept(buffer + data);
      var fired, rest := DrainBuffer(judge, grown);
      buffer := rest;
      if fired { firstToken := Some(now); }
    }

    /** Lines 84-93: milliseconds to the first token, never negative. Times are nanoseconds. */
    method Value() returns (ms: Option<int>)
      ensures ms.Some? <==> firstToken.Some?
      ensures ms.Some? && firstToken.value <= startedAt ==> ms.value == 0
      ensures ms.Some? && firstToken.value >= startedAt ==>
                ms.value >= 0 && 0 <= firstToken.value - startedAt - ms.value * 1_000_000 < 1_000_000
    {
      if firstToken.None? { return None; }
      var elapsed := firstToken.value - startedAt;
      var value := if elapsed >= 0 then elapsed / 1_000_000 else -((-elapsed) / 1_000_000);
      if value < 0 { value := 0; }
      return Some(value);
    }
  }

  // ---------- chunks against the whole stream ----------

  datatype Chunk = Chunk(data: Bytes, at: int)

  function Text(chunks: seq<Chunk>): Bytes {
    if chunks == [] then [] else Text(chunks[..|chunks| - 1]) + chunks[|chunks| - 1].data
  }

  function Run(judge: Judge, chunks: seq<Chunk>): State {
    if chunks == [] then State([], None)
    else Observed(judge, Run(judge, chunks[..|chunks| - 1]), chunks[|chunks| - 1].data, chunks[|chunks| - 1].at)
  }

  lemma {:induction false} FirstNewlineIs(b: Bytes, k: nat)
    requires k < |b| && b[k] == NEWLINE && NEWLINE !in b[..k]
    ensures FirstNewline(b) == k
  {
    if k > 0 {
      assert b[0] == b[..k][0];
      assert b[1..][..k - 1] == b[..k][1..];
      FirstNewlineIs(b[1..], k - 1);
    }
  }

  lemma LinesAt(s: Bytes, p: Bytes, rest: Bytes)
    requires s == p + [NEWLINE] + rest && NEWLINE !in p
    ensures FirstNewline(s) == |p| && Lines(s) == [p] + Lines(rest) && Unfinished(s) == Unfinished(rest)
  {
    assert s[..|p|] == p && s[|p| + 1..] == rest;
    FirstNewlineIs(s, |p|);
  }

  /** Cutting a text anywhere: the lines of the whole are the lines of the first part, then those
      of its unfinished line continued. */
  lemma {:induction false} LinesOfConcat(a: Bytes, b: Bytes)
    ensures Lines(a + b) == Lines(a) + Lines(Unfinished(a) + b)
    ensures Unfinished(a + b) == Unfinished(Unfinished(a) + b)
    decreases |a|
  {
    var k := FirstNewline(a);
    if k >= 0 {
      var p, rest := a[..k], a[k + 1..];
      assert a == p + [NEWLINE] + rest;
      assert a + b == p + [NEWLINE] + (rest + b);
      LinesAt(a, p, rest);
      LinesAt(a + b, p, rest + b);
      LinesOfConcat(rest, b);
    }
  }

  /** Draining a buffer fires exactly when one of its complete lines does, and otherwise leaves
      its unfinished line. */
  lemma {:induction false} DrainIsBatch(judge: Judge, b: Bytes)
    ensures Drain(judge, b).0 <==> SomeFires(judge, Lines(b))
    ensures !Drain(judge, b).0 ==> Drain(judge, b).1 == Unfinished(b)
    decreases |b|
  {
    var k := FirstNewline(b);
    if k >= 0 {
      DrainIsBatch(judge, b[k + 1..]);
      SomeFiresConcat(judge, [b[..k]], Lines(b[k + 1..]));
      assert SomeFires(judge, [b[..k]]) <==> Fires(judge, b[..k]) by {
        assert [b[..k]][0] == b[..k];
      }
    }
  }

  lemma SomeFiresConcat(judge: Judge, a: seq<Bytes>, b: seq<Bytes>)
    ensures SomeFires(judge, a + b) <==> SomeFires(judge, a) || SomeFires(judge, b)
  {
    if SomeFires(judge, a) {
      var i :| 0 <= i < |a| && Fires(judge, a[i]);
      assert Fires(judge, (a + b)[i]);
    }
    if SomeFires(judge, b) {
      var i :| 0 <= i < |b| && Fires(judge, b[i]);
      assert Fires(judge, (a + b)[|a| + i]);
    }
    if SomeFires(judge, a + b) {
      var i :| 0 <= i < |a + b| && Fires(judge, (a + b)[i]);
      if i < |a| { assert Fires(judge, a[i]); } else { assert Fires(judge, b[i - |a|]); }
    }
  }

  /** Some complete line of what has arrived fires. */
  ghost predicate Heard(judge: Judge, chunks: seq<Chunk>) {
    SomeFires(judge, Lines(Text(chunks)))
  }

  /** What the last chunk completes: the unfinished line before it, and its bytes. */
  function Appended(chunks: seq<Chunk>): Bytes
    requires chunks != []
  {
    Unfinished(Text(chunks[..|chunks| - 1])) + chunks[|chunks| - 1].data
  }

  lemma LastChunk(judge: Judge, chunks: seq<Chunk>)
    requires chunks != []
    ensures var front := chunks[..|chunks| - 1];
            && (Heard(judge, chunks) <==> Heard(judge, front) || SomeFires(judge, Lines(Appended(chunks))))
            && Unfinished(Text(chunks)) == Unfinished(Appended(chunks))
  {
    var front, c := chunks[..|chunks| - 1], chunks[|chunks| - 1];
    LinesOfConcat(Text(front), c.data);
    SomeFiresConcat(judge, Lines(Text(front)), Lines(Appended(chunks)));
  }

  lemma {:induction false} UnfinishedHasNoLines(s: Bytes)
    ensures NEWLINE !in Unfinished(s) && Lines(Unfinished(s)) == [] && Unfinished(Unfinished(s)) == Unfinished(s)
    decreases |s|
  {
    var k := FirstNewline(s);
    if k >= 0 { UnfinishedHasNoLines(s[k + 1..]); }
  }

  // ---------- what the tracker does on any stream ----------

  lemma KeptTwice(a: Bytes, b: Bytes)
    ensures Kept(Kept(a) + b) == Kept(a + b)
  {
  }

  lemma NoNewline(s: Bytes)
    requires NEWLINE !in s
    ensures Unfinished(s) == s && Lines(s) == []
  {
  }

  lemma CutInLine(head: Bytes, tail: Bytes)
    requires NEWLINE !in tail
    ensures Lines(head + tail) == Lines(head) && Unfinished(head + tail) == Unfinished(head) + tail
    ensures Lines(tail) == [] && Unfinished(tail) == tail
  {
    LinesOfConcat(head, tail);
    UnfinishedHasNoLines(head);
    NoNewline(Unfinished(head) + tail);
    NoNewline(tail);
  }

  lemma CutBeforeLine(head: Bytes, y: Bytes, z: Bytes)
    requires NEWLINE !in y
    ensures var tail, x := y + [NEWLINE] + z, Unfinished(head);
            && Lines(head + tail) == Lines(head) + ([x + y] + Lines(z)) && Unfinished(head + tail) == Unfinished(z)
            && Lines(tail) == [y] + Lines(z) && Unfinished(tail) == Unfinished(z)
  {
    var tail, x := y + [NEWLINE] + z, Unfinished(head);
    LinesOfConcat(head, tail);
    UnfinishedHasNoLines(head);
    assert x + tail == (x + y) + [NEWLINE] + z;
    LinesAt(x + tail, x + y, z);
    LinesAt(tail, y, z);
  }

  lemma SplitNewline(tail: Bytes)
    requires FirstNewline(tail) >= 0
    ensures var k := FirstNewline(tail); tail == tail[..k] + [NEWLINE] + tail[k + 1..]
  {
  }

  /** Cutting a text off its beginning cuts its unfinished line only if nothing else is left. */
  lemma KeptUnfinished(b: Bytes)
    ensures Unfinished(Kept(b)) == Kept(Unfinished(b))
  {
    if |b| > LIMIT {
      var cut := |b| - LIMIT;
      var head, tail := b[..cut], b[cut..];
      assert b == head + tail;
      var k := FirstNewline(tail);
      if k < 0 {
        CutInLine(head, tail);
        assert Kept(Unfinished(head) + tail) == tail;
      } else {
        SplitNewline(tail);
        CutBeforeLine(head, tail[..k], tail[k + 1..]);
        UnfinishedShorter(tail);
      }
    } else {
      UnfinishedShorter(b);
    }
  }

  lemma {:induction false} UnfinishedShorter(s: Bytes)
    ensures |Unfinished(s)| <= |s|
    decreases |s|
  {
    var k := FirstNewline(s);
    if k >= 0 { UnfinishedShorter(s[k + 1..]); }
  }

  /** On every stream: until it fires the tracker holds the last 32 KiB of the unfinished line. */
  lemma {:induction false} BufferIsKept(judge: Judge, chunks: seq<Chunk>)
    ensures Run(judge, chunks).firstToken.None? ==> Run(judge, chunks).buffer == Kept(Unfinished(Text(chunks)))
  {
    if chunks != [] {
      var front, c := chunks[..|chunks| - 1], chunks[|chunks| - 1];
      BufferIsKept(judge, front);
      LastChunk(judge, chunks);
      var b := Appended(chunks);
      KeptTwice(Unfinished(Text(front)), c.data);
      DrainIsBatch(judge, Kept(b));
      KeptUnfinished(b);
      if c.data == [] {
        assert b == Unfinished(Text(front));
        UnfinishedHasNoLines(Text(front));
      }
    }
  }

  /** On every stream: a tracker that has not fired fires at the next chunk exactly when a
      complete line of the last 32 KiB of what the chunk completes fires. */
  lemma FiresExactly(judge: Judge, chunks: seq<Chunk>)
    requires chunks != [] && Run(judge, chunks[..|chunks| - 1]).firstToken.None?
    ensures Run(judge, chunks).firstToken ==
            if SomeFires(judge, Lines(Kept(Appended(chunks)))) then Some(chunks[|chunks| - 1].at) else None
  {
    var front, c := chunks[..|chunks| - 1], chunks[|chunks| - 1];
    var u := Unfinished(Text(front));
    BufferIsKept(judge, front);
    KeptTwice(u, c.data);
    DrainIsBatch(judge, Kept(Appended(chunks)));
    if c.data == [] {
      assert Appended(chunks) == u;
      UnfinishedHasNoLines(Text(front));
      assert NEWLINE !in Kept(u);
      NoNewline(Kept(u));
    }
  }

  // ---------- when that is the batch answer ----------

  /** The part of an overlong text that is cut off, and the part that is kept. */
  function Off(b: Bytes): Bytes
    requires |b| > LIMIT
  {
    b[..|b| - LIMIT]
  }

  /** The complete lines that are lost when `tail` is kept, whole or in part. */
  function LostLines(head: Bytes, tail: Bytes): seq<Bytes> {
    var k := FirstNewline(tail);
    if k < 0 then Lines(head) else Lines(head) + [Unfinished(head) + tail[..k]]
  }

  /** What is left of the line that was cut. */
  function Remnant(tail: Bytes): seq<Bytes> {
    var k := FirstNewline(tail);
    if k < 0 then [] else [tail[..k]]
  }

  /** The lines behind it, which are whole. */
  function WholeLines(tail: Bytes): seq<Bytes> {
    var k := FirstNewline(tail);
    if k < 0 then [] else Lines(tail[k + 1..])
  }

  lemma Regroup(a: seq<Bytes>, b: seq<Bytes>, c: seq<Bytes>)
    ensures a + (b + c) == (a + b) + c
  {
  }

  lemma CutLines(head: Bytes, tail: Bytes)
    ensures Lines(head + tail) == LostLines(head, tail) + WholeLines(tail)
    ensures Lines(tail) == Remnant(tail) + WholeLines(tail)
  {
    var k := FirstNewline(tail);
    if k < 0 {
      CutInLine(head, tail);
    } else {
      SplitNewline(tail);
      CutBeforeLine(head, tail[..k], tail[k + 1..]);
      Regroup(Lines(head), [Unfinished(head) + tail[..k]], Lines(tail[k + 1..]));
    }
  }

  /** The text fits the buffer, or a line that stays whole fires, or the lost lines and the
      remnant of the cut one agree. */
  ghost predicate Right(judge: Judge, b: Bytes) {
    || |b| <= LIMIT
    || SomeFires(judge, WholeLines(Kept(b)))
    || (SomeFires(judge, LostLines(Off(b), Kept(b))) <==> SomeFires(judge, Remnant(Kept(b))))
  }

  lemma RightExact(judge: Judge, b: Bytes)
    ensures (SomeFires(judge, Lines(Kept(b))) <==> SomeFires(judge, Lines(b))) <==> Right(judge, b)
  {
    if |b| > LIMIT {
      assert b == Off(b) + Kept(b);
      CutLines(Off(b), Kept(b));
      SomeFiresConcat(judge, LostLines(Off(b), Kept(b)), WholeLines(Kept(b)));
      SomeFiresConcat(judge, Remnant(Kept(b)), WholeLines(Kept(b)));
    }
  }

  /** After every chunk so far the tracker has fired exactly if a complete line of the whole
      stream fires. */
  ghost predicate AlwaysAgrees(judge: Judge, chunks: seq<Chunk>) {
    && (Run(judge, chunks).firstToken.Some? <==> Heard(judge, chunks))
    && (chunks == [] || AlwaysAgrees(judge, chunks[..|chunks| - 1]))
  }

  /** Every chunk before the first firing line is decided right. */
  ghost predicate AllRight(judge: Judge, chunks: seq<Chunk>) {
    chunks != [] ==>
      && AllRight(judge, chunks[..|chunks| - 1])
      && (Heard(judge, chunks[..|chunks| - 1]) || Right(judge, Appended(chunks)))
  }

  /** However the stream is cut, the tracker agrees with the batch scan after every chunk exactly
      when every chunk before the first firing line is decided right. */
  lemma {:induction false} TrackerIsBatch(judge: Judge, chunks: seq<Chunk>)
    ensures AlwaysAgrees(judge, chunks) <==> AllRight(judge, chunks)
  {
    if chunks != [] {
      var front := chunks[..|chunks| - 1];
      TrackerIsBatch(judge, front);
      LastChunk(judge, chunks);
      RightExact(judge, Appended(chunks));
      if AlwaysAgrees(judge, front) && !Heard(judge, front) { FiresExactly(judge, chunks); }
    }
  }

  lemma {:induction false} AllRightPrefix(judge: Judge, chunks: seq<Chunk>, n: nat)
    requires AllRight(judge, chunks) && n <= |chunks|
    ensures AllRight(judge, chunks[..n])
  {
    if n < |chunks| {
      var front := chunks[..|chunks| - 1];
      AllRightPrefix(judge, front, n);
      assert front[..n] == chunks[..n];
    } else {
      assert chunks[..n] == chunks;
    }
  }

  lemma {:induction false} StaysFired(judge: Judge, chunks: seq<Chunk>, n: nat)
    requires n <= |chunks| && Run(judge, chunks[..n]).firstToken.Some?
    ensures Run(judge, chunks).firstToken == Run(judge, chunks[..n]).firstToken
  {
    if n < |chunks| {
      var front := chunks[..|chunks| - 1];
      assert front[..n] == chunks[..n];
      StaysFired(judge, front, n);
    } else {
      assert chunks[..n] == chunks;
    }
  }

  /** The recorded time is that of the first chunk that completes a firing line. */
  lemma FiresInFirstChunk(judge: Judge, chunks: seq<Chunk>, k: nat)
    requires AllRight(judge, chunks) && k < |chunks|
    requires Heard(judge, chunks[..k + 1]) && !Heard(judge, chunks[..k])
    ensures Run(judge, chunks).firstToken == Some(chunks[k].at)
  {
    var first := chunks[..k + 1];
    assert first[..|first| - 1] == chunks[..k];
    AllRightPrefix(judge, chunks, k + 1);
    TrackerIsBatch(judge, first);
    FiresExactly(judge, first);
    StaysFired(judge, chunks, k + 1);
  }

  /** Until something fires, no append pushes the buffer over the limit. */
  ghost predicate Fits(judge: Judge, chunks: seq<Chunk>) {
    chunks != [] ==>
      && Fits(judge, chunks[..|chunks| - 1])
      && (Heard(judge, chunks[..|chunks| - 1]) || |Appended(chunks)| <= LIMIT)
  }

  /** Streams that never overflow the buffer are decided right, and until something fires the
      buffer is the whole unfinished line. */
  lemma {:induction false} FittingStreams(judge: Judge, chunks: seq<Chunk>)
    requires Fits(judge, chunks)
    ensures AllRight(judge, chunks)
    ensures !Heard(judge, chunks) ==> Run(judge, chunks) == State(Unfinished(Text(chunks)), None)
  {
    if chunks != [] { FittingStreams(judge, chunks[..|chunks| - 1]); }
    TrackerIsBatch(judge, chunks);
    BufferIsKept(judge, chunks);
    if chunks != [] && !Heard(judge, chunks) {
      LastChunk(judge, chunks);
      UnfinishedShorter(Appended(chunks));
    }
  }

  // ---------- which lines are heard ----------

  /** The trimmed line begins with `data:`, in ASCII. */
  ghost predicate Event(judge: Judge, line: Bytes) {
    exists p :: judge.trim(line) == [0x64, 0x61, 0x74, 0x61, 0x3A] + p
  }

  /** And what follows means something once it is trimmed. */
  ghost predicate Carries(judge: Judge, line: Bytes) {
    exists p :: judge.trim(line) == [0x64, 0x61, 0x74, 0x61, 0x3A] + p && judge.meaningful(judge.trim(p))
  }

  ghost predicate SomeCarries(judge: Judge, lines: seq<Bytes>) {
    exists i :: 0 <= i < |lines| && Carries(judge, lines[i])
  }

  lemma CarriesExactly(judge: Judge, line: Bytes, p: Bytes)
    requires judge.trim(line) == [0x64, 0x61, 0x74, 0x61, 0x3A] + p
    ensures Carries(judge, line) <==> judge.meaningful(judge.trim(p))
    ensures Fires(judge, line) <==> Carries(judge, line)
  {
    var t := judge.trim(line);
    assert t[5..] == p;
    if Carries(judge, line) {
      var q :| t == [0x64, 0x61, 0x74, 0x61, 0x3A] + q && judge.meaningful(judge.trim(q));
      assert t[5..] == q;
    }
  }

  lemma CarriesFires(judge: Judge, lines: seq<Bytes>)
    ensures SomeFires(judge, lines) <==> SomeCarries(judge, lines)
  {
    forall i | 0 <= i < |lines| ensures Fires(judge, lines[i]) <==> Carries(judge, lines[i]) {
      var t := judge.trim(lines[i]);
      if Fires(judge, lines[i]) { assert t == DATA + t[5..]; }
      if Event(judge, lines[i]) {
        var p :| t == [0x64, 0x61, 0x74, 0x61, 0x3A] + p;
        CarriesExactly(judge, lines[i], p);
      }
    }
  }

  /** On every stream, which chunk a tracker that has not fired fires at, in words of the bytes:
      the one with a complete line in its last 32 KiB that carries something. */
  lemma HearsExactly(judge: Judge, chunks: seq<Chunk>)
    requires chunks != [] && Run(judge, chunks[..|chunks| - 1]).firstToken.None?
    ensures Run(judge, chunks).firstToken ==
            if SomeCarries(judge, Lines(Kept(Appended(chunks)))) then Some(chunks[|chunks| - 1].at) else None
  {
    FiresExactly(judge, chunks);
    CarriesFires(judge, Lines(Kept(Appended(chunks))));
  }

  /** A stream that fits the buffer has fired exactly when one of its complete lines carries
      something. */
  lemma HearsFittingStreams(judge: Judge, chunks: seq<Chunk>)
    requires Fits(judge, chunks)
    ensures Run(judge, chunks).firstToken.Some? <==> SomeCarries(judge, Lines(Text(chunks)))
  {
    FittingStreams(judge, chunks);
    TrackerIsBatch(judge, chunks);
    CarriesFires(judge, Lines(Text(chunks)));
  }

  /** One line in one chunk, short enough for the buffer. */
  lemma HearsOneLine(judge: Judge, line: Bytes, p: Bytes, t: int)
    requires NEWLINE !in line && |line| < LIMIT
    ensures var first := Run(judge, [Chunk(line + [NEWLINE], t)]).firstToken;
            && (!Event(judge, line) ==> first == None)
            && (judge.trim(line) == [0x64, 0x61, 0x74, 0x61, 0x3A] + p ==>
                  first == if judge.meaningful(judge.trim(p)) then Some(t) else None)
  {
    var c := Chunk(line + [NEWLINE], t);
    OneChunk(judge, c);
    OneLine(line);
    HearsExactly(judge, [c]);
    assert Lines(Kept(c.data)) == [line] && [line][0] == line;
    assert SomeCarries(judge, [line]) <==> Carries(judge, line);
    if judge.trim(line) == [0x64, 0x61, 0x74, 0x61, 0x3A] + p { CarriesExactly(judge, line, p); }
  }

  /** `s` is the end of one of the lines, or all of it. */
  ghost predicate EndsLine(lines: seq<Bytes>, s: Bytes) {
    exists j :: 0 <= j < |lines| && HasEnd(lines[j], s)
  }

  predicate HasEnd(line: Bytes, s: Bytes) {
    |s| <= |line| && line[|line| - |s|..] == s
  }

  lemma EndsConcat(a: seq<Bytes>, b: seq<Bytes>, s: Bytes)
    requires EndsLine(a, s) || EndsLine(b, s)
    ensures EndsLine(a + b, s)
  {
    if EndsLine(a, s) {
      var j :| 0 <= j < |a| && HasEnd(a[j], s);
      assert HasEnd((a + b)[j], s);
    } else {
      var j :| 0 <= j < |b| && HasEnd(b[j], s);
      assert HasEnd((a + b)[|a| + j], s);
    }
  }

  lemma RemnantEnds(head: Bytes, tail: Bytes)
    requires FirstNewline(tail) >= 0
    ensures EndsLine(LostLines(head, tail), Remnant(tail)[0])
  {
    var k := FirstNewline(tail);
    var lost := LostLines(head, tail);
    assert lost[|lost| - 1] == Unfinished(head) + tail[..k];
    assert HasEnd(lost[|lost| - 1], tail[..k]);
  }

  lemma EndsOfCut(lost: seq<Bytes>, remnant: seq<Bytes>, whole: seq<Bytes>, i: nat)
    requires |remnant| <= 1 && (remnant != [] ==> EndsLine(lost, remnant[0])) && i < |remnant + whole|
    ensures EndsLine(lost + whole, (remnant + whole)[i])
  {
    var s := (remnant + whole)[i];
    if i >= |remnant| {
      assert s == whole[i - |remnant|] && HasEnd(whole[i - |remnant|], s);
    }
    EndsConcat(lost, whole, s);
  }

  /** What is kept of a text has only ends of its lines as lines. */
  lemma CutEnds(head: Bytes, tail: Bytes, i: nat)
    requires i < |Lines(tail)|
    ensures EndsLine(Lines(head + tail), Lines(tail)[i])
  {
    CutLines(head, tail);
    if FirstNewline(tail) >= 0 { RemnantEnds(head, tail); }
    EndsOfCut(LostLines(head, tail), Remnant(tail), WholeLines(tail), i);
  }

  lemma KeptLines(b: Bytes, i: nat)
    requires i < |Lines(Kept(b))|
    ensures EndsLine(Lines(b), Lines(Kept(b))[i])
  {
    if |b| <= LIMIT {
      assert HasEnd(Lines(b)[i], Lines(b)[i]);
    } else {
      assert b == Off(b) + Kept(b);
      CutEnds(Off(b), Kept(b), i);
    }
  }

  lemma EndsAppended(chunks: seq<Chunk>, s: Bytes)
    requires chunks != []
    requires EndsLine(Lines(Appended(chunks)), s) || EndsLine(Lines(Text(chunks[..|chunks| - 1])), s)
    ensures EndsLine(Lines(Text(chunks)), s)
  {
    var front, c := chunks[..|chunks| - 1], chunks[|chunks| - 1];
    LinesOfConcat(Text(front), c.data);
    EndsConcat(Lines(Text(front)), Lines(Appended(chunks)), s);
  }

  /** On every stream and however it is cut, a tracker that fires has seen a complete line that
      carries something, or the end of one that does. A stream without `data:` at the start of
      a line or of the end of one never fires, whatever else it holds. */
  lemma {:induction false} NeverFromNothing(judge: Judge, chunks: seq<Chunk>)
    ensures Run(judge, chunks).firstToken.Some? ==> exists s :: EndsLine(Lines(Text(chunks)), s) && Carries(judge, s)
  {
    if chunks != [] && Run(judge, chunks).firstToken.Some? {
      var front := chunks[..|chunks| - 1];
      if Run(judge, front).firstToken.Some? {
        NeverFromNothing(judge, front);
        var s :| EndsLine(Lines(Text(front)), s) && Carries(judge, s);
        EndsAppended(chunks, s);
      } else {
        HearsExactly(judge, chunks);
        var lines := Lines(Kept(Appended(chunks)));
        var i :| 0 <= i < |lines| && Carries(judge, lines[i]);
        KeptLines(Appended(chunks), i);
        EndsAppended(chunks, lines[i]);
      }
    }
  }

  /** A stream that fits and has no event line never fires, for any judge of payloads. */
  lemma NoEventNoFire(judge: Judge, chunks: seq<Chunk>)
    requires Fits(judge, chunks) && forall i :: 0 <= i < |Lines(Text(chunks))| ==> !Event(judge, Lines(Text(chunks))[i])
    ensures Run(judge, chunks).firstToken == None
  {
    HearsFittingStreams(judge, chunks);
  }

  // ---------- the two ways to be wrong ----------

  lemma OneLine(p: Bytes)
    requires NEWLINE !in p
    ensures Lines(p + [NEWLINE]) == [p] && Lines(p) == [] && Unfinished(p) == p
  {
    var s := p + [NEWLINE];
    assert s[..|p|] == p && s[|p| + 1..] == [];
    FirstNewlineIs(s, |p|);
  }

  lemma TwoChunks(judge: Judge, a: Chunk, b: Chunk)
    ensures Text([a, b]) == a.data + b.data
    ensures Run(judge, [a, b]) == Observed(judge, Observed(judge, State([], None), a.data, a.at), b.data, b.at)
  {
    assert [a, b][..1] == [a] && [a][..0] == [];
    assert Text([a]) == a.data by { assert Text([]) + a.data == a.data; }
    assert Run(judge, [a]) == Observed(judge, State([], None), a.data, a.at);
  }

  lemma DrainOne(judge: Judge, p: Bytes)
    requires NEWLINE !in p
    ensures Drain(judge, p) == (false, p)
    ensures Drain(judge, p + [NEWLINE]).0 <==> Fires(judge, p)
  {
    OneLine(p);
    DrainIsBatch(judge, p + [NEWLINE]);
    assert [p][0] == p;
  }

  /** A line in two chunks whose first chunk falls out of the buffer: the tracker hears the rest
      of the line and not the line. */
  lemma CutLine(judge: Judge, start: Bytes, pad: Bytes, t1: int, t2: int)
    requires 0 < |start| <= LIMIT && |pad| == LIMIT - 1 && NEWLINE !in start && NEWLINE !in pad
    ensures var chunks := [Chunk(start, t1), Chunk(pad + [NEWLINE], t2)];
            && (Heard(judge, chunks) <==> Fires(judge, start + pad))
            && (Run(judge, chunks).firstToken == if Fires(judge, pad) then Some(t2) else None)
  {
    TwoChunks(judge, Chunk(start, t1), Chunk(pad + [NEWLINE], t2));
    assert start + (pad + [NEWLINE]) == (start + pad) + [NEWLINE];
    OneLine(start + pad);
    assert [start + pad][0] == start + pad;
    assert [] + start == start;
    DrainOne(judge, start);
    DrainOne(judge, pad);
    assert Kept(start + (pad + [NEWLINE])) == pad + [NEWLINE];
  }

  /** A `data:` line longer than the limit is missed: the append that completes it has already
      dropped its beginning. */
  lemma LongLineMissed(judge: Judge, pad: Bytes, t1: int, t2: int)
    requires |pad| == LIMIT - 1 && NEWLINE !in pad
    requires Fires(judge, DATA + pad) && !Fires(judge, pad)
    ensures var chunks := [Chunk(DATA, t1), Chunk(pad + [NEWLINE], t2)];
            Heard(judge, chunks) && Run(judge, chunks).firstToken == None
  {
    CutLine(judge, DATA, pad, t1, t2);
  }

  /** A line that does not fire, cut so that its rest begins with `data:`, is taken for one that
      does. */
  lemma FalseAlarm(judge: Judge, x: Byte, pad: Bytes, t1: int, t2: int)
    requires |DATA + pad| == LIMIT - 1 && x != NEWLINE && NEWLINE !in pad
    requires Fires(judge, DATA + pad) && !Fires(judge, [x] + (DATA + pad))
    ensures var chunks := [Chunk([x], t1), Chunk(DATA + pad + [NEWLINE], t2)];
            !Heard(judge, chunks) && Run(judge, chunks).firstToken == Some(t2)
  {
    CutLine(judge, [x], DATA + pad, t1, t2);
  }

  lemma OneChunk(judge: Judge, c: Chunk)
    ensures Text([c]) == c.data && Appended([c]) == c.data && Run(judge, [c][..|[c]| - 1]) == State([], None)
  {
    assert [c][..|[c]| - 1] == [];
    NoNewline([]);
    assert [] + c.data == c.data;
  }

  /** A short firing line at the start of one chunk is missed when 32 KiB follow it. */
  lemma ShortLineMissed(judge: Judge, line: Bytes, rest: Bytes, t: int)
    requires NEWLINE !in line && Fires(judge, line) && |rest| >= LIMIT && !SomeFires(judge, Lines(Kept(rest)))
    ensures var chunks := [Chunk(line + [NEWLINE] + rest, t)];
            Heard(judge, chunks) && Run(judge, chunks).firstToken == None
  {
    var text := line + [NEWLINE] + rest;
    OneChunk(judge, Chunk(text, t));
    FiresExactly(judge, [Chunk(text, t)]);
    KeptAfter(line + [NEWLINE], rest);
    LinesAt(text, line, rest);
    assert Lines(text)[0] == line;
  }

  lemma KeptAfter(a: Bytes, b: Bytes)
    requires |b| >= LIMIT
    ensures Kept(a + b) == Kept(b)
  {
  }
}
