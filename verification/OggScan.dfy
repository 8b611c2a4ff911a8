/**
 The Ogg page scanner that finds the length of an Opus file (common/audio.go, lines 197-254),
 against the page layout of section 6 of RFC 3533. The reader is a byte string that fills
 whole reads, as an in-memory or file reader does.
 */
module OggScan {
  import opened Octets

  const HEADER := 27
  const CAPTURE: Bytes := [0x4F, 0x67, 0x67, 0x53]
  const TWO63 := 0x8000_0000_0000_0000
  const TWO64 := 0x1_0000_0000_0000_0000

  function LittleEndian(bs: Bytes): nat {
    if bs == [] then 0 else bs[0] + 256 * LittleEndian(bs[1..])
  }

  /** The 64-bit two's-complement reading. */
  function Signed(n: int): int {
    if n >= TWO63 then n - TWO64 else n
  }

  function Sum(bs: Bytes): nat {
    if bs == [] then 0 else bs[0] + Sum(bs[1..])
  }

  function Max(a: int, b: int): int {
    if b > a then b else a
  }

  predicate Captured(d: Bytes) {
    |d| >= 4 && d[..4] == CAPTURE
  }

  function Granule(d: Bytes): int
    requires |d| >= HEADER
  {
    Signed(LittleEndian(d[6..14]))
  }

  /** The rest of the input after skipping; a seek past the end leaves nothing to read. */
  function Skip(d: Bytes, n: nat): Bytes {
    if n <= |d| then d[n..] else []
  }

  /** The segment table of a captured page, if the input holds all of it. */
  predicate HasTable(d: Bytes)
    requires |d| >= HEADER
  {
    HEADER + d[26] <= |d|
  }

  function Table(d: Bytes): Bytes
    requires |d| >= HEADER && HasTable(d)
  {
    d[HEADER..HEADER + d[26]]
  }

  function PageEnd(d: Bytes): (n: nat)
    requires |d| >= HEADER && HasTable(d)
    ensures n >= HEADER
  {
    HEADER + d[26] + Sum(Table(d))
  }

  /** The loop on what is left to read, with the largest granule position so far. */
  function Scan(d: Bytes, total: int): int
    decreases |d|
  {
    if |d| < HEADER then total
    else if !Captured(d) then Scan(d[1..], total)
    else if !HasTable(d) then Max(total, Granule(d))
    else Scan(Skip(d, PageEnd(d)), Max(total, Granule(d)))
  }

  lemma SkipTwice(data: Bytes, pos: nat, n: nat)
    requires pos <= |data|
    ensures Skip(Skip(data, pos), n) == Skip(data, pos + n)
  {
  }

  /** Lines 239-242. */
  method PageSize(table: Bytes) returns (size: nat)
    ensures size == Sum(table)
  {
    size := 0;
    for k := 0 to |table|
      invariant size + Sum(table[k..]) == Sum(table)
    {
      assert table[k..][1..] == table[k + 1..];
      size := size + table[k];
    }
  }

  /** One pass of the loop over the page at the reader's position. */
  lemma Pass(data: Bytes, pos: nat, total: int)
    requires pos + HEADER <= |data|
    ensures var page := data[pos..];
            Scan(Skip(data, pos), total) ==
              if !Captured(page) then Scan(Skip(data, pos + 1), total)
              else if !HasTable(page) then Max(total, Granule(page))
              else Scan(Skip(data, pos + PageEnd(page)), Max(total, Granule(page)))
  {
    SkipTwice(data, pos, 1);
    var page := data[pos..];
    assert Skip(data, pos) == page;
    if HasTable(page) { SkipTwice(data, pos, PageEnd(page)); }
  }

  /** Lines 217-245: one pass, and how far it moves the reader; 0 ends the loop. */
  method ReadPage(data: Bytes, pos: nat, total: int) returns (total': int, step: nat)
    requires pos + HEADER <= |data|
    ensures Scan(Skip(data, pos), total) == if step == 0 then total' else Scan(Skip(data, pos + step), total')
  {
    Pass(data, pos, total);
    var page := data[pos..];
    if !Captured(page) {
      return total, 1;
    }
    total' := Max(total, Granule(page));
    if !HasTable(page) {
      return total', 0;
    }
    var size := PageSize(Table(page));
    step := HEADER + page[26] + size;
  }

  /** Lines 206-249. Every pass moves the position forward, so the loop ends on every input. */
  method LargestGranule(data: Bytes) returns (total: int)
    ensures total == Scan(data, 0)
  {
    total := 0;
    var pos := 0;
    while pos + HEADER <= |data|
      invariant 0 <= pos && Scan(Skip(data, pos), total) == Scan(data, 0)
      decreases |data| - pos
    {
      var step;
      total, step := ReadPage(data, pos, total);
      if step == 0 { return; }
      pos := pos + step;
    }
  }

  /** Lines 251-253: Opus always runs at 48 kHz. */
  method OpusDuration(data: Bytes) returns (duration: real)
    ensures duration * 48000.0 == Scan(data, 0) as real
  {
    var total := LargestGranule(data);
    duration := total as real / 48000.0;
  }

  // ---------- pages ----------

  /** A page: the fields between the capture pattern and the segment table, and the body the
      table announces. */
  datatype Page = Page(
    version: Byte, flags: Byte, granule: int, serial: Bytes, number: Bytes, checksum: Bytes,
    segments: Bytes, body: Bytes)

  predicate WellFormed(p: Page) {
    && -TWO63 <= p.granule < TWO63
    && |p.serial| == 4 && |p.number| == 4 && |p.checksum| == 4
    && |p.segments| <= 255 && |p.body| == Sum(p.segments)
  }

  function ToLittleEndian(n: nat, width: nat): (bs: Bytes)
    ensures |bs| == width
  {
    if width == 0 then [] else [n % 256] + ToLittleEndian(n / 256, width - 1)
  }

  function Unsigned(n: int): int {
    if n < 0 then n + TWO64 else n
  }

  function Header(p: Page): (h: Bytes)
    requires WellFormed(p)
    ensures |h| == HEADER
  {
    CAPTURE + [p.version, p.flags] + ToLittleEndian(Unsigned(p.granule), 8)
    + p.serial + p.number + p.checksum + [|p.segments|]
  }

  function Encode(p: Page): Bytes
    requires WellFormed(p)
  {
    Header(p) + p.segments + p.body
  }

  function Power(width: nat): nat {
    if width == 0 then 1 else 256 * Power(width - 1)
  }

  lemma {:induction false} LittleEndianRoundTrip(n: nat, width: nat)
    requires n < Power(width)
    ensures LittleEndian(ToLittleEndian(n, width)) == n
  {
    if width > 0 {
      LittleEndianRoundTrip(n / 256, width - 1);
      assert ToLittleEndian(n, width)[1..] == ToLittleEndian(n / 256, width - 1);
    }
  }

  /** A byte further on weighs 256 times as much, and the segment lengths of a table add up. */
  lemma {:induction false} BytesWeigh(bs: Bytes, b: Byte)
    ensures LittleEndian(bs + [b]) == LittleEndian(bs) + Power(|bs|) * b
    ensures Sum(bs + [b]) == Sum(bs) + b
  {
    if bs != [] {
      BytesWeigh(bs[1..], b);
      assert (bs + [b])[1..] == bs[1..] + [b];
      var rest := Power(|bs| - 1) * b;
      assert 256 * rest == Power(|bs|) * b;
    }
  }

  lemma EightBytes()
    ensures Power(8) == TWO64
  {
    assert Power(2) == 65536;
    assert Power(4) == 65536 * 65536;
    assert Power(6) == 65536 * 65536 * 65536;
  }

  lemma HeaderFields(p: Page)
    requires WellFormed(p)
    ensures var h := Header(p);
            h[..4] == CAPTURE && h[6..14] == ToLittleEndian(Unsigned(p.granule), 8) && h[26] == |p.segments|
  {
    var granule := ToLittleEndian(Unsigned(p.granule), 8);
    var head := CAPTURE + [p.version, p.flags];
    var tail := p.serial + p.number + p.checksum;
    HeaderLayout(head, granule, tail, |p.segments|);
    assert Header(p) == head + granule + tail + [|p.segments|];
    assert (head + granule + tail + [|p.segments|])[..4] == head[..4] == CAPTURE;
  }

  lemma HeaderLayout(head: Bytes, granule: Bytes, tail: Bytes, count: Byte)
    requires |head| == 6 && |granule| == 8 && |tail| == 12
    ensures var h := head + granule + tail + [count]; |h| == 27 && h[6..14] == granule && h[26] == count
  {
  }

  lemma GranuleRoundTrip(p: Page, rest: Bytes)
    requires WellFormed(p)
    ensures Captured(Header(p) + rest) && Granule(Header(p) + rest) == p.granule
    ensures (Header(p) + rest)[26] == |p.segments|
  {
    HeaderFields(p);
    EightBytes();
    var d := Header(p) + rest;
    assert d[..4] == Header(p)[..4];
    assert d[6..14] == Header(p)[6..14];
    LittleEndianRoundTrip(Unsigned(p.granule), 8);
  }

  /** A well-formed page is read whole and skipped whole. */
  lemma PageStep(p: Page, rest: Bytes, total: int)
    requires WellFormed(p)
    ensures Scan(Encode(p) + rest, total) == Scan(rest, Max(total, p.granule))
  {
    var tail := p.segments + p.body + rest;
    var d := Encode(p) + rest;
    assert d == Header(p) + tail;
    GranuleRoundTrip(p, tail);
    assert Table(d) == p.segments;
    assert Skip(d, HEADER + |p.segments| + |p.body|) == rest;
  }

  // ---------- streams ----------

  /** Bytes that start no page, then a page. */
  datatype Part = Part(junk: Bytes, page: Page)

  predicate PagesOk(parts: seq<Part>) {
    forall i :: 0 <= i < |parts| ==> WellFormed(parts[i].page)
  }

  function Stream(parts: seq<Part>, tail: Bytes): Bytes
    requires PagesOk(parts)
  {
    if parts == [] then tail else parts[0].junk + Encode(parts[0].page) + Stream(parts[1..], tail)
  }

  /** No capture pattern starts in the first `n` bytes. */
  ghost predicate Quiet(d: Bytes, n: nat) {
    forall i :: 0 <= i < n && i <= |d| ==> !Captured(d[i..])
  }

  ghost predicate QuietBetween(parts: seq<Part>, tail: Bytes)
    requires PagesOk(parts)
  {
    if parts == [] then Quiet(tail, |tail|)
    else Quiet(Stream(parts, tail), |parts[0].junk|) && QuietBetween(parts[1..], tail)
  }

  function Largest(parts: seq<Part>, total: int): int {
    if parts == [] then total else Largest(parts[1..], Max(total, parts[0].page.granule))
  }

  lemma {:induction false} JunkSkipped(junk: Bytes, rest: Bytes, total: int)
    requires Quiet(junk + rest, |junk|) && |rest| >= HEADER
    ensures Scan(junk + rest, total) == Scan(rest, total)
  {
    if junk == [] {
      assert junk + rest == rest;
    } else {
      var d := junk + rest;
      assert d[0..] == d;
      assert d[1..] == junk[1..] + rest;
      forall i | 0 <= i < |junk| - 1 && i <= |d[1..]| ensures !Captured(d[1..][i..]) {
        assert d[1..][i..] == d[i + 1..];
      }
      JunkSkipped(junk[1..], rest, total);
    }
  }

  lemma {:induction false} TailSilent(tail: Bytes, total: int)
    requires Quiet(tail, |tail|)
    ensures Scan(tail, total) == total
  {
    if |tail| >= HEADER {
      assert tail[0..] == tail;
      forall i | 0 <= i < |tail[1..]| ensures !Captured(tail[1..][i..]) {
        assert tail[1..][i..] == tail[i + 1..];
      }
      TailSilent(tail[1..], total);
    }
  }

  /** Pages with arbitrary other bytes before, between and after them, as long as no capture
      pattern starts in those: the scanner resynchronises and returns the largest granule
      position, or the starting value. */
  lemma {:induction false} StreamScan(parts: seq<Part>, tail: Bytes, total: int)
    requires PagesOk(parts) && QuietBetween(parts, tail)
    ensures Scan(Stream(parts, tail), total) == Largest(parts, total)
  {
    if parts == [] {
      TailSilent(tail, total);
    } else {
      var p, rest := parts[0].page, Stream(parts[1..], tail);
      assert Stream(parts, tail) == parts[0].junk + (Encode(p) + rest);
      JunkSkipped(parts[0].junk, Encode(p) + rest, total);
      PageStep(p, rest, total);
      StreamScan(parts[1..], tail, Max(total, p.granule));
    }
  }

  lemma {:induction false} LargestFacts(parts: seq<Part>, total: int)
    ensures Largest(parts, total) >= total
    ensures forall i :: 0 <= i < |parts| ==> parts[i].page.granule <= Largest(parts, total)
    ensures Largest(parts, total) == total || exists i :: 0 <= i < |parts| && parts[i].page.granule == Largest(parts, total)
  {
    if parts != [] {
      var t := Max(total, parts[0].page.granule);
      LargestFacts(parts[1..], t);
      assert forall i :: 1 <= i < |parts| ==> parts[i] == parts[1..][i - 1];
      if Largest(parts[1..], t) != t {
        var i :| 0 <= i < |parts[1..]| && parts[1..][i].page.granule == Largest(parts[1..], t);
        assert parts[i + 1].page.granule == Largest(parts, total);
      }
    }
  }

  /** The scanner's answer for such a stream is the maximum of 0 and all granule positions. */
  lemma OpusLength(parts: seq<Part>, tail: Bytes)
    requires PagesOk(parts) && QuietBetween(parts, tail)
    ensures var m := Scan(Stream(parts, tail), 0);
            && m >= 0 && (forall i :: 0 <= i < |parts| ==> parts[i].page.granule <= m)
            && (m == 0 || exists i :: 0 <= i < |parts| && parts[i].page.granule == m)
  {
    StreamScan(parts, tail, 0);
    LargestFacts(parts, 0);
  }

  /** Some capture pattern with a full header behind it carries granule position `g`. */
  ghost predicate Carries(d: Bytes, g: int) {
    exists i :: 0 <= i && i + HEADER <= |d| && Captured(d[i..]) && Granule(d[i..]) == g
  }

  lemma CarriesLater(d: Bytes, n: nat, g: int)
    requires n <= |d| && Carries(d[n..], g)
    ensures Carries(d, g)
  {
    var i :| 0 <= i && i + HEADER <= |d[n..]| && Captured(d[n..][i..]) && Granule(d[n..][i..]) == g;
    assert d[n..][i..] == d[n + i..];
  }

  /** On any bytes at all, the answer is the starting value or was read from a captured header. */
  lemma {:induction false} NeverInvented(d: Bytes, total: int)
    ensures Scan(d, total) >= total && (Scan(d, total) == total || Carries(d, Scan(d, total)))
    decreases |d|
  {
    if |d| >= HEADER {
      if !Captured(d) {
        NeverInvented(d[1..], total);
        if Scan(d, total) != total { CarriesLater(d, 1, Scan(d, total)); }
      } else {
        assert d[0..] == d;
        assert Carries(d, Granule(d));
        if HasTable(d) {
          var t := Max(total, Granule(d));
          NeverInvented(Skip(d, PageEnd(d)), t);
          if Scan(d, total) != t { CarriesLater(d, PageEnd(d), Scan(d, total)); }
        }
      }
    }
  }
}
