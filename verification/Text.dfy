/** The string functions the channel code leans on: trimming, splitting and joining. */
module Text {

  /** White space as Go's unicode package defines it. */
  predicate IsSpace(c: char) {
    || '\t' <= c <= '\r' || c == ' ' || c == '\U{0085}' || c == '\U{00A0}' || c == '\U{1680}'
    || '\U{2000}' <= c <= '\U{200A}' || c == '\U{2028}' || c == '\U{2029}'
    || c == '\U{202F}' || c == '\U{205F}' || c == '\U{3000}'
  }

  function DropLeft(s: string, drop: char -> bool): string {
    if s != [] && drop(s[0]) then DropLeft(s[1..], drop) else s
  }

  function DropRight(s: string, drop: char -> bool): string {
    if s != [] && drop(s[|s| - 1]) then DropRight(s[..|s| - 1], drop) else s
  }

  function Trim(s: string, drop: char -> bool): string {
    DropRight(DropLeft(s, drop), drop)
  }

  function TrimSpace(s: string): string {
    Trim(s, IsSpace)
  }

  predicate Bare(s: string, drop: char -> bool) {
    s == [] || (!drop(s[0]) && !drop(s[|s| - 1]))
  }

  lemma {:induction false} DropLeftFacts(s: string, drop: char -> bool)
    ensures var t := DropLeft(s, drop); (t == [] || !drop(t[0])) && forall c :: c in t ==> c in s
  {
    if s != [] && drop(s[0]) { DropLeftFacts(s[1..], drop); }
  }

  lemma {:induction false} DropRightFacts(s: string, drop: char -> bool)
    ensures var t := DropRight(s, drop); (t == [] || !drop(t[|t| - 1])) && t <= s
  {
    if s != [] && drop(s[|s| - 1]) { DropRightFacts(s[..|s| - 1], drop); }
  }

  /** Trimming strips both ends, adds nothing, and is the identity on what it returns. */
  lemma TrimFacts(s: string, drop: char -> bool)
    ensures Bare(Trim(s, drop), drop)
    ensures forall c :: c in Trim(s, drop) ==> c in s
    ensures Bare(s, drop) ==> Trim(s, drop) == s
  {
    DropLeftFacts(s, drop);
    DropRightFacts(DropLeft(s, drop), drop);
  }

  /** Split around every occurrence of one character; the empty string has one empty part. */
  function Split(s: string, sep: char): (parts: seq<string>)
    ensures |parts| >= 1
  {
    if s == [] then [[]]
    else var rest := Split(s[1..], sep);
         if s[0] == sep then [[]] + rest else [[s[0]] + rest[0]] + rest[1..]
  }

  function Join(parts: seq<string>, sep: char): string {
    if parts == [] then [] else if |parts| == 1 then parts[0]
    else parts[0] + [sep] + Join(parts[1..], sep)
  }

  predicate Free(parts: seq<string>, sep: char) {
    forall i :: 0 <= i < |parts| ==> sep !in parts[i]
  }

  lemma {:induction false} SplitFree(s: string, sep: char)
    ensures Free(Split(s, sep), sep)
  {
    if s != [] { SplitFree(s[1..], sep); }
  }

  lemma SplitStep(c: char, s: string, sep: char)
    ensures Split([c] + s, sep) == Prepend(c, Split(s, sep), sep)
  {
    assert ([c] + s)[1..] == s;
  }

  /** One more character in front of a split text. */
  function Prepend(c: char, parts: seq<string>, sep: char): seq<string>
    requires parts != []
  {
    if c == sep then [[]] + parts else [[c] + parts[0]] + parts[1..]
  }

  lemma PrependConcat(c: char, a: seq<string>, b: seq<string>, sep: char)
    requires a != []
    ensures Prepend(c, a + b, sep) == Prepend(c, a, sep) + b
  {
  }

  lemma {:induction false} SplitConcat(p: string, rest: string, sep: char)
    ensures Split(p + [sep] + rest, sep) == Split(p, sep) + Split(rest, sep)
  {
    if p == [] {
      assert p + [sep] + rest == [sep] + rest;
      SplitStep(sep, rest, sep);
    } else {
      var tail := p[1..] + [sep] + rest;
      SplitConcat(p[1..], rest, sep);
      PrependConcat(p[0], Split(p[1..], sep), Split(rest, sep), sep);
      assert p + [sep] + rest == [p[0]] + tail;
      SplitStep(p[0], tail, sep);
      assert p == [p[0]] + p[1..];
      SplitStep(p[0], p[1..], sep);
    }
  }

  lemma {:induction false} SplitPlain(p: string, sep: char)
    requires sep !in p
    ensures Split(p, sep) == [p]
  {
    if p != [] {
      SplitPlain(p[1..], sep);
      assert p == [p[0]] + p[1..];
      SplitStep(p[0], p[1..], sep);
    }
  }

  lemma SplitAtFirst(p: string, rest: string, sep: char)
    requires sep !in p
    ensures Split(p, sep) == [p]
    ensures Split(p + [sep] + rest, sep) == [p] + Split(rest, sep)
  {
    SplitPlain(p, sep);
    SplitConcat(p, rest, sep);
  }

  /** Joining parts that do not contain the separator and splitting again gives them back. */
  lemma {:induction false} SplitJoin(parts: seq<string>, sep: char)
    requires parts != [] && Free(parts, sep)
    ensures Split(Join(parts, sep), sep) == parts
  {
    SplitPlain(parts[0], sep);
    if |parts| == 1 {
      assert parts == [parts[0]];
    } else {
      var tail := parts[1..];
      assert parts == [parts[0]] + tail;
      SplitJoin(tail, sep);
      SplitConcat(parts[0], Join(tail, sep), sep);
    }
  }

  lemma {:induction false} JoinEnds(parts: seq<string>, sep: char)
    requires parts != [] && parts[0] != [] && parts[|parts| - 1] != []
    ensures var s, last := Join(parts, sep), parts[|parts| - 1];
            s != [] && s[0] == parts[0][0] && s[|s| - 1] == last[|last| - 1]
  {
    if |parts| == 2 {
      assert Join(parts[1..], sep) == parts[1];
    } else if |parts| > 2 {
      JoinEndsTail(parts[1..], sep);
    }
  }

  lemma {:induction false} JoinEndsTail(parts: seq<string>, sep: char)
    requires parts != [] && parts[|parts| - 1] != []
    ensures var s, last := Join(parts, sep), parts[|parts| - 1];
            s != [] && s[|s| - 1] == last[|last| - 1]
  {
    if |parts| > 1 { JoinEndsTail(parts[1..], sep); }
  }

  /** The stored list form: trim separators off the ends, then split; empty text is no parts. */
  function Unpack(s: string, sep: char): seq<string> {
    if s == [] then [] else Split(Trim(s, c => c == sep), sep)
  }

  lemma SplitFirst(s: string, sep: char)
    requires s != [] && s[0] != sep
    ensures Split(s, sep)[0] != []
  {
  }

  lemma {:induction false} SplitLast(s: string, sep: char)
    requires s != [] && s[|s| - 1] != sep
    ensures var parts := Split(s, sep); parts[|parts| - 1] != []
  {
    if |s| > 1 { SplitLast(s[1..], sep); }
  }

  /** A list survives being stored as text exactly when no part contains the separator and the
      first and last are not empty. */
  lemma UnpackExact(parts: seq<string>, sep: char)
    requires parts != [] && Join(parts, sep) != []
    ensures Unpack(Join(parts, sep), sep) == parts <==>
            Free(parts, sep) && parts[0] != [] && parts[|parts| - 1] != []
  {
    var s := Join(parts, sep);
    var t := Trim(s, c => c == sep);
    TrimFacts(s, c => c == sep);
    if Split(t, sep) == parts {
      SplitFree(t, sep);
      assert t == [] ==> Join([[]], sep) == [];
      SplitFirst(t, sep);
      SplitLast(t, sep);
    }
    if Free(parts, sep) && parts[0] != [] && parts[|parts| - 1] != [] {
      JoinEnds(parts, sep);
      assert parts[0][0] in parts[0] && parts[|parts| - 1][|parts[|parts| - 1]| - 1] in parts[|parts| - 1];
      SplitJoin(parts, sep);
    }
  }

  /** A list of non-empty separator-free strings survives being stored as text. */
  lemma UnpackJoin(parts: seq<string>, sep: char)
    requires Free(parts, sep) && forall i :: 0 <= i < |parts| ==> parts[i] != []
    ensures Unpack(Join(parts, sep), sep) == parts
  {
    if parts != [] {
      JoinEnds(parts, sep);
      UnpackExact(parts, sep);
    }
  }

  lemma {:induction false} JoinLength(parts: seq<string>, a: char, b: char)
    ensures |Join(parts, a)| == |Join(parts, b)|
  {
    if |parts| > 1 { JoinLength(parts[1..], a, b); }
  }

  lemma {:induction false} TrimShortens(s: string, drop: char -> bool)
    ensures |DropLeft(s, drop)| <= |s| && |Trim(s, drop)| <= |s|
  {
    if s != [] && drop(s[0]) { TrimShortens(s[1..], drop); }
    DropRightFacts(DropLeft(s, drop), drop);
  }
}
