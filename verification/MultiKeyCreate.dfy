/**
 The key list of a multi-key channel when it is created (controller/channel.go, lines 775-797
 and 815-822): lines that are not exactly empty, trimmed, counted and joined; the joined text is
 trimmed once more before it is stored.
 */
module MultiKeyCreate {
  import opened Wrappers
  import opened Text
  import opened MultiKey

  function Newlines(s: string): nat {
    if s == [] then 0 else Newlines(s[..|s| - 1]) + if s[|s| - 1] == '\n' then 1 else 0
  }

  lemma {:induction false} NewlinesConcat(a: string, b: string)
    ensures Newlines(a + b) == Newlines(a) + Newlines(b)
  {
    if b == [] {
      assert a + b == a;
    } else {
      NewlinesConcat(a, b[..|b| - 1]);
      assert (a + b)[..|a + b| - 1] == a + b[..|b| - 1];
    }
  }

  lemma {:induction false} SplitCount(s: string)
    ensures |Split(s, '\n')| == Newlines(s) + 1
  {
    if s != [] {
      SplitCount(s[1..]);
      assert s == [s[0]] + s[1..];
      NewlinesConcat([s[0]], s[1..]);
      assert [s[0]][..0] == [];
    }
  }

  lemma {:induction false} DropLeftNewlines(s: string)
    ensures Newlines(DropLeft(s, IsSpace)) <= Newlines(s)
    ensures s != [] && s[0] == '\n' ==> Newlines(DropLeft(s, IsSpace)) < Newlines(s)
  {
    if s != [] && IsSpace(s[0]) {
      DropLeftNewlines(s[1..]);
      assert s == [s[0]] + s[1..];
      NewlinesConcat([s[0]], s[1..]);
      assert [s[0]][..0] == [];
    }
  }

  lemma {:induction false} DropRightNewlines(s: string)
    ensures Newlines(DropRight(s, IsSpace)) <= Newlines(s)
    ensures s != [] && s[|s| - 1] == '\n' ==> Newlines(DropRight(s, IsSpace)) < Newlines(s)
  {
    if s != [] && IsSpace(s[|s| - 1]) { DropRightNewlines(s[..|s| - 1]); }
  }

  /** Trimming a text loses a line exactly when it starts or ends with a newline, provided its
      ends are newlines or no space at all. */
  lemma {:induction false} TrimNewlines(s: string)
    requires s != [] && (IsSpace(s[0]) ==> s[0] == '\n') && (IsSpace(s[|s| - 1]) ==> s[|s| - 1] == '\n')
    ensures Newlines(TrimSpace(s)) <= Newlines(s)
    ensures Newlines(TrimSpace(s)) == Newlines(s) <==> s[0] != '\n' && s[|s| - 1] != '\n'
  {
    DropLeftNewlines(s);
    DropRightNewlines(DropLeft(s, IsSpace));
    if s[0] != '\n' { assert DropLeft(s, IsSpace) == s; }
  }

  /** Lines 786-793. */
  function CleanLines(lines: seq<string>): seq<string> {
    if lines == [] then []
    else
      var rest, line := CleanLines(lines[..|lines| - 1]), lines[|lines| - 1];
      if line == [] then rest else rest + [TrimSpace(line)]
  }

  /** Line by line: an empty line is dropped, any other is trimmed, a blank one to nothing. */
  lemma {:induction false} LineByLine(a: seq<string>, line: string, b: seq<string>)
    ensures CleanLines(a + [line] + b) == CleanLines(a) + (if line == "" then [] else [TrimSpace(line)]) + CleanLines(b)
  {
    var all := a + [line] + b;
    if b == [] {
      assert all == a + [line] && all[..|all| - 1] == a;
    } else {
      LineByLine(a, line, b[..|b| - 1]);
      assert all[..|all| - 1] == a + [line] + b[..|b| - 1];
    }
  }

  ghost predicate TrimmedLines(lines: seq<string>) {
    forall i :: 0 <= i < |lines| ==> TrimSpace(lines[i]) == lines[i] && '\n' !in lines[i]
  }

  lemma {:induction false} CleanLinesFacts(lines: seq<string>)
    requires Free(lines, '\n')
    ensures TrimmedLines(CleanLines(lines))
  {
    if lines != [] {
      var line := lines[|lines| - 1];
      CleanLinesFacts(lines[..|lines| - 1]);
      TrimFacts(line, IsSpace);
      TrimFacts(TrimSpace(line), IsSpace);
    }
  }

  lemma {:induction false} JoinFront(parts: seq<string>, sep: char)
    requires |parts| > 1
    ensures var s := Join(parts, sep);
            s != [] && s[0] == (if parts[0] == [] then sep else parts[0][0])
            && s[|s| - 1] == (if parts[|parts| - 1] == [] then sep else parts[|parts| - 1][|parts[|parts| - 1]| - 1])
  {
    if |parts| > 2 { JoinFront(parts[1..], sep); }
  }

  /** The recorded size is the number of keys read back exactly when neither the first nor the
      last line was blank; if the text reads as an array, exactly when that has as many elements
      as there are lines. (Nothing is created from an empty text.) */
  lemma CreatedSizeExact(json: Json, clean: seq<string>)
    requires clean != [] && TrimmedLines(clean) && TrimSpace(Join(clean, '\n')) != []
    ensures var key := TrimSpace(Join(clean, '\n'));
            |KeysOf(json, key)| == |clean| <==>
              if ReadsAsArray(json, key) then |json(TrimSpace(key)).value| == |clean|
              else clean[0] != [] && clean[|clean| - 1] != []
  {
    var s := Join(clean, '\n');
    var key := TrimSpace(s);
    if !ReadsAsArray(json, key) { LinesMatch(clean); }
  }

  /** An array on a single line is recorded as one key however many it holds. */
  lemma ArrayOnOneLine(json: Json, line: string)
    requires TrimmedLines([line]) && ReadsAsArray(json, line)
    ensures TrimSpace(Join([line], '\n')) == line && KeysOf(json, line) == json(TrimSpace(line)).value
    ensures |KeysOf(json, line)| == |[line]| <==> |json(TrimSpace(line)).value| == 1
  {
    assert [line][0] == line;
  }

  lemma LinesMatch(clean: seq<string>)
    requires clean != [] && TrimmedLines(clean) && TrimSpace(Join(clean, '\n')) != []
    ensures |Unpack(TrimSpace(Join(clean, '\n')), '\n')| == |clean| <==> clean[0] != [] && clean[|clean| - 1] != []
  {
    var s := Join(clean, '\n');
    var key := TrimSpace(s);
    SplitJoin(clean, '\n');
    SplitCount(s);
    EndsOf(clean);
    TrimNewlines(s);
    TrimFacts(s, IsSpace);
    TrimFacts(key, c => c == '\n');
    SplitCount(key);
  }

  lemma EndsOf(clean: seq<string>)
    requires clean != [] && TrimmedLines(clean) && TrimSpace(Join(clean, '\n')) != []
    ensures var s := Join(clean, '\n');
            && s != [] && (IsSpace(s[0]) ==> s[0] == '\n') && (IsSpace(s[|s| - 1]) ==> s[|s| - 1] == '\n')
            && (s[0] != '\n' <==> clean[0] != []) && (s[|s| - 1] != '\n' <==> clean[|clean| - 1] != [])
  {
    TrimFacts(clean[0], IsSpace);
    TrimFacts(clean[|clean| - 1], IsSpace);
    if |clean| > 1 { JoinFront(clean, '\n'); }
  }

  method CollectKeys(text: string) returns (clean: seq<string>)
    ensures clean == CleanLines(Split(text, '\n')) && TrimmedLines(clean)
  {
    var lines := Split(text, '\n');
    SplitFree(text, '\n');
    clean := [];
    for n := 0 to |lines|
      invariant clean == CleanLines(lines[..n])
    {
      assert lines[..n + 1][..n] == lines[..n];
      if lines[n] != [] { clean := clean + [TrimSpace(lines[n])]; }
    }
    assert lines[..|lines|] == lines;
    CleanLinesFacts(lines);
  }

  /** The channel that is created from a text (lines 785-797 and 815-822). */
  function CreatedFrom(text: string): Channel {
    var clean := CleanLines(Split(text, '\n'));
    Channel(TrimSpace(Join(clean, '\n')), |clean|, map[], map[], map[])
  }

  lemma CleanedLines(a: string, b: string)
    requires Tidy(a) && Tidy(b)
    ensures CleanLines([" ", a, b]) == ["", a, b]
  {
    assert [" ", a, b][..2] == [" ", a] && [" ", a][..1] == [" "] && [" "][..0] == [];
    assert TrimSpace(" ") == "" by { assert " "[1..] == ""; }
    assert CleanLines([" "]) == [""];
    assert CleanLines([" ", a]) == ["", a];
  }

  lemma ThreeLines(a: string, b: string)
    requires Tidy(a) && Tidy(b)
    ensures Split(" " + ['\n'] + (a + ['\n'] + b), '\n') == [" ", a, b]
  {
    SplitAtFirst(" ", a + ['\n'] + b, '\n');
    SplitAtFirst(a, b, '\n');
    SplitPlain(b, '\n');
  }

  lemma TrimmedPair(a: string, b: string)
    requires Tidy(a) && Tidy(b)
    ensures Join(["", a, b], '\n') == ['\n'] + (a + ['\n'] + b)
    ensures TrimSpace(['\n'] + (a + ['\n'] + b)) == a + ['\n'] + b == Join([a, b], '\n')
  {
    var pair := a + ['\n'] + b;
    assert ["", a, b][1..] == [a, b] && [a, b][1..] == [b];
    assert Join([a, b], '\n') == pair;
    assert Join(["", a, b], '\n') == [] + ['\n'] + pair;
    assert [] + ['\n'] + pair == ['\n'] + pair;
    assert (['\n'] + pair)[1..] == pair;
    TrimFacts(a, IsSpace);
    TrimFacts(b, IsSpace);
    TrimFacts(pair, IsSpace);
    assert DropLeft(['\n'] + pair, IsSpace) == DropLeft(pair, IsSpace);
  }

  /** A channel created from a blank line and two keys records three: deleting the third is
      accepted and saved, and both keys are still there. */
  lemma ThirdOfTwo(json: Json, a: string, b: string)
    requires Bracketed(json) && Tidy(a) && Tidy(b)
    ensures var ch := CreatedFrom(" " + ['\n'] + (a + ['\n'] + b));
            && ch.size == 3 && KeysOf(json, ch.key) == [a, b]
            && Writes(json, ch, DoDelete(2)) && KeysOf(json, DeleteKey(json, ch, 2).key) == [a, b]
  {
    var ch := CreatedFrom(" " + ['\n'] + (a + ['\n'] + b));
    ThreeLines(a, b);
    CleanedLines(a, b);
    TrimmedPair(a, b);
    TidyReadsBack(json, [a, b]);
    ReadBackWritten(json, [a, b]);
    NothingDeleted(json, ch, 2);
  }
}
