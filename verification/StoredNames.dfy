/**
 What a list of names becomes when it is stored as one comma-joined text and read again, for
 names that may themselves contain commas (controller/channel_upstream_update.go, lines
 493-502; model/channel.go, lines 301-306).
 */
module StoredNames {
  import opened Counting
  import opened Text
  import opened ModelNames
  import opened UpstreamUpdate

  /** The names read back: the non-blank comma-separated pieces of each. */
  function Stored(names: set<string>): set<string> {
    set n, p | n in names && p in Names(Split(n, ',')) :: p
  }

  lemma BlankNames()
    ensures Names([[]]) == {} && Names([]) == {}
  {
    NormalizeFacts([[]]);
  }

  lemma {:induction false} DropLeftNames(s: string, sep: char)
    ensures Names(Split(DropLeft(s, c => c == sep), sep)) == Names(Split(s, sep))
  {
    if s != [] && s[0] == sep {
      DropLeftNames(s[1..], sep);
      assert s == [] + [sep] + s[1..];
      SplitConcat([], s[1..], sep);
      NamesConcat([[]], Split(s[1..], sep));
      BlankNames();
    }
  }

  lemma {:induction false} DropRightNames(s: string, sep: char)
    ensures Names(Split(DropRight(s, c => c == sep), sep)) == Names(Split(s, sep))
  {
    if s != [] && s[|s| - 1] == sep {
      var front := s[..|s| - 1];
      DropRightNames(front, sep);
      assert s == front + [sep] + [];
      SplitConcat(front, [], sep);
      NamesConcat(Split(front, sep), [[]]);
      BlankNames();
    }
  }

  lemma UnpackNames(s: string, sep: char)
    ensures Names(Unpack(s, sep)) == Names(Split(s, sep))
  {
    BlankNames();
    DropLeftNames(s, sep);
    DropRightNames(DropLeft(s, c => c == sep), sep);
  }

  lemma {:induction false} JoinedNames(names: seq<string>)
    requires names != []
    ensures Names(Split(Join(names, ','), ',')) == Stored(Elements(names))
  {
    assert Elements(names) == {names[0]} + Elements(names[1..]);
    if |names| > 1 {
      JoinedNames(names[1..]);
      SplitConcat(names[0], Join(names[1..], ','), ',');
      NamesConcat(Split(names[0], ','), Split(Join(names[1..], ','), ','));
    }
  }

  /** Storing a list and reading it again gives exactly the pieces of its names. */
  lemma StoredLocals(names: seq<string>)
    ensures Elements(Locals(Join(names, ','))) == Stored(Elements(names))
  {
    UnpackNames(Join(names, ','), ',');
    if names == [] { BlankNames(); } else { JoinedNames(names); }
  }

  lemma OneName(z: string)
    requires z != [] && TrimSpace(z) == z
    ensures Names([z]) == {z}
  {
    assert [z][..|[z]| - 1] == [];
    assert Normalize([z]) == [z];
  }

  ghost predicate AllTrimmed(names: set<string>) {
    forall n :: n in names ==> n != [] && TrimSpace(n) == n
  }

  function WithComma(names: set<string>): set<string> {
    set n | n in names && ',' in n
  }

  /** A name without a comma is read back as itself. */
  lemma StoredPlain(n: string)
    requires n != [] && TrimSpace(n) == n && ',' !in n
    ensures Names(Split(n, ',')) == {n}
  {
    SplitAtFirst(n, [], ',');
    OneName(n);
  }

  lemma StoredByComma(names: set<string>)
    requires AllTrimmed(names)
    ensures Stored(names) == (names - WithComma(names)) + Stored(WithComma(names))
  {
    forall n | n in names && n !in WithComma(names) ensures Names(Split(n, ',')) == {n} {
      StoredPlain(n);
    }
  }

  lemma StoredUnion(a: set<string>, b: set<string>)
    ensures Stored(a + b) == Stored(a) + Stored(b)
  {
  }

  lemma StoredSame(names: set<string>)
    requires AllTrimmed(names) && NoComma(names)
    ensures Stored(names) == names
  {
    StoredByComma(names);
    assert WithComma(names) == {};
  }

  lemma NamesTrimmed(names: seq<string>)
    ensures AllTrimmed(Names(names))
  {
    NormalizeFacts(names);
  }

  /** What an apply makes of the models, whatever names it adds. */
  lemma ApplyStores(ch: Channel, addIn: seq<string>, ignoreIn: seq<string>, removeIn: seq<string>, now: int)
    ensures Models(Apply(ch, addIn, ignoreIn, removeIn, now)) ==
            Models(ch) - Removing(ch, addIn, removeIn) + Stored(Adding(ch, addIn))
  {
    var add := Intersect(addIn, Normalize(ch.detected));
    var remove := Subtract(Intersect(removeIn, Normalize(ch.removed)), add);
    var next := ApplySelected(Locals(ch.models), add, remove);
    var kept := Models(ch) - Removing(ch, addIn, removeIn);
    Selections(ch, addIn, removeIn);
    LocalsFacts(ch.models);
    ApplySelectedFacts(Locals(ch.models), add, remove);
    NamesTrimmed(Unpack(ch.models, ','));
    assert Elements(next) == kept + Adding(ch, addIn);
    StoredSame(kept);
    if Locals(ch.models) == next {
      StoredSame(Models(ch));
      StoredUnion(kept, Adding(ch, addIn));
    } else {
      StoredLocals(next);
      StoredUnion(kept, Adding(ch, addIn));
    }
  }
}
