/** The behaviour of `generateAndDownloadZip` on particular lists of net
    names, for any template text and any identifier source. Names are
    written as code units: 32 is a space, 65 is 'A'. */
module Examples {
  import opened Wrappers
  import opened Text
  import opened Ids
  import opened Archive
  import Template

  /** The net name "A". */
  const A: Str := [65]

  /** `["", "  "]`: every name is blank, so the run stops with the alert. */
  lemma BlankNamesAbort(f: Template.Fixed, src: IdSource)
    ensures GenerateWith(f, [[], [32, 32]], src) == Failure(NoNetName)
  {
    var names: seq<Str> := [[], [32, 32]];
    assert Blank(names[0]) && Blank(names[1]);
    GenerateAborts(f, names, src);
  }

  /** `["", "A"]`: the empty name is skipped; the run goes ahead with one
      footprint and the single file `A.kicad_mod`. */
  lemma OneNameProceeds(f: Template.Fixed, src: IdSource)
    ensures var r := GenerateWith(f, [[], A], src);
            && r.Success?
            && |r.value.footprints| == 1
            && r.value.zip.Keys == {A + Extension}
  {
    var names: seq<Str> := [[], A];
    TrimTidy(A);
    EligibleOne(names, A);
    ProceedsWithOne(f, names, src, A);
  }

  /** A run whose only eligible name is `a` shows one footprint and writes
      it to `a` plus the extension. */
  lemma ProceedsWithOne(f: Template.Fixed, names: seq<Str>, src: IdSource, a: Str)
    requires Eligible(names) == [a]
    ensures var r := GenerateWith(f, names, src);
            r.Success? && |r.value.footprints| == 1 && r.value.zip.Keys == {a + Extension}
  {
    Proceeds(f, names, src);
    OneFile(f, names, src, a);
  }

  /** A run with an eligible name goes ahead and shows as many footprints. */
  lemma Proceeds(f: Template.Fixed, names: seq<Str>, src: IdSource)
    requires Eligible(names) != []
    ensures GenerateWith(f, names, src).Success?
    ensures |GenerateWith(f, names, src).value.footprints| == |Eligible(names)|
  {
    AnyNamedEligible(names);
    GenerateCount(f, names, src);
  }

  /** A list of one name, repeated, has one file name. */
  lemma FileNamesOf(a: Str, names: seq<Str>)
    requires names != [] && forall k :: 0 <= k < |names| ==> names[k] == a
    ensures FileNames(names) == {a + Extension}
  {
    assert names[0] + Extension in FileNames(names);
  }

  lemma EligibleOne(names: seq<Str>, a: Str)
    requires names == [[], a] && a != [] && Trim(a) == a
    ensures Eligible(names) == [a]
  {
    var rest := names[1..];
    assert rest[1..] == [];
    assert Eligible(rest) == [a];
  }

  /** `["A ", "A"]`: both names trim to `A`. Two footprints are built and
      shown, but the archive holds one file, `A.kicad_mod`, with the later
      footprint. */
  lemma CollisionKeepsLater(f: Template.Fixed, src: IdSource)
    ensures var r := GenerateWith(f, [[65, 32], A], src);
            && r.Success?
            && |r.value.footprints| == 2
            && r.value.zip.Keys == {A + Extension}
            && r.value.zip[A + Extension] == r.value.footprints[1]
  {
    var names: seq<Str> := [[65, 32], A];
    TrimTidy(A);
    TrimTrailingSpace(names[0], A);
    EligibleTwo(names, A);
    ProceedsWithTwin(f, names, src, A);
  }

  /** A run whose eligible names are `a` twice shows two footprints and
      writes the later one to `a` plus the extension. */
  lemma ProceedsWithTwin(f: Template.Fixed, names: seq<Str>, src: IdSource, a: Str)
    requires Eligible(names) == [a, a]
    ensures var r := GenerateWith(f, names, src);
            && r.Success? && |r.value.footprints| == 2
            && r.value.zip.Keys == {a + Extension}
            && r.value.zip[a + Extension] == r.value.footprints[1]
  {
    OneFile(f, names, src, a);
    TwinKeepsLater(f, names, src, a);
  }

  /** When every eligible name is `a`, the archive holds the single file
      `a` plus the extension. */
  lemma OneFile(f: Template.Fixed, names: seq<Str>, src: IdSource, a: Str)
    requires Eligible(names) != [] && forall k :: 0 <= k < |Eligible(names)| ==> Eligible(names)[k] == a
    ensures GenerateWith(f, names, src).Success?
    ensures GenerateWith(f, names, src).value.zip.Keys == {a + Extension}
  {
    AnyNamedEligible(names);
    GenerateFiles(f, names, src);
    FileNamesOf(a, Eligible(names));
  }

  lemma TwinKeepsLater(f: Template.Fixed, names: seq<Str>, src: IdSource, a: Str)
    requires Eligible(names) == [a, a]
    ensures GenerateWith(f, names, src).Success?
    ensures var run := GenerateWith(f, names, src).value;
            |run.footprints| == 2 && run.zip[a + Extension] == run.footprints[1]
  {
    GenerateLastWins(f, names, src, 1);
    GenerateCount(f, names, src);
  }

  lemma TrimTrailingSpace(s: Str, a: Str)
    requires s == [65, 32] && a == [65]
    ensures Trim(s) == a
  {
    assert Start(s) == 0;
    assert BackFrom(s, 1) == 1;
    assert s[0..1] == a;
  }

  lemma EligibleTwo(names: seq<Str>, a: Str)
    requires |names| == 2 && Trim(names[0]) == a && Trim(names[1]) == a && a != []
    ensures Eligible(names) == [a, a]
  {
    var rest := names[1..];
    assert rest[1..] == [];
    assert rest[0] == names[1];
    assert Eligible(rest[1..]) == [];
    assert Eligible(rest) == [a] + Eligible(rest[1..]);
    assert Eligible(names) == [a] + Eligible(rest);
  }
}
