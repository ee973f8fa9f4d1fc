/** `generateAndDownloadZip`: which net names become footprints, and the
    archive of `.kicad_mod` files they are written to. */
module Archive {
  import opened Wrappers
  import opened Text
  import opened Ids
  import opened Builder
  import Template

  /** The file extension every archive entry gets, ".kicad_mod". */
  const Extension: Str := [46, 107, 105, 99, 97, 100, 95, 109, 111, 100]

  /** The file names of the archive for the given trimmed names. */
  function FileNames(names: seq<Str>): set<Str> {
    set k | 0 <= k < |names| :: names[k] + Extension
  }

  /** One `zip.file(path, content)` call. */
  datatype Entry = Entry(path: Str, content: Str)

  /** The archive: file paths to contents. Adding a path that is already
      present replaces its content. */
  type Zip = map<Str, Str>

  /** The paths named by `entries`. */
  function Paths(entries: seq<Entry>): set<Str> {
    set k | 0 <= k < |entries| :: entries[k].path
  }

  /** No entry after position `k` has the path of entry `k`. */
  predicate LastWith(entries: seq<Entry>, k: nat)
    requires k < |entries|
  {
    forall j :: k < j < |entries| ==> entries[j].path != entries[k].path
  }

  /** The `zip.file` calls made in order, each replacing what an earlier
      call stored under the same path. */
  function AddAll(zip: Zip, entries: seq<Entry>): (r: Zip)
    ensures r.Keys == zip.Keys + Paths(entries)
    decreases |entries|
  {
    if entries == [] then
      zip
    else
      PathsCons(entries);
      AddAll(zip[entries[0].path := entries[0].content], entries[1..])
  }

  /** The paths of a non-empty list: the first one and those of the rest. */
  lemma PathsCons(entries: seq<Entry>)
    requires entries != []
    ensures Paths(entries) == {entries[0].path} + Paths(entries[1..])
  {
    var rest := entries[1..];
    forall p | p in Paths(entries) ensures p in {entries[0].path} + Paths(rest) {
      var k :| 0 <= k < |entries| && entries[k].path == p;
      if k > 0 { assert rest[k - 1] == entries[k]; }
    }
    forall p | p in Paths(rest) ensures p in Paths(entries) {
      var k :| 0 <= k < |rest| && rest[k].path == p;
      assert entries[k + 1] == rest[k];
    }
  }

  /** Last write wins: the content at a path is that of the last entry with
      that path. */
  lemma {:induction false} AddAllLast(zip: Zip, entries: seq<Entry>, k: nat)
    requires k < |entries| && LastWith(entries, k)
    ensures AddAll(zip, entries)[entries[k].path] == entries[k].content
    decreases |entries|
  {
    var e, rest := entries[0], entries[1..];
    PathsCons(entries);
    if k > 0 {
      assert rest[k - 1] == entries[k];
      assert LastWith(rest, k - 1) by {
        forall j | k - 1 < j < |rest| ensures rest[j].path != rest[k - 1].path {
          assert rest[j] == entries[j + 1];
        }
      }
      AddAllLast(zip[e.path := e.content], rest, k - 1);
    } else {
      assert e.path !in Paths(rest) by {
        forall j | 0 <= j < |rest| ensures rest[j].path != e.path {
          assert rest[j] == entries[j + 1];
        }
      }
      AddAllKeeps(zip[e.path := e.content], rest, e.path);
    }
  }

  /** A path no entry names keeps its old content. */
  lemma {:induction false} AddAllKeeps(zip: Zip, entries: seq<Entry>, p: Str)
    requires p in zip && p !in Paths(entries)
    ensures AddAll(zip, entries)[p] == zip[p]
    decreases |entries|
  {
    if entries != [] {
      PathsCons(entries);
      AddAllKeeps(zip[entries[0].path := entries[0].content], entries[1..], p);
    }
  }

  /** The trimmed net names that are not empty, in input order: the names
      the loop builds footprints for. */
  function Eligible(names: seq<Str>): (r: seq<Str>)
    ensures |r| <= |names|
    decreases |names|
  {
    if names == [] then
      []
    else
      var t := Trim(names[0]);
      if t == [] then Eligible(names[1..]) else [t] + Eligible(names[1..])
  }

  /** A single name is eligible, as its trim, exactly when the trim is not empty. */
  lemma EligibleSingle(n: Str)
    ensures Eligible([n]) == if Trim(n) == [] then [] else [Trim(n)]
  {
    assert [n][1..] == [];
  }

  /** Selection works name by name: the eligible names of a concatenation are
      those of the first part followed by those of the second, so input order
      and repeated names are kept. */
  lemma {:induction false} EligibleAppend(a: seq<Str>, b: seq<Str>)
    ensures Eligible(a + b) == Eligible(a) + Eligible(b)
    decreases |a|
  {
    if a == [] {
      assert a + b == b;
    } else {
      assert (a + b)[0] == a[0] && (a + b)[1..] == a[1..] + b;
      EligibleAppend(a[1..], b);
    }
  }

  /** Every eligible name is a trimmed name that is not empty. */
  lemma {:induction false} EligibleTidy(names: seq<Str>)
    ensures forall k :: 0 <= k < |Eligible(names)| ==> Eligible(names)[k] != [] && Tidy(Eligible(names)[k])
    decreases |names|
  {
    if names != [] {
      var rest, t := names[1..], Trim(names[0]);
      EligibleTidy(rest);
      if t == [] {
        assert Eligible(names) == Eligible(rest);
      } else {
        var e := Eligible(names);
        assert e == [t] + Eligible(rest);
        forall k | 0 <= k < |e| ensures e[k] != [] && Tidy(e[k]) {
          if k > 0 {
            assert e[k] == Eligible(rest)[k - 1];
          }
        }
      }
    }
  }

  /** The eligible names are exactly the non-empty trims of the input names. */
  lemma {:induction false} EligibleMembers(names: seq<Str>, t: Str)
    ensures t in Eligible(names) <==> t != [] && exists i :: 0 <= i < |names| && Trim(names[i]) == t
    decreases |names|
  {
    if names != [] {
      var rest, head := names[1..], Trim(names[0]);
      EligibleMembers(rest, t);
      assert Eligible(names) == if head == [] then Eligible(rest) else [head] + Eligible(rest);
      if exists i :: 0 <= i < |names| && Trim(names[i]) == t {
        var i :| 0 <= i < |names| && Trim(names[i]) == t;
        if i > 0 {
          assert Trim(rest[i - 1]) == t;
        }
      }
      if exists i :: 0 <= i < |rest| && Trim(rest[i]) == t {
        var i :| 0 <= i < |rest| && Trim(rest[i]) == t;
        assert Trim(names[i + 1]) == t;
      }
    }
  }

  /** No footprint is built exactly when every name is blank. */
  lemma {:induction false} EligibleEmpty(names: seq<Str>)
    ensures Eligible(names) == [] <==> forall i :: 0 <= i < |names| ==> Blank(names[i])
    decreases |names|
  {
    if names != [] {
      var rest := names[1..];
      EligibleEmpty(rest);
      if Eligible(names) == [] {
        assert Blank(names[0]) && Eligible(rest) == [];
        forall i | 0 <= i < |names| ensures Blank(names[i]) {
          if i > 0 {
            assert Blank(rest[i - 1]);
            assert names[i] == rest[i - 1];
          }
        }
      } else if Blank(names[0]) {
        var j :| 0 <= j < |rest| && !Blank(rest[j]);
        assert names[j + 1] == rest[j];
      }
    }
  }

  /** The identifiers of a list of documents, in order. */
  function AllIds(docs: seq<Document>): seq<Uuid> {
    if docs == [] then [] else IdsOf(docs[0]) + AllIds(docs[1..])
  }

  /** The documents of a run and the identifier source afterwards. */
  datatype Outcome = Outcome(docs: seq<Document>, rest: IdSource)

  /** The footprints of the given trimmed names, built one after the other
      from one identifier source. */
  function BuildAll(names: seq<Str>, src: IdSource): (r: Outcome)
    ensures |r.docs| == |names|
    ensures src.next <= r.rest.next
    decreases |names|
  {
    if names == [] then
      Outcome([], src)
    else
      var b := Build(names[0], src);
      var more := BuildAll(names[1..], b.rest);
      Outcome([b.doc] + more.docs, more.rest)
  }

  /** The `forEach` over the net names: a name that trims to nothing is
      skipped, any other is built under its trimmed name. Skipping has no
      effect, so this is building the eligible names in order. */
  function Process(names: seq<Str>, src: IdSource): (r: Outcome)
    ensures |r.docs| == |Eligible(names)|
  {
    BuildAll(Eligible(names), src)
  }

  /** The texts of the documents, in order, as `generateSingleFootprint`
      returns them. */
  function FootprintTexts(f: Template.Fixed, docs: seq<Document>): (r: seq<Str>)
    ensures |r| == |docs| && forall k :: 0 <= k < |r| ==> r[k] == Template.RenderWith(f, docs[k])
  {
    if docs == [] then [] else [Template.RenderWith(f, docs[0])] + FootprintTexts(f, docs[1..])
  }

  /** Each document is the footprint of the name at the same position. */
  predicate AllEncode(docs: seq<Document>, names: seq<Str>) {
    && |docs| == |names|
    && (docs != [] ==> Encodes(docs[0], names[0]) && AllEncode(docs[1..], names[1..]))
  }

  lemma {:induction false} AllEncodeAt(docs: seq<Document>, names: seq<Str>, k: nat)
    requires AllEncode(docs, names) && k < |docs|
    ensures Encodes(docs[k], names[k])
    decreases k
  {
    if k > 0 {
      AllEncodeAt(docs[1..], names[1..], k - 1);
    }
  }

  /** The k-th document built is the footprint of the k-th name. */
  lemma {:induction false} BuildAllEncodes(names: seq<Str>, src: IdSource)
    ensures AllEncode(BuildAll(names, src).docs, names)
    decreases |names|
  {
    if names != [] {
      var b := Build(names[0], src);
      BuildEncodes(names[0], src);
      BuildAllEncodes(names[1..], b.rest);
      assert BuildAll(names, src).docs[1..] == BuildAll(names[1..], b.rest).docs;
    }
  }

  /** No identifier is used twice in a run, within one footprint or across
      two, and all of them come from the stretch the run drew. */
  lemma {:induction false} BuildAllIds(names: seq<Str>, src: IdSource)
    ensures var r := BuildAll(names, src);
            Distinct(AllIds(r.docs)) && Within(AllIds(r.docs), src.next, r.rest.next)
    decreases |names|
  {
    if names != [] {
      var b := Build(names[0], src);
      var more := BuildAll(names[1..], b.rest);
      BuildIds(names[0], src);
      BuildAllIds(names[1..], b.rest);
      assert BuildAll(names, src).docs[1..] == more.docs;
      DistinctJoin(IdsOf(b.doc), AllIds(more.docs), src.next, b.rest.next, b.rest.next, more.rest.next);
      WithinJoin(IdsOf(b.doc), AllIds(more.docs), src.next, more.rest.next);
    }
  }

  /** One `zip.file` call per footprint, under its trimmed name plus the
      extension. */
  function Entries(eligible: seq<Str>, texts: seq<Str>): (r: seq<Entry>)
    requires |eligible| == |texts|
    ensures |r| == |eligible|
    ensures forall k :: 0 <= k < |r| ==> r[k].path == eligible[k] + Extension && r[k].content == texts[k]
  {
    if eligible == [] then [] else [Entry(eligible[0] + Extension, texts[0])] + Entries(eligible[1..], texts[1..])
  }

  /** What a run that goes ahead leaves behind: the archive to download and
      the footprint texts shown on the page. */
  datatype Run = Run(zip: Zip, footprints: seq<Str>)

  /** The alert raised when no net name is given. */
  datatype RunError = NoNetName

  /** Some net name is not blank once trimmed. */
  predicate AnyNamed(names: seq<Str>) {
    names != [] && (Trim(names[0]) != [] || AnyNamed(names[1..]))
  }

  /** Some name is not blank exactly when some name is eligible. */
  lemma {:induction false} AnyNamedEligible(names: seq<Str>)
    ensures AnyNamed(names) <==> Eligible(names) != []
    decreases |names|
  {
    if names != [] {
      AnyNamedEligible(names[1..]);
    }
  }

  /** `generateAndDownloadZip`: an alert when every name is blank after
      trimming; otherwise the footprints of the non-blank names, trimmed, in
      input order, and the archive with one entry per footprint. */
  function GenerateWith(f: Template.Fixed, names: seq<Str>, src: IdSource): (r: Result<Run, RunError>)
    ensures r.Success? <==> Eligible(names) != []
    ensures r.Failure? ==> r.error == NoNetName
    ensures r.Success? ==> |r.value.footprints| == |Eligible(names)|
  {
    AnyNamedEligible(names);
    if !AnyNamed(names) then
      Failure(NoNetName)
    else
      var texts := FootprintTexts(f, Process(names, src).docs);
      Success(Run(AddAll(map[], Entries(Eligible(names), texts)), texts))
  }

  /** `generateAndDownloadZip` with the template of the source. */
  function Generate(names: seq<Str>, src: IdSource): Result<Run, RunError> {
    GenerateWith(Template.KiCad, names, src)
  }

  /** The run stops with the alert exactly when every name is blank. */
  lemma GenerateAborts(f: Template.Fixed, names: seq<Str>, src: IdSource)
    ensures GenerateWith(f, names, src).Failure? <==> forall i :: 0 <= i < |names| ==> Blank(names[i])
  {
    AnyNamedEligible(names);
    EligibleEmpty(names);
  }

  /** A run that goes ahead shows one footprint per non-blank name. */
  lemma GenerateCount(f: Template.Fixed, names: seq<Str>, src: IdSource)
    ensures GenerateWith(f, names, src).Success? ==>
              |GenerateWith(f, names, src).value.footprints| == |Eligible(names)| > 0
  {
    AnyNamedEligible(names);
  }

  /** The footprints shown are, in input order, the texts of the footprints
      of the trimmed non-blank names. */
  lemma GenerateShows(f: Template.Fixed, names: seq<Str>, src: IdSource)
    ensures GenerateWith(f, names, src).Success? ==>
            var run, eligible := GenerateWith(f, names, src).value, Eligible(names);
            forall k :: 0 <= k < |eligible| ==>
              var doc := Process(names, src).docs[k];
              Encodes(doc, eligible[k]) && run.footprints[k] == Template.RenderWith(f, doc)
  {
    var docs := Process(names, src).docs;
    BuildAllEncodes(Eligible(names), src);
    forall k | 0 <= k < |docs| ensures Encodes(docs[k], Eligible(names)[k]) {
      AllEncodeAt(docs, Eligible(names), k);
    }
  }

  /** A run that goes ahead writes one archive file per distinct trimmed
      name, named after it. */
  lemma GenerateFiles(f: Template.Fixed, names: seq<Str>, src: IdSource)
    ensures GenerateWith(f, names, src).Success? ==>
              GenerateWith(f, names, src).value.zip.Keys == FileNames(Eligible(names))
  {
    EntriesPaths(Eligible(names), FootprintTexts(f, Process(names, src).docs));
  }

  /** The entries name exactly the files of the trimmed names. */
  lemma EntriesPaths(eligible: seq<Str>, texts: seq<Str>)
    requires |eligible| == |texts|
    ensures Paths(Entries(eligible, texts)) == FileNames(eligible)
  {
    var entries := Entries(eligible, texts);
    forall p | p in FileNames(eligible) ensures p in Paths(entries) {
      var k :| 0 <= k < |eligible| && eligible[k] + Extension == p;
      assert entries[k].path == p;
    }
  }

  /** Of two names that trim alike, the archive keeps the later footprint;
      the list of footprints shown keeps both. */
  lemma GenerateLastWins(f: Template.Fixed, names: seq<Str>, src: IdSource, k: nat)
    requires k < |Eligible(names)|
    requires forall j :: k < j < |Eligible(names)| ==> Eligible(names)[j] != Eligible(names)[k]
    ensures GenerateWith(f, names, src).Success?
    ensures var run := GenerateWith(f, names, src).value;
            run.zip[Eligible(names)[k] + Extension] == run.footprints[k]
  {
    AnyNamedEligible(names);
    var eligible := Eligible(names);
    var entries := Entries(eligible, FootprintTexts(f, Process(names, src).docs));
    assert LastWith(entries, k) by {
      forall j | k < j < |entries| ensures entries[j].path != entries[k].path {
        SuffixDiffers(eligible[j], eligible[k], Extension);
      }
    }
    AddAllLast(map[], entries, k);
  }

  /** Paths that differ before the shared extension differ. */
  lemma SuffixDiffers(a: Str, b: Str, ext: Str)
    requires a != b
    ensures a + ext != b + ext
  {
    if |a| == |b| {
      var i :| 0 <= i < |a| && a[i] != b[i];
      assert (a + ext)[i] == a[i] && (b + ext)[i] == b[i];
    } else {
      assert |a + ext| != |b + ext|;
    }
  }
}
