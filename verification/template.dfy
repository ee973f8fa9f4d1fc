/** The text of a footprint document: the template literals of
    `generateSingleFootprint`, with every `uuidv4()` slot filled by the
    decimal numeral of the model's identifier. */
module Template {
  import opened Text
  import opened Ids
  import opened Builder
  import Digits

  /** The fixed text of the template, piece by piece. Each piece is the text
      between two substitutions of the template literals. */
  datatype Fixed = Fixed(
    opening: Str,        // before the title
    headerRest: Str,     // after the title: version, generator, layer
    reference: Str,      // the reference property up to its uuid
    value: Str,
    footprint: Str,
    datasheet: Str,
    description: Str,
    effectsOpen: Str,    // after a property's or fp_text's uuid, up to the thickness
    thin: Str,           // the reference's thickness
    thick: Str,          // every other thickness
    effectsClose: Str,
    attr: Str,
    lineOpen: Str,       // an fp_line up to its width
    lineMid: Str,        // from after the width up to the uuid
    lineClose: Str,
    text: Str,           // the fp_text up to its uuid
    pad: Str,            // the pad up to its uuid
    padClose: Str,
    uuidOpen: Str,
    uuidClose: Str,
    gap: Str,            // the newline and indentation around the joined marks
    closing: Str)

  /** The pieces as the source writes them. */
  const KiCad: Fixed := Fixed(
    Lit("\n(footprint \""),
    Lit("\"\n\t(version 20240108)\n\t(generator \"create-gerbersockets\")\n\t(generator_version \"0.1\")\n\t(layer \"F.Cu\")"),
    Lit("\n\t(property \"Reference\" \"GS**\"\n\t\t(at 0 -2 0)\n\t\t(unlocked yes)\n\t\t(layer \"F.SilkS\")\n\t\t(hide yes)\n\t\t"),
    Lit("\n\t(property \"Value\" \"GND\"\n\t\t(at 0 3.7 0)\n\t\t(unlocked yes)\n\t\t(layer \"F.Fab\")\n\t\t"),
    Lit("\n\t(property \"Footprint\" \"GND\"\n\t\t(at 0 2.2 0)\n\t\t(unlocked yes)\n\t\t(layer \"F.Fab\")\n\t\t(hide yes)\n\t\t"),
    Lit("\n\t(property \"Datasheet\" \"\"\n\t\t(at 0 0 0)\n\t\t(unlocked yes)\n\t\t(layer \"F.Fab\")\n\t\t(hide yes)\n\t\t"),
    Lit("\n\t(property \"Description\" \"\"\n\t\t(at 0 0 0)\n\t\t(unlocked yes)\n\t\t(layer \"F.Fab\")\n\t\t(hide yes)\n\t\t"),
    Lit("\n\t\t(effects\n\t\t\t(font\n\t\t\t\t(size 1 1)\n\t\t\t\t(thickness "),
    Lit("0.1"),
    Lit("0.15"),
    Lit(")\n\t\t\t)\n\t\t)\n\t)"),
    Lit("\n\t(attr smd)"),
    Lit("\t\n\t(fp_line\n\t\t(start 0 0)\n\t\t(end 0 0)\n\t\t(stroke\n\t\t\t(width "),
    Lit(")\n\t\t\t(type default)\n\t\t)\n\t\t(layer \"User.1\")\n\t\t"),
    Lit("\n\t)"),
    Lit("\n\t(fp_text user \"${REFERENCE}\"\n\t\t(at 0 5.2 0)\n\t\t(unlocked yes)\n\t\t(layer \"F.Fab\")\n\t\t"),
    Lit("\n\t(pad \"1\" smd circle\n\t\t(at 0 0)\n\t\t(size 0.1 0.1)\n\t\t(layers \"F.Cu\")\n\t\t"),
    Lit("\n\t)"),
    Lit("(uuid \""),
    Lit("\")"),
    Lit("\n    "),
    Lit("\n)"))

  /** `(uuid "<id>")`. */
  function UuidField(f: Fixed, id: Uuid): Str {
    f.uuidOpen + Digits.ToDecimal(id) + f.uuidClose
  }

  function PropertyHead(f: Fixed, kind: PropertyKind): Str {
    match kind
    case Reference => f.reference
    case Value => f.value
    case Footprint => f.footprint
    case Datasheet => f.datasheet
    case Description => f.description
  }

  /** The `effects` block after a uuid, with the given stroke thickness. */
  function Effects(f: Fixed, thickness: Str): Str {
    f.effectsOpen + thickness + f.effectsClose
  }

  /** The text of one element of the document. Only the reference property
      is drawn with the thin stroke. */
  function ElementText(f: Fixed, e: Element): (r: Str)
    ensures e.Header? ==>
              |f.opening| + |e.title| <= |r| && r[..|f.opening| + |e.title|] == f.opening + e.title
    ensures e.FpLine? ==>
              |f.lineOpen| + |e.width| <= |r| && r[|f.lineOpen|..|f.lineOpen| + |e.width|] == e.width
  {
    match e
    case Header(title) => f.opening + title + f.headerRest
    case Property(kind, id) =>
      PropertyHead(f, kind) + UuidField(f, id) + Effects(f, if kind == Reference then f.thin else f.thick)
    case AttrSmd => f.attr
    case FpLine(width, id) => f.lineOpen + width + f.lineMid + UuidField(f, id) + f.lineClose
    case FpText(id) => f.text + UuidField(f, id) + Effects(f, f.thick)
    case Pad(id) => f.pad + UuidField(f, id) + f.padClose
  }

  /** The texts of a run of elements, joined with nothing in between, as
      `join("")` does for the marks. */
  function Texts(f: Fixed, s: Document): Str {
    if s == [] then [] else ElementText(f, s[0]) + Texts(f, s[1..])
  }

  /** Joining is a homomorphism: the text of a concatenation is the
      concatenation of the texts. */
  lemma {:induction false} TextsAppend(f: Fixed, a: Document, b: Document)
    ensures Texts(f, a + b) == Texts(f, a) + Texts(f, b)
    decreases |a|
  {
    if a != [] {
      assert (a + b)[0] == a[0] && (a + b)[1..] == a[1..] + b;
      TextsAppend(f, a[1..], b);
    } else {
      assert a + b == b;
    }
  }

  /** The text of a document: the first part, the joined marks and the last
      part, each pair separated by a newline and four spaces, and the closing
      parenthesis of the footprint. The parts are the first seven elements,
      the marks and the last two; a document too short to hold them (none is
      ever built) is written as one part. */
  function RenderWith(f: Fixed, doc: Document): (r: Str)
    ensures |f.closing| <= |r| && r[|r| - |f.closing|..] == f.closing
  {
    if |doc| < 9 then
      Texts(f, doc) + f.closing
    else
      Texts(f, doc[..7]) + f.gap + Texts(f, doc[7..|doc| - 2]) + f.gap + Texts(f, doc[|doc| - 2..]) + f.closing
  }

  /** The text `generateSingleFootprint` returns for a document. */
  function Render(doc: Document): Str {
    RenderWith(KiCad, doc)
  }

  /** The text of the footprint built for `name`, written with the pieces `f`. */
  function Footprint(f: Fixed, name: Str, src: IdSource): Str {
    RenderWith(f, Build(name, src).doc)
  }

  /** `generateSingleFootprint`: the text of the footprint built for `name`. */
  function SingleFootprint(name: Str, src: IdSource): (r: Str)
    ensures exists doc :: Encodes(doc, name) && r == Render(doc)
  {
    BuildEncodes(name, src);
    Footprint(KiCad, name, src)
  }

  /** The footprint text opens with the opening piece and the net name, and
      closes with the closing piece. */
  lemma FootprintFrame(f: Fixed, name: Str, src: IdSource)
    ensures var r := Footprint(f, name, src);
            && |f.opening| + |name| <= |r|
            && r[..|f.opening| + |name|] == f.opening + name
            && r[|r| - |f.closing|..] == f.closing
  {
    BuildShape(name, src);
    RenderFrame(f, Build(name, src).doc);
  }

  /** The text opens with the document's title in the `footprint` header,
      and closes with the footprint's closing parenthesis. */
  lemma RenderFrame(f: Fixed, doc: Document)
    requires WellFormed(doc)
    ensures var title, r := doc[0].title, RenderWith(f, doc);
            && |f.opening| + |title| <= |r|
            && r[..|f.opening| + |title|] == f.opening + title
            && r[|r| - |f.closing|..] == f.closing
  {
    var title := doc[0].title;
    var p := f.opening + title;
    var head := Texts(f, doc[..7]);
    assert doc[..7][0] == doc[0] && doc[..7][1..] == doc[1..7];
    assert head == p + f.headerRest + Texts(f, doc[1..7]);
    Keeps(p + f.headerRest, Texts(f, doc[1..7]), |p|);
    Keeps(p, f.headerRest, |p|);
    var x1 := head + f.gap;
    var x2 := x1 + Texts(f, doc[7..|doc| - 2]);
    var x3 := x2 + f.gap;
    var x4 := x3 + Texts(f, doc[|doc| - 2..]);
    Keeps(head, f.gap, |p|);
    Keeps(x1, Texts(f, doc[7..|doc| - 2]), |p|);
    Keeps(x2, f.gap, |p|);
    Keeps(x3, Texts(f, doc[|doc| - 2..]), |p|);
    Keeps(x4, f.closing, |p|);
    assert x4 + f.closing == RenderWith(f, doc);
    assert (x4 + f.closing)[|x4|..] == f.closing;
  }

  /** Appending leaves a prefix in place. */
  lemma Keeps(a: Str, b: Str, n: nat)
    requires n <= |a|
    ensures (a + b)[..n] == a[..n]
  {
  }
}
