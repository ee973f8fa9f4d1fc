/** `generateSingleFootprint`: the KiCad footprint document for one net name,
    as a sequence of elements, and its text. */
module Builder {
  import opened Text
  import opened Ids
  import Encoder

  /** The five property blocks, in the order the document lists them. */
  datatype PropertyKind = Reference | Value | Footprint | Datasheet | Description

  /** The top-level elements of a footprint document. Every element but the
      header and the `(attr smd)` line carries a uuid. */
  datatype Element =
    | Header(title: Str)
    | Property(kind: PropertyKind, uuid: Uuid)
    | AttrSmd
    | FpLine(width: Str, uuid: Uuid)
    | FpText(uuid: Uuid)
    | Pad(uuid: Uuid)

  type Document = seq<Element>

  predicate HasUuid(e: Element) {
    !e.Header? && !e.AttrSmd?
  }

  /** The kind of an element, for counting. */
  datatype Tag = HeaderTag | PropertyTag | AttrTag | LineTag | TextTag | PadTag

  function TagOf(e: Element): Tag {
    match e
    case Header(_) => HeaderTag
    case Property(_, _) => PropertyTag
    case AttrSmd => AttrTag
    case FpLine(_, _) => LineTag
    case FpText(_) => TextTag
    case Pad(_) => PadTag
  }

  /** How many elements of `doc` are of kind `t`. */
  function Count(doc: Document, t: Tag): nat {
    if doc == [] then 0 else (if TagOf(doc[0]) == t then 1 else 0) + Count(doc[1..], t)
  }

  /** The stroke widths of the `fp_line` marks, in document order: what a
      consumer reads to recover the net name. */
  function Widths(doc: Document): seq<Str> {
    if doc == [] then [] else (if doc[0].FpLine? then [doc[0].width] else []) + Widths(doc[1..])
  }

  /** The uuids of the document, in document order. */
  function IdsOf(doc: Document): seq<Uuid> {
    if doc == [] then [] else (if HasUuid(doc[0]) then [doc[0].uuid] else []) + IdsOf(doc[1..])
  }

  /** The five property blocks, in their fixed order, start at `doc[at]`. */
  predicate PropertiesAt(doc: Document, at: nat)
    requires at + 5 <= |doc|
  {
    && doc[at].Property? && doc[at].kind == Reference
    && doc[at + 1].Property? && doc[at + 1].kind == Value
    && doc[at + 2].Property? && doc[at + 2].kind == Footprint
    && doc[at + 3].Property? && doc[at + 3].kind == Datasheet
    && doc[at + 4].Property? && doc[at + 4].kind == Description
  }

  /** The first seven elements: the header, the five property blocks in
      their fixed order, and `(attr smd)`. */
  predicate FrontShape(doc: Document)
    requires |doc| >= 7
  {
    doc[0].Header? && PropertiesAt(doc, 1) && doc[6] == AttrSmd
  }

  /** Every element from position 7 up to the last two is an `fp_line` mark. */
  predicate MarksShape(doc: Document)
    requires |doc| >= 9
  {
    forall k :: 7 <= k < |doc| - 2 ==> doc[k].FpLine?
  }

  /** The last two elements: the `fp_text` and the pad. */
  predicate BackShape(doc: Document)
    requires |doc| >= 2
  {
    doc[|doc| - 2].FpText? && doc[|doc| - 1].Pad?
  }

  /** The layout of every generated document: the header, the five property
      blocks in their fixed order, `(attr smd)`, any number of `fp_line`
      marks, then one `fp_text` and one pad. */
  predicate WellFormed(doc: Document) {
    |doc| >= 9 && FrontShape(doc) && MarksShape(doc) && BackShape(doc)
  }

  lemma {:induction false} CountAppend(a: Document, b: Document, t: Tag)
    ensures Count(a + b, t) == Count(a, t) + Count(b, t)
    decreases |a|
  {
    if a != [] {
      assert (a + b)[0] == a[0] && (a + b)[1..] == a[1..] + b;
      CountAppend(a[1..], b, t);
    } else {
      assert a + b == b;
    }
  }

  lemma {:induction false} WidthsAppend(a: Document, b: Document)
    ensures Widths(a + b) == Widths(a) + Widths(b)
    decreases |a|
  {
    if a != [] {
      assert (a + b)[0] == a[0] && (a + b)[1..] == a[1..] + b;
      WidthsAppend(a[1..], b);
    } else {
      assert a + b == b;
    }
  }

  lemma {:induction false} IdsAppend(a: Document, b: Document)
    ensures IdsOf(a + b) == IdsOf(a) + IdsOf(b)
    decreases |a|
  {
    if a != [] {
      assert (a + b)[0] == a[0] && (a + b)[1..] == a[1..] + b;
      IdsAppend(a[1..], b);
    } else {
      assert a + b == b;
    }
  }

  /** A run of elements all of one kind. */
  lemma {:induction false} CountUniform(s: Document, u: Tag, t: Tag)
    requires forall k :: 0 <= k < |s| ==> TagOf(s[k]) == u
    ensures Count(s, t) == if t == u then |s| else 0
    decreases |s|
  {
    if s != [] {
      CountUniform(s[1..], u, t);
    }
  }

  /** A run of `fp_line` marks contributes its widths in order. */
  lemma {:induction false} WidthsOfLines(s: Document)
    requires forall k :: 0 <= k < |s| ==> s[k].FpLine?
    ensures |Widths(s)| == |s|
    ensures forall k :: 0 <= k < |s| ==> Widths(s)[k] == s[k].width
    decreases |s|
  {
    if s != [] {
      WidthsOfLines(s[1..]);
    }
  }

  lemma {:induction false} NoWidths(s: Document)
    requires forall k :: 0 <= k < |s| ==> !s[k].FpLine?
    ensures Widths(s) == []
    decreases |s|
  {
    if s != [] {
      NoWidths(s[1..]);
    }
  }

  /** A run of elements that all carry a uuid contributes those uuids in order. */
  lemma {:induction false} IdsOfTagged(s: Document)
    requires forall k :: 0 <= k < |s| ==> HasUuid(s[k])
    ensures |IdsOf(s)| == |s|
    ensures forall k :: 0 <= k < |s| ==> !s[k].Header? && !s[k].AttrSmd? && IdsOf(s)[k] == s[k].uuid
    decreases |s|
  {
    if s != [] {
      IdsOfTagged(s[1..]);
    }
  }

  lemma CountSingle(e: Element, t: Tag)
    ensures Count([e], t) == if TagOf(e) == t then 1 else 0
  {
    assert [e][1..] == [];
  }

  lemma CountParts(a: Document, b: Document, c: Document, t: Tag)
    ensures Count(a + b + c, t) == Count(a, t) + Count(b, t) + Count(c, t)
  {
    CountAppend(a + b, c, t);
    CountAppend(a, b, t);
  }

  /** How many elements of kind `t` a well-formed document of `size`
      elements has. */
  function Expected(t: Tag, size: nat): int {
    match t
    case PropertyTag => 5
    case LineTag => size - 9
    case _ => 1
  }

  lemma WellFormedCount(doc: Document, t: Tag)
    requires WellFormed(doc)
    ensures Count(doc, t) == Expected(t, |doc|)
  {
    var n := |doc|;
    var front, lines, back := doc[..7], doc[7..n - 2], doc[n - 2..];
    var props := doc[1..6];
    assert doc == front + lines + back;
    assert front == [doc[0]] + props + [doc[6]];
    assert back == [doc[n - 2]] + [doc[n - 1]] + [];
    forall k | 0 <= k < |props| ensures TagOf(props[k]) == PropertyTag {
      assert props[k] == doc[k + 1];
    }
    forall k | 0 <= k < |lines| ensures TagOf(lines[k]) == LineTag {
      assert lines[k] == doc[k + 7];
    }
    CountParts(front, lines, back, t);
    CountParts([doc[0]], props, [doc[6]], t);
    CountParts([doc[n - 2]], [doc[n - 1]], [], t);
    CountSingle(doc[0], t);
    CountSingle(doc[6], t);
    CountSingle(doc[n - 2], t);
    CountSingle(doc[n - 1], t);
    CountUniform(props, PropertyTag, t);
    CountUniform(lines, LineTag, t);
  }

  /** The element counts every well-formed document has, whatever its title:
      one header, five properties, one `(attr smd)`, one `fp_text`, one pad,
      and all the other elements `fp_line` marks. */
  lemma WellFormedCounts(doc: Document)
    requires WellFormed(doc)
    ensures Count(doc, HeaderTag) == 1
    ensures Count(doc, PropertyTag) == 5
    ensures Count(doc, AttrTag) == 1
    ensures Count(doc, LineTag) == |doc| - 9
    ensures Count(doc, TextTag) == 1
    ensures Count(doc, PadTag) == 1
  {
    WellFormedCount(doc, HeaderTag);
    WellFormedCount(doc, PropertyTag);
    WellFormedCount(doc, AttrTag);
    WellFormedCount(doc, LineTag);
    WellFormedCount(doc, TextTag);
    WellFormedCount(doc, PadTag);
  }

  /** The `fp_line` marks for `tokens`, drawing one identifier per mark from
      `src` in order, as the `map` over the name's code units does. */
  function Lines(tokens: seq<Str>, src: IdSource): (r: (seq<Element>, IdSource))
    ensures |r.0| == |tokens| && r.1.next == src.next + |tokens|
    ensures forall k :: 0 <= k < |tokens| ==> r.0[k] == FpLine(tokens[k], src.next + k)
    decreases |tokens|
  {
    if tokens == [] then
      ([], src)
    else
      var (id, s1) := Fresh(src);
      var rest := Lines(tokens[1..], s1);
      ([FpLine(tokens[0], id)] + rest.0, rest.1)
  }

  /** The five property blocks, with the identifiers `first` to `first + 4`. */
  function Properties(first: nat): Document {
    [Property(Reference, first), Property(Value, first + 1), Property(Footprint, first + 2),
     Property(Datasheet, first + 3), Property(Description, first + 4)]
  }

  /** The five `uuidv4()` calls of the property blocks, in document order. */
  function DrawProperties(src: IdSource): (r: (Document, IdSource))
    ensures r.0 == Properties(src.next) && r.1.next == src.next + 5
  {
    var reference := Fresh(src);
    var value := Fresh(reference.1);
    var footprint := Fresh(value.1);
    var datasheet := Fresh(footprint.1);
    var description := Fresh(datasheet.1);
    ([Property(Reference, reference.0), Property(Value, value.0), Property(Footprint, footprint.0),
      Property(Datasheet, datasheet.0), Property(Description, description.0)],
     description.1)
  }

  /** The first part of the template: header, properties, `(attr smd)`. */
  function Front(name: Str, props: Document): Document {
    [Header(name)] + props + [AttrSmd]
  }

  /** The last part of the template: the `fp_text` and the pad. */
  function Back(text: Uuid, pad: Uuid): Document {
    [FpText(text), Pad(pad)]
  }

  /** A document and the identifier source left after building it. */
  datatype Built = Built(doc: Document, rest: IdSource)

  /** The rest of the template once the marks are drawn: five property
      identifiers, then the `fp_text` and the pad identifiers. */
  function Finish(name: Str, marks: (Document, IdSource)): (b: Built)
    ensures |b.doc| == |marks.0| + 9 && b.doc[0] == Header(name)
    ensures b.rest.next == marks.1.next + 7
  {
    var props := DrawProperties(marks.1);
    var text := Fresh(props.1);
    var pad := Fresh(text.1);
    Built(Front(name, props.0) + marks.0 + Back(text.0, pad.0), pad.1)
  }

  /** The footprint for the net name `name`. The identifiers are drawn in the
      order the source evaluates `uuidv4()`: first one per mark, then the
      five properties, the `fp_text` and the pad; the document lists the
      properties before the marks. */
  function Build(name: Str, src: IdSource): (b: Built)
    ensures b.rest.next == src.next + |name| + 7
  {
    Finish(name, Lines(Encoder.Encode(name), src))
  }

  /** `Finish` as its three parts, with the identifiers each part holds. */
  lemma FinishParts(name: Str, marks: (Document, IdSource))
    ensures var n := marks.1.next;
            && Finish(name, marks).doc == Front(name, Properties(n)) + marks.0 + Back(n + 5, n + 6)
            && Finish(name, marks).rest.next == n + 7
  {
  }

  /** The document built for any net name has the fixed layout, and its title
      is the name. */
  lemma BuildShape(name: Str, src: IdSource)
    ensures var doc := Build(name, src).doc;
            WellFormed(doc) && |doc| == |name| + 9 && doc[0] == Header(name)
  {
    FinishShape(name, Lines(Encoder.Encode(name), src));
  }

  lemma FinishShape(name: Str, marks: (Document, IdSource))
    requires forall k :: 0 <= k < |marks.0| ==> marks.0[k].FpLine?
    ensures var doc := Finish(name, marks).doc;
            WellFormed(doc) && |doc| == |marks.0| + 9 && doc[0] == Header(name)
  {
    var n := marks.1.next;
    FinishParts(name, marks);
    AssembleShape(Front(name, Properties(n)), marks.0, Back(n + 5, n + 6));
  }

  /** The `fp_line` widths of the built document are the name's width tokens,
      in the name's order. */
  lemma BuildWidths(name: Str, src: IdSource)
    ensures Widths(Build(name, src).doc) == Encoder.Encode(name)
  {
    var tokens := Encoder.Encode(name);
    var marks := Lines(tokens, src);
    FinishWidths(name, marks);
    WidthsOfLines(marks.0);
  }

  lemma FinishWidths(name: Str, marks: (Document, IdSource))
    ensures Widths(Finish(name, marks).doc) == Widths(marks.0)
  {
    var n := marks.1.next;
    var front, back := Front(name, Properties(n)), Back(n + 5, n + 6);
    FinishParts(name, marks);
    WidthsAppend(front + marks.0, back);
    WidthsAppend(front, marks.0);
    NoWidths(front);
    NoWidths(back);
  }

  /** `doc` is the footprint of `name`: it has the fixed layout, its title is
      the name, and its marks carry the name's width tokens in order. */
  predicate Encodes(doc: Document, name: Str) {
    WellFormed(doc) && doc[0] == Header(name) && Widths(doc) == Encoder.Encode(name)
  }

  /** What `Build` promises about the document, in one predicate. */
  lemma BuildEncodes(name: Str, src: IdSource)
    ensures Encodes(Build(name, src).doc, name)
  {
    BuildShape(name, src);
    BuildWidths(name, src);
  }

  /** The built document has one `fp_line` mark per code unit of the name,
      five properties, one `(attr smd)`, one `fp_text` and one pad. */
  lemma BuildCounts(name: Str, src: IdSource)
    ensures var doc := Build(name, src).doc;
            && Count(doc, LineTag) == |name|
            && Count(doc, HeaderTag) == 1 && Count(doc, PropertyTag) == 5 && Count(doc, AttrTag) == 1
            && Count(doc, TextTag) == 1 && Count(doc, PadTag) == 1
  {
    BuildShape(name, src);
    WellFormedCounts(Build(name, src).doc);
  }

  /** Building draws exactly `|name| + 7` identifiers, puts every one of them
      into the document once, and uses no identifier drawn before or after. */
  lemma BuildIds(name: Str, src: IdSource)
    ensures var b := Build(name, src);
            && |IdsOf(b.doc)| == |name| + 7
            && Distinct(IdsOf(b.doc)) && Within(IdsOf(b.doc), src.next, b.rest.next)
  {
    var marks := Lines(Encoder.Encode(name), src);
    IdsOfRun(marks.0, src.next);
    FinishIds(name, marks, src.next);
  }

  lemma FinishIds(name: Str, marks: (Document, IdSource), lo: nat)
    requires lo + |marks.0| == marks.1.next
    requires |IdsOf(marks.0)| == |marks.0| && Distinct(IdsOf(marks.0)) && Within(IdsOf(marks.0), lo, marks.1.next)
    ensures var b := Finish(name, marks);
            && |IdsOf(b.doc)| == |marks.0| + 7
            && Distinct(IdsOf(b.doc)) && Within(IdsOf(b.doc), lo, b.rest.next)
  {
    var n := marks.1.next;
    var front, back := Front(name, Properties(n)), Back(n + 5, n + 6);
    FinishParts(name, marks);
    IdsParts(front, marks.0, back);
    FrontIds(name, n);
    BackIds(n + 5, n + 6);
    JoinIds(lo, |marks.0|, IdsOf(front), IdsOf(marks.0), IdsOf(back));
  }

  lemma JoinIds(n: nat, size: nat, p: seq<Uuid>, l: seq<Uuid>, t: seq<Uuid>)
    requires |p| == 5 && Distinct(p) && Within(p, n + size, n + size + 5)
    requires |l| == size && Distinct(l) && Within(l, n, n + size)
    requires |t| == 2 && Distinct(t) && Within(t, n + size + 5, n + size + 7)
    ensures |p + l + t| == size + 7 && Distinct(p + l + t) && Within(p + l + t, n, n + size + 7)
  {
    DistinctJoin(p, l, n + size, n + size + 5, n, n + size);
    WithinJoin(p, l, n, n + size + 5);
    DistinctJoin(p + l, t, n, n + size + 5, n + size + 5, n + size + 7);
    WithinJoin(p + l, t, n, n + size + 7);
  }

  lemma FrontIds(name: Str, first: nat)
    ensures var ids := IdsOf(Front(name, Properties(first)));
            |ids| == 5 && Distinct(ids) && Within(ids, first, first + 5)
  {
    IdsParts([Header(name)], Properties(first), [AttrSmd]);
    assert [Header(name)][1..] == [] && [AttrSmd][1..] == [];
    IdsOfRun(Properties(first), first);
  }

  lemma BackIds(text: Uuid, pad: Uuid)
    requires text + 1 == pad
    ensures var ids := IdsOf(Back(text, pad));
            |ids| == 2 && Distinct(ids) && Within(ids, text, pad + 1)
  {
    IdsOfRun(Back(text, pad), text);
  }

  /** The uuids of a run of elements that all carry one, numbered from `lo`
      in order. */
  lemma IdsOfRun(s: Document, lo: nat)
    requires forall k :: 0 <= k < |s| ==> HasUuid(s[k]) && s[k].uuid == lo + k
    ensures |IdsOf(s)| == |s| && Distinct(IdsOf(s)) && Within(IdsOf(s), lo, lo + |s|)
  {
    IdsOfTagged(s);
  }

  lemma AssembleShape(front: Document, lines: Document, back: Document)
    requires |front| == 7 && front[0].Header? && PropertiesAt(front, 1) && front[6] == AttrSmd
    requires forall k :: 0 <= k < |lines| ==> lines[k].FpLine?
    requires |back| == 2 && back[0].FpText? && back[1].Pad?
    ensures var doc := front + lines + back;
            WellFormed(doc) && |doc| == |lines| + 9 && doc[0] == front[0]
  {
    var doc := front + lines + back;
    forall k | 7 <= k < |doc| - 2 ensures doc[k].FpLine? {
      assert doc[k] == lines[k - 7];
    }
    assert doc[..7] == front;
  }

  lemma IdsParts(a: Document, b: Document, c: Document)
    ensures IdsOf(a + b + c) == IdsOf(a) + IdsOf(b) + IdsOf(c)
  {
    IdsAppend(a + b, c);
    IdsAppend(a, b);
  }
}
