/** The stroke-width encoding of a net name: one width token per code unit,
    carrying the unit's position and its value. */
module Encoder {
  import opened Wrappers
  import opened Text
  import opened Digits

  /** "0.", the text every width token starts with. */
  const Lead: Str := [Zero, 46]

  /** "01", the text every width token ends with. */
  const Tail: Str := [Zero, Zero + 1]

  /** The width of the mark for the code unit `code` at position `order`:
      "0." then both numbers in decimal, unseparated and unpadded, then "01". */
  function WidthToken(order: nat, code: CodeUnit): (r: Str)
    ensures |r| >= 6 && r[..2] == Lead && r[|r| - 2..] == Tail
    ensures AllDigits(r[2..])
  {
    var p, c := ToDecimal(order), ToDecimal(code);
    var r := Lead + p + c + Tail;
    assert r[2..] == p + c + Tail;
    assert forall i :: 0 <= i < |r[2..]| ==> IsDigit(r[2..][i]) by {
      forall i | 0 <= i < |r[2..]| ensures IsDigit(r[2..][i]) {
        if i < |p| {
          assert r[2..][i] == p[i];
        } else if i < |p| + |c| {
          assert r[2..][i] == c[i - |p|];
        }
      }
    }
    r
  }

  /** The tokens of `name` when the position counter starts at `offset` and
      steps by one per code unit. */
  function EncodeFrom(name: Str, offset: nat): (r: seq<Str>)
    ensures |r| == |name|
    ensures forall k :: 0 <= k < |name| ==> r[k] == WidthToken(offset + k, name[k])
    decreases |name|
  {
    if name == [] then [] else [WidthToken(offset, name[0])] + EncodeFrom(name[1..], offset + 1)
  }

  /** The tokens of `name`: the counter starts at 0, so the k-th token
      carries position k and the k-th code unit. */
  function Encode(name: Str): (r: seq<Str>)
    ensures |r| == |name|
    ensures forall k :: 0 <= k < |name| ==> r[k] == WidthToken(k, name[k])
  {
    EncodeFrom(name, 0)
  }

  /** Reads a token back without knowing its position, taking the first
      digit after "0." as the position. Whatever it accepts is a width token
      with a one-digit position. */
  function DecodeToken(t: Str): (r: Option<(nat, CodeUnit)>)
    ensures r.Some? ==> r.value.0 < 10 && WidthToken(r.value.0, r.value.1) == t
  {
    if |t| < 6 || t[..2] != Lead || t[|t| - 2..] != Tail || !IsDigit(t[2]) then
      None
    else
      var code := t[3..|t| - 2];
      if !Canonical(code) || Value(code) >= 0x1_0000 then
        None
      else
        var order := t[2] - Zero;
        ValueThenDecimal(code);
        assert ToDecimal(order) == [t[2]];
        assert t == t[..2] + [t[2]] + code + t[|t| - 2..];
        Some((order, Value(code)))
  }

  /** A token whose position has one digit reads back as what was written. */
  lemma DecodeWidthToken(order: nat, code: CodeUnit)
    requires order < 10
    ensures DecodeToken(WidthToken(order, code)) == Some((order, code))
  {
    var t := WidthToken(order, code);
    var d := ToDecimal(code);
    assert t == Lead + [Zero + order] + d + Tail;
    assert t[..2] == Lead && t[2] == Zero + order;
    assert t[|t| - 2..] == Tail;
    assert t[3..|t| - 2] == d;
  }

  /** Reads the token of a known position back into its code unit: the
      token must be "0.", the position's numeral, a canonical numeral below
      0x10000 and "01". */
  function DecodeSlot(t: Str, order: nat): (r: Option<CodeUnit>)
    ensures r.Some? ==> WidthToken(order, r.value) == t
  {
    var p := Lead + ToDecimal(order);
    if |t| < |p| + 2 || t[..|p|] != p || t[|t| - 2..] != Tail then
      None
    else
      var code := t[|p|..|t| - 2];
      if !Canonical(code) || Value(code) >= 0x1_0000 then
        None
      else
        ValueThenDecimal(code);
        assert t == t[..|p|] + code + t[|t| - 2..];
        Some(Value(code))
  }

  /** The token of a slot reads back as the slot's code unit. */
  lemma DecodeSlotToken(order: nat, code: CodeUnit)
    ensures DecodeSlot(WidthToken(order, code), order) == Some(code)
  {
    var p := Lead + ToDecimal(order);
    var d := ToDecimal(code);
    var t := WidthToken(order, code);
    assert t == p + d + Tail;
    assert t[..|p|] == p;
    assert t[|t| - 2..] == Tail;
    assert t[|p|..|t| - 2] == d;
  }

  /** Reads a token sequence back into a name, expecting the positions
      `offset`, `offset + 1`, ... in order. */
  function DecodeFrom(tokens: seq<Str>, offset: nat): (r: Option<Str>)
    ensures r.Some? ==> EncodeFrom(r.value, offset) == tokens
    decreases |tokens|
  {
    if tokens == [] then
      Some([])
    else
      match DecodeSlot(tokens[0], offset)
      case None => None
      case Some(code) =>
        match DecodeFrom(tokens[1..], offset + 1)
        case None => None
        case Some(rest) =>
          var name := [code] + rest;
          assert name[1..] == rest;
          assert EncodeFrom(name, offset) == [tokens[0]] + tokens[1..];
          Some(name)
  }

  /** Reads the widths of a footprint's marks, in document order, back into
      its net name. Whatever it accepts encodes to exactly those widths. */
  function DecodeLabel(tokens: seq<Str>): (r: Option<Str>)
    ensures r.Some? ==> Encode(r.value) == tokens
  {
    DecodeFrom(tokens, 0)
  }

  /** Decoding the tokens of a name gives the name back, whatever its length. */
  lemma {:induction false} DecodeEncode(name: Str, offset: nat)
    ensures DecodeFrom(EncodeFrom(name, offset), offset) == Some(name)
    decreases |name|
  {
    if name != [] {
      var tokens := EncodeFrom(name, offset);
      assert tokens[1..] == EncodeFrom(name[1..], offset + 1);
      DecodeSlotToken(offset, name[0]);
      DecodeEncode(name[1..], offset + 1);
      DecodeFromCons(tokens, offset, name[0], name[1..]);
      assert name == [name[0]] + name[1..];
    }
  }

  /** One step of `DecodeFrom`: the first token's code unit, then the rest. */
  lemma DecodeFromCons(tokens: seq<Str>, offset: nat, code: CodeUnit, rest: Str)
    requires tokens != [] && DecodeSlot(tokens[0], offset) == Some(code)
    requires DecodeFrom(tokens[1..], offset + 1) == Some(rest)
    ensures DecodeFrom(tokens, offset) == Some([code] + rest)
  {
  }

  /** The widths of a footprint's marks, read in document order, determine
      its net name: reading them back gives the name exactly when they are
      its encoding. */
  lemma RecoverLabel(name: Str, tokens: seq<Str>)
    ensures DecodeLabel(tokens) == Some(name) <==> Encode(name) == tokens
  {
    if Encode(name) == tokens {
      DecodeEncode(name, 0);
    }
  }

  /** Different names have different encodings. */
  lemma EncodeInjective(a: Str, b: Str)
    requires Encode(a) == Encode(b)
    ensures a == b
  {
    RecoverLabel(a, Encode(a));
    RecoverLabel(b, Encode(b));
  }

  /** Below position ten a token on its own, without its position, fixes
      its slot: the position is its first digit. */
  lemma TokenFixesSlot(o1: nat, c1: CodeUnit, o2: nat, c2: CodeUnit)
    requires o1 < 10 && o2 < 10 && WidthToken(o1, c1) == WidthToken(o2, c2)
    ensures o1 == o2 && c1 == c2
  {
    DecodeWidthToken(o1, c1);
    DecodeWidthToken(o2, c2);
  }

  /** From position ten on, a token alone no longer fixes its slot: 'A' (65)
      at position 11 and U+00A5 (165) at position 1 both become "0.116501". */
  lemma TokensCollide()
    ensures WidthToken(11, 65) == WidthToken(1, 165)
  {
    assert ToDecimal(1) == [Zero + 1];
    assert ToDecimal(11) == ToDecimal(1) + [Zero + 1];
    assert ToDecimal(6) == [Zero + 6];
    assert ToDecimal(65) == ToDecimal(6) + [Zero + 5];
    assert ToDecimal(16) == ToDecimal(1) + [Zero + 6];
    assert ToDecimal(165) == ToDecimal(16) + [Zero + 5];
  }
}
