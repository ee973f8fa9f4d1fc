/** JavaScript strings as sequences of UTF-16 code units, and `String.prototype.trim`. */
module Text {

  /** One UTF-16 code unit, the value `charCodeAt` returns. */
  type CodeUnit = u: int | 0 <= u < 0x1_0000

  /** A JavaScript string. `split("")` yields exactly its code units. */
  type Str = seq<CodeUnit>

  /** The code unit of a character of a Dafny literal. Every fixed text in the
      model is ASCII, so the replacement character is never produced. */
  function Unit(c: char): CodeUnit {
    if c as int < 0x1_0000 then c as int else 0xFFFD
  }

  /** A Dafny string literal as a JavaScript string. */
  function Lit(s: string): (r: Str)
    ensures |r| == |s|
  {
    seq(|s|, i requires 0 <= i < |s| => Unit(s[i]))
  }

  /** The code units `trim` removes: ECMAScript WhiteSpace and LineTerminator. */
  predicate IsWs(u: CodeUnit) {
    || u == 0x09 || u == 0x0A || u == 0x0B || u == 0x0C || u == 0x0D
    || u == 0x20 || u == 0xA0 || u == 0x1680
    || (0x2000 <= u <= 0x200A)
    || u == 0x2028 || u == 0x2029 || u == 0x202F || u == 0x205F
    || u == 0x3000 || u == 0xFEFF
  }

  /** Every code unit of `s` in positions `lo` to `hi - 1` is white space. */
  predicate BlankBetween(s: Str, lo: int, hi: int)
    requires 0 <= lo <= hi <= |s|
  {
    forall i :: lo <= i < hi ==> IsWs(s[i])
  }

  /** Every code unit is white space (vacuously so for the empty string). */
  predicate Blank(s: Str) {
    BlankBetween(s, 0, |s|)
  }

  /** Neither end of `s` is white space. */
  predicate Tidy(s: Str) {
    s == [] || (!IsWs(s[0]) && !IsWs(s[|s| - 1]))
  }

  /** The position of the first code unit at or after `i` that is not white
      space, or the length of `s` when there is none. */
  function SkipFrom(s: Str, i: nat): (n: nat)
    requires i <= |s|
    ensures i <= n <= |s| && BlankBetween(s, i, n)
    ensures n == |s| || !IsWs(s[n])
    decreases |s| - i
  {
    if i < |s| && IsWs(s[i]) then SkipFrom(s, i + 1) else i
  }

  /** The position just after the last code unit before `j` that is not
      white space, or 0 when there is none. */
  function BackFrom(s: Str, j: nat): (n: nat)
    requires j <= |s|
    ensures n <= j && BlankBetween(s, n, j)
    ensures n == 0 || !IsWs(s[n - 1])
  {
    if j > 0 && IsWs(s[j - 1]) then BackFrom(s, j - 1) else j
  }

  /** Where the text of `s` starts: the length of its leading white space. */
  function Start(s: Str): nat {
    SkipFrom(s, 0)
  }

  /** Where the text of `s` ends: its length less its trailing white space. */
  function End(s: Str): nat {
    BackFrom(s, |s|)
  }

  /** `trim`: neither end of the result is white space, and the result is
      empty exactly when `s` is blank. */
  function Trim(s: Str): (r: Str)
    ensures Tidy(r)
    ensures r == [] <==> Blank(s)
  {
    var a := Start(s);
    if a == |s| then [] else
      var b := End(s);
      assert a < b by {
        assert !IsWs(s[a]);
      }
      s[a..b]
  }

  /** `trim` removes white space at the two ends and nothing else: its result
      is the infix of `s` that sits between a blank prefix and a blank suffix,
      and that infix runs from the first code unit that is not white space. */
  lemma TrimKeepsInfix(s: Str)
    ensures var r, k := Trim(s), Start(s);
            && k + |r| <= |s|
            && r == s[k..k + |r|]
            && BlankBetween(s, 0, k)
            && BlankBetween(s, k + |r|, |s|)
  {
    if Start(s) == |s| {
      assert Trim(s) == [];
    }
  }

  /** A string with no white space at either end is its own trim. */
  lemma TrimTidy(s: Str)
    requires Tidy(s)
    ensures Trim(s) == s
  {
    if s != [] {
      assert Start(s) == 0 && End(s) == |s|;
      assert s[0..|s|] == s;
    }
  }

  /** Trimming twice is trimming once. */
  lemma TrimIdempotent(s: Str)
    ensures Trim(Trim(s)) == Trim(s)
  {
    TrimTidy(Trim(s));
  }
}
