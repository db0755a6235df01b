/** JavaScript strings as the editor sees them: sequences of UTF-16 code
    units, with `String.prototype.trim` and the blank test that the submit
    handler applies to the draft's title and content. */
module JsText {

  /** One UTF-16 code unit. JavaScript string lengths, indices and
      `substring` count these, and a lone surrogate is a legal unit. */
  newtype CodeUnit = x: int | 0 <= x < 0x1_0000

  type Text = seq<CodeUnit>

  /** The code units `trim` removes: ECMAScript WhiteSpace (TAB, VT, FF,
      ZWNBSP and every space separator of category Zs) and LineTerminator
      (LF, CR, LS, PS). */
  predicate IsJsSpace(c: CodeUnit)
  {
    c == 0x09 || c == 0x0A || c == 0x0B || c == 0x0C || c == 0x0D ||
    c == 0x20 || c == 0xA0 || c == 0x1680 ||
    (0x2000 <= c <= 0x200A) ||
    c == 0x2028 || c == 0x2029 || c == 0x202F || c == 0x205F ||
    c == 0x3000 || c == 0xFEFF
  }

  predicate AllSpace(s: Text)
  {
    forall i :: 0 <= i < |s| ==> IsJsSpace(s[i])
  }

  /** Drops the leading white space. */
  function TrimStart(s: Text): (r: Text)
    ensures |r| <= |s|
  {
    if |s| > 0 && IsJsSpace(s[0]) then TrimStart(s[1..]) else s
  }

  /** `TrimStart` gives the longest suffix of `s` that does not start with
      white space: everything it drops is white space. */
  lemma {:induction false} TrimStartSpec(s: Text)
    ensures var r := TrimStart(s);
            r == s[|s| - |r|..] && AllSpace(s[..|s| - |r|]) && (r == [] || !IsJsSpace(r[0]))
  {
    if |s| > 0 && IsJsSpace(s[0]) {
      TrimStartSpec(s[1..]);
    }
  }

  /** Drops the trailing white space. */
  function TrimEnd(s: Text): (r: Text)
    ensures |r| <= |s|
  {
    if |s| > 0 && IsJsSpace(s[|s| - 1]) then TrimEnd(s[..|s| - 1]) else s
  }

  /** `TrimEnd` gives the longest prefix of `s` that does not end with white
      space: everything it drops is white space. */
  lemma {:induction false} TrimEndSpec(s: Text)
    ensures var r := TrimEnd(s);
            r == s[..|r|] && AllSpace(s[|r|..]) && (r == [] || !IsJsSpace(r[|r| - 1]))
  {
    if |s| > 0 && IsJsSpace(s[|s| - 1]) {
      TrimEndSpec(s[..|s| - 1]);
    }
  }

  /** How many leading white-space code units `trim` drops. */
  function LeadingSpace(s: Text): nat
  {
    |s| - |TrimStart(s)|
  }

  /** `s.trim()`. */
  function Trim(s: Text): (r: Text)
    ensures |r| <= |s|
  {
    TrimEnd(TrimStart(s))
  }

  /** `s.trim()` is the slice of `s` left after removing white space at
      both ends: everything removed is white space and the slice neither
      starts nor ends with white space. */
  lemma TrimSpec(s: Text)
    ensures var r := Trim(s);
            LeadingSpace(s) + |r| <= |s| &&
            r == s[LeadingSpace(s)..LeadingSpace(s) + |r|] &&
            AllSpace(s[..LeadingSpace(s)]) && AllSpace(s[LeadingSpace(s) + |r|..]) &&
            (r == [] || (!IsJsSpace(r[0]) && !IsJsSpace(r[|r| - 1])))
  {
    var t := TrimStart(s);
    TrimStartSpec(s);
    TrimEndSpec(t);
    assert s[LeadingSpace(s) + |Trim(s)|..] == t[|Trim(s)|..];
  }

  /** `!s.trim()` in JavaScript: the trimmed string is the empty (falsy)
      string. */
  predicate IsBlank(s: Text)
  {
    Trim(s) == []
  }

  /** A string is blank exactly when every code unit of it is white space;
      in particular the empty string is blank. */
  lemma {:induction false} BlankIffAllSpace(s: Text)
    ensures IsBlank(s) <==> AllSpace(s)
  {
    TrimSpec(s);
  }
}
