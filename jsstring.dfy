/** The pieces of JavaScript string semantics the contact form relies on:
    which characters count as white space, `String.prototype.trim`, and
    `.length`, which counts UTF-16 code units rather than characters. */
module JsString {

  /** The WhiteSpace and LineTerminator characters of ECMAScript. `trim`
      removes exactly these from both ends, and the regular-expression class
      `\s` matches exactly these, so `\S` is the complement. */
  predicate IsWhitespace(c: char) {
    || c == '\t' || c == '\n' || c == '\U{000B}' || c == '\U{000C}' || c == '\r'
    || c == ' ' || c == '\U{00A0}' || c == '\U{1680}'
    || ('\U{2000}' <= c <= '\U{200A}')
    || c == '\U{2028}' || c == '\U{2029}' || c == '\U{202F}' || c == '\U{205F}'
    || c == '\U{3000}' || c == '\U{FEFF}'
  }

  /** Every position in [lo, hi) holds white space. */
  ghost predicate AllWhitespace(s: string, lo: int, hi: int)
    requires 0 <= lo <= hi <= |s|
  {
    forall k | lo <= k < hi :: IsWhitespace(s[k])
  }

  /** `trimStart`: the suffix of `s` left after dropping leading white space. */
  function TrimStart(s: string): (r: string)
    ensures |r| <= |s|
  {
    if |s| > 0 && IsWhitespace(s[0]) then TrimStart(s[1..]) else s
  }

  /** `trimEnd`: the prefix of `s` left after dropping trailing white space. */
  function TrimEnd(s: string): (r: string)
    ensures |r| <= |s|
  {
    if |s| > 0 && IsWhitespace(s[|s| - 1]) then TrimEnd(s[..|s| - 1]) else s
  }

  /** `String.prototype.trim`. */
  function Trim(s: string): (r: string)
    ensures |r| <= |s|
  {
    TrimEnd(TrimStart(s))
  }

  /** `trimStart` drops a white-space prefix and keeps the rest, which does
      not start with white space. */
  lemma {:induction false} TrimStartDropsPrefix(s: string)
    ensures TrimStart(s) == s[|s| - |TrimStart(s)|..]
    ensures AllWhitespace(s, 0, |s| - |TrimStart(s)|)
    ensures TrimStart(s) == [] || !IsWhitespace(TrimStart(s)[0])
  {
    if |s| > 0 && IsWhitespace(s[0]) {
      TrimStartDropsPrefix(s[1..]);
    }
  }

  /** `trimEnd` drops a white-space suffix and keeps the rest, which does
      not end with white space. */
  lemma {:induction false} TrimEndDropsSuffix(s: string)
    ensures TrimEnd(s) == s[..|TrimEnd(s)|]
    ensures AllWhitespace(s, |TrimEnd(s)|, |s|)
    ensures TrimEnd(s) == [] || !IsWhitespace(TrimEnd(s)[|TrimEnd(s)| - 1])
  {
    if |s| > 0 && IsWhitespace(s[|s| - 1]) {
      TrimEndDropsSuffix(s[..|s| - 1]);
    }
  }

  /** `trim` keeps a contiguous middle part of `s`, everything it drops is
      white space, and what it keeps neither starts nor ends with white space. */
  lemma TrimIsMiddle(s: string) returns (lo: nat, hi: nat)
    ensures lo <= hi <= |s| && Trim(s) == s[lo..hi]
    ensures AllWhitespace(s, 0, lo) && AllWhitespace(s, hi, |s|)
    ensures Trim(s) == [] || (!IsWhitespace(Trim(s)[0]) && !IsWhitespace(Trim(s)[|Trim(s)| - 1]))
  {
    var t := TrimStart(s);
    TrimStartDropsPrefix(s);
    TrimEndDropsSuffix(t);
    lo := |s| - |t|;
    hi := lo + |TrimEnd(t)|;
    assert Trim(s) == t[..hi - lo] == s[lo..hi];
    forall k | hi <= k < |s| ensures IsWhitespace(s[k]) {
      assert s[k] == t[k - lo];
    }
    if Trim(s) != [] {
      assert Trim(s)[0] == t[0];
    }
  }

  /** A string is blank (falsy once trimmed) exactly when all of it is white space. */
  lemma BlankIffAllWhitespace(s: string)
    ensures Trim(s) == [] <==> AllWhitespace(s, 0, |s|)
  {
    var lo, hi := TrimIsMiddle(s);
    if Trim(s) != [] {
      assert !IsWhitespace(s[lo]);
    }
  }

  /** The value of `.length`: astral-plane characters take two UTF-16 code units. */
  function Utf16Length(s: string): (n: nat)
    ensures |s| <= n <= 2 * |s|
  {
    if s == [] then 0 else (if s[0] as int > 0xFFFF then 2 else 1) + Utf16Length(s[1..])
  }

  /** For text in the Basic Multilingual Plane, `.length` is the character count. */
  lemma {:induction false} Utf16LengthOfBmp(s: string)
    requires forall k | 0 <= k < |s| :: s[k] as int <= 0xFFFF
    ensures Utf16Length(s) == |s|
  {
    if s != [] {
      Utf16LengthOfBmp(s[1..]);
    }
  }
}
