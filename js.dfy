/**
 * The two pieces of JavaScript semantics the controllers and schemas rely on:
 * truthiness of request fields (`!value` checks) and `String.prototype.trim`,
 * which Mongoose applies to a path declared with `trim: true`.
 */
module Js {
  import opened Wrappers

  /** A string request field is truthy when it was sent and is not the empty string. */
  predicate TruthyText(v: Option<string>) {
    v.Some? && v.value != ""
  }

  /** A numeric request field is truthy when it was sent and is not zero. */
  predicate TruthyNumber(v: Option<int>) {
    v.Some? && v.value != 0
  }

  /** The characters that `trim` removes: WhiteSpace and LineTerminator of ECMAScript. */
  predicate IsWhitespace(c: char) {
    || c == ' ' || c == '\t' || c == '\n' || c == '\r'
    || c == '\U{000B}' || c == '\U{000C}' || c == '\U{00A0}' || c == '\U{FEFF}'
    || c == '\U{1680}' || ('\U{2000}' <= c <= '\U{200A}')
    || c == '\U{2028}' || c == '\U{2029}' || c == '\U{202F}' || c == '\U{205F}'
    || c == '\U{3000}'
  }

  predicate AllWhitespace(s: string) {
    forall i :: 0 <= i < |s| ==> IsWhitespace(s[i])
  }

  /** `s` with its leading whitespace removed: a suffix of `s`, and what was cut is whitespace. */
  function TrimStart(s: string): (r: string)
    ensures |r| <= |s| && r == s[|s| - |r|..]
    ensures AllWhitespace(s[..|s| - |r|])
    ensures r == [] || !IsWhitespace(r[0])
  {
    if s != [] && IsWhitespace(s[0]) then TrimStart(s[1..]) else s
  }

  /** `s` with its trailing whitespace removed: a prefix of `s`, and what was cut is whitespace. */
  function TrimEnd(s: string): (r: string)
    ensures |r| <= |s| && r == s[..|r|]
    ensures AllWhitespace(s[|r|..])
    ensures r == [] || !IsWhitespace(r[|r| - 1])
  {
    if s != [] && IsWhitespace(s[|s| - 1]) then TrimEnd(s[..|s| - 1]) else s
  }

  /** `String.prototype.trim`: neither end of the result is whitespace. */
  function Trim(s: string): (r: string)
    ensures |r| <= |s|
    ensures Trimmed(r)
  {
    var t := TrimStart(s);
    var r := TrimEnd(t);
    assert r != [] ==> r[0] == t[0];
    r
  }

  /**
   * `trim` removes the whitespace at the two ends of `s` and nothing else: the result is
   * the slice of `s` between a blank prefix and a blank suffix.
   */
  lemma TrimStripsEnds(s: string)
    ensures exists i, j :: 0 <= i <= j <= |s| && Trim(s) == s[i..j] && AllWhitespace(s[..i]) && AllWhitespace(s[j..])
  {
    var t := TrimStart(s);
    var r := TrimEnd(t);
    assert Trim(s) == r;
    var i, j := |s| - |t|, |s| - |t| + |r|;
    assert AllWhitespace(s[..i]);
    assert r == s[i..j];
    assert s[j..] == t[|r|..];
    assert AllWhitespace(s[j..]);
  }

  /** Neither end of `s` is whitespace: what a path declared with `trim: true` holds. */
  predicate Trimmed(s: string) {
    s == [] || (!IsWhitespace(s[0]) && !IsWhitespace(s[|s| - 1]))
  }

  /** The strings `trim` leaves as they are are exactly the trimmed ones. */
  lemma TrimmedIffFixed(s: string)
    ensures Trimmed(s) <==> Trim(s) == s
  {
    if Trimmed(s) {
      assert TrimStart(s) == s;
      assert TrimEnd(s) == s;
    }
  }

  /** Trimming twice is trimming once: a stored trimmed value is left as it is by the setter. */
  lemma TrimIdempotent(s: string)
    ensures Trim(Trim(s)) == Trim(s)
  {
    var r := Trim(s);
    assert TrimStart(r) == r;
    assert TrimEnd(r) == r;
  }

  /** `trim` yields the empty string exactly for the strings made of whitespace only. */
  lemma {:induction false} TrimEmptyIffBlank(s: string)
    ensures Trim(s) == [] <==> AllWhitespace(s)
  {
    if AllWhitespace(s) {
      TrimStartBlank(s);
    } else {
      var i :| 0 <= i < |s| && !IsWhitespace(s[i]);
      var t := TrimStart(s);
      assert i >= |s| - |t|;
      assert t[i - (|s| - |t|)] == s[i];
    }
  }

  lemma {:induction false} TrimStartBlank(s: string)
    requires AllWhitespace(s)
    ensures TrimStart(s) == []
  {
    if s != [] {
      TrimStartBlank(s[1..]);
    }
  }
}
