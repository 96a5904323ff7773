/**
 * Rust's `str::trim`: strip the leading and the trailing run of characters
 * for which `char::is_whitespace` holds, and the blank test
 * `s.trim().is_empty()` that the input handling is built on.
 */
module Whitespace {

  /** `char::is_whitespace`: the Unicode White_Space property. */
  predicate IsWhitespace(c: char)
  {
    ('\t' <= c <= '\r') || c == ' ' || c == '\U{85}' || c == '\U{A0}' || c == '\U{1680}'
    || ('\U{2000}' <= c <= '\U{200A}') || c == '\U{2028}' || c == '\U{2029}'
    || c == '\U{202F}' || c == '\U{205F}' || c == '\U{3000}'
  }

  /** Every character of `s` is whitespace. */
  ghost predicate AllWhitespace(s: string)
  {
    forall i :: 0 <= i < |s| ==> IsWhitespace(s[i])
  }

  /** `str::trim_start`. */
  function TrimStart(s: string): string
  {
    if s != [] && IsWhitespace(s[0]) then TrimStart(s[1..]) else s
  }

  /** `str::trim_end`. */
  function TrimEnd(s: string): string
  {
    if s != [] && IsWhitespace(s[|s| - 1]) then TrimEnd(s[..|s| - 1]) else s
  }

  /** `str::trim`. */
  function Trim(s: string): string
  {
    TrimEnd(TrimStart(s))
  }

  /** `s.trim().is_empty()`. */
  predicate IsBlank(s: string)
  {
    Trim(s) == []
  }

  /**
   * `trim_start` cuts a prefix made of whitespace only, and what it leaves
   * is empty or starts with a character that is not whitespace.
   */
  lemma {:induction false} TrimStartSpec(s: string)
    ensures |TrimStart(s)| <= |s| && TrimStart(s) == s[|s| - |TrimStart(s)|..]
    ensures AllWhitespace(s[..|s| - |TrimStart(s)|])
    ensures TrimStart(s) == [] || !IsWhitespace(TrimStart(s)[0])
  {
    if s != [] && IsWhitespace(s[0]) {
      TrimStartSpec(s[1..]);
      var n := |s| - |TrimStart(s)|;
      assert s[..n] == [s[0]] + s[1..][..n - 1];
    }
  }

  /**
   * `trim_end` cuts a suffix made of whitespace only, and what it leaves is
   * empty or ends with a character that is not whitespace.
   */
  lemma {:induction false} TrimEndSpec(s: string)
    ensures |TrimEnd(s)| <= |s| && TrimEnd(s) == s[..|TrimEnd(s)|]
    ensures AllWhitespace(s[|TrimEnd(s)|..])
    ensures TrimEnd(s) == [] || !IsWhitespace(TrimEnd(s)[|TrimEnd(s)| - 1])
  {
    if s != [] && IsWhitespace(s[|s| - 1]) {
      var p := s[..|s| - 1];
      TrimEndSpec(p);
      var n := |TrimEnd(s)|;
      assert s[n..] == p[n..] + [s[|s| - 1]];
    }
  }

  /**
   * `trim` leaves the contiguous slice of `s` between a whitespace-only
   * prefix and a whitespace-only suffix; that slice is empty exactly when
   * `s` is all whitespace, and otherwise starts and ends with a character
   * that is not whitespace.
   */
  lemma {:induction false} TrimSpec(s: string)
    ensures var i, r := |s| - |TrimStart(s)|, Trim(s);
      0 <= i <= i + |r| <= |s| && r == s[i..i + |r|]
      && AllWhitespace(s[..i]) && AllWhitespace(s[i + |r|..])
      && (r == [] || (!IsWhitespace(r[0]) && !IsWhitespace(r[|r| - 1])))
  {
    var t := TrimStart(s);
    var i := |s| - |t|;
    var r := TrimEnd(t);
    assert t == s[i..] && AllWhitespace(s[..i]) && (t == [] || !IsWhitespace(t[0])) by {
      TrimStartSpec(s);
    }
    assert |r| <= |t| && r == t[..|r|] && AllWhitespace(t[|r|..]) && (r == [] || !IsWhitespace(r[|r| - 1])) by {
      TrimEndSpec(t);
    }
    assert s[i..i + |r|] == t[..|r|];
    assert s[i + |r|..] == t[|r|..];
    if r != [] {
      assert r[0] == t[0];
    }
  }

  /** A text is blank exactly when every character of it is whitespace. */
  lemma BlankIffAllWhitespace(s: string)
    ensures IsBlank(s) <==> AllWhitespace(s)
  {
    var t := TrimStart(s);
    var i := |s| - |t|;
    TrimSpec(s);
    if IsBlank(s) {
      TrimStartSpec(s);
      TrimEndSpec(t);
      assert AllWhitespace(t) by {
        assert t == t[|Trim(s)|..];
      }
      assert t == [];
      assert s == s[..i];
    }
    assert Trim(s) != [] ==> Trim(s)[0] == s[i];
  }

  /** Trimming twice is trimming once. */
  lemma TrimIdempotent(s: string)
    ensures Trim(Trim(s)) == Trim(s)
  {
    var r := Trim(s);
    TrimSpec(s);
    assert TrimStart(r) == r;
    assert TrimEnd(r) == r;
  }
}
