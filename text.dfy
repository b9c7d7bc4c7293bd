/**
 * The few JavaScript string operations the read list relies on: `trim`,
 * `toLowerCase` (ASCII letters only), `includes`, the two regular-expression
 * replacements of the default title, and `length` in UTF-16 code units.
 */
module Text {

  /** ECMAScript WhiteSpace and LineTerminator code points: what `String.prototype.trim` removes. */
  predicate IsSpace(c: char) {
    || c == '\t' || c == '\n' || c == '\U{000B}' || c == '\U{000C}' || c == '\r' || c == ' '
    || c == '\U{00A0}' || c == '\U{1680}' || ('\U{2000}' <= c <= '\U{200A}')
    || c == '\U{2028}' || c == '\U{2029}' || c == '\U{202F}' || c == '\U{205F}'
    || c == '\U{3000}' || c == '\U{FEFF}'
  }

  predicate AllSpace(s: string) {
    forall i :: 0 <= i < |s| ==> IsSpace(s[i])
  }

  predicate StartsWith(s: string, prefix: string) {
    |prefix| <= |s| && s[..|prefix|] == prefix
  }

  /** `sub` occurs in `s` starting at index `i`. */
  predicate OccursAt(s: string, sub: string, i: int) {
    0 <= i && i + |sub| <= |s| && s[i..i + |sub|] == sub
  }

  /** The number of leading characters of `s` that satisfy `p`. */
  function CountLeading(s: string, p: char -> bool): (k: nat)
    ensures k <= |s|
    ensures forall i :: 0 <= i < k ==> p(s[i])
    ensures k == |s| || !p(s[k])
  {
    if |s| > 0 && p(s[0]) then 1 + CountLeading(s[1..], p) else 0
  }

  /** The number of trailing characters of `s` that satisfy `p`. */
  function CountTrailing(s: string, p: char -> bool): (k: nat)
    ensures k <= |s|
    ensures forall i :: |s| - k <= i < |s| ==> p(s[i])
    ensures k == |s| || !p(s[|s| - k - 1])
  {
    if |s| > 0 && p(s[|s| - 1]) then 1 + CountTrailing(s[..|s| - 1], p) else 0
  }

  /** `s.trim()`: removes white space at both ends. */
  function Trim(s: string): (r: string)
    ensures |r| <= |s|
    ensures r == [] || (!IsSpace(r[0]) && !IsSpace(r[|r| - 1]))
  {
    var t := s[CountLeading(s, IsSpace)..];
    t[..|t| - CountTrailing(t, IsSpace)]
  }

  /** A string with no white space at either end is its own trim. */
  lemma TrimUnchanged(s: string)
    requires s == [] || (!IsSpace(s[0]) && !IsSpace(s[|s| - 1]))
    ensures Trim(s) == s
  {
    assert CountLeading(s, IsSpace) == 0;
    assert s[0..] == s;
  }

  /**
   * Cutting a leading run and then a trailing run of `p` characters leaves a
   * slice of `s` with only `p` characters on either side.
   */
  lemma CutRuns(s: string, p: char -> bool)
    ensures var i := CountLeading(s, p);
      var t := s[i..];
      var r := t[..|t| - CountTrailing(t, p)];
      && OccursAt(s, r, i)
      && (forall j :: 0 <= j < i ==> p(s[j]))
      && (forall j :: i + |r| <= j < |s| ==> p(s[j]))
  {
    var i := CountLeading(s, p);
    var t := s[i..];
    var k := CountTrailing(t, p);
    var r := t[..|t| - k];
    assert s[i..i + |r|] == r;
    forall j | i + |r| <= j < |s| ensures p(s[j]) {
      assert s[j] == t[j - i];
    }
  }

  /** What `Trim` removed is white space at either end: the result starts after the leading run. */
  lemma TrimIsSlice(s: string)
    ensures var i := CountLeading(s, IsSpace);
      OccursAt(s, Trim(s), i) && AllSpace(s[..i]) && AllSpace(s[i + |Trim(s)|..])
  {
    var i := CountLeading(s, IsSpace);
    var n := |Trim(s)|;
    CutRuns(s, IsSpace);
    assert AllSpace(s[..i]) by {
      forall j | 0 <= j < i ensures IsSpace(s[..i][j]) {
        assert s[..i][j] == s[j];
      }
    }
    var tail := s[i + n..];
    assert AllSpace(tail) by {
      forall j | 0 <= j < |tail| ensures IsSpace(tail[j]) {
        assert tail[j] == s[i + n + j];
      }
    }
  }

  /** `Trim` gives the empty string exactly for blank input. */
  lemma TrimBlank(s: string)
    ensures Trim(s) == [] <==> AllSpace(s)
  {
    var i := CountLeading(s, IsSpace);
    if Trim(s) == [] {
      assert i == |s|;
    }
  }

  lemma TrimIdempotent(s: string)
    ensures Trim(Trim(s)) == Trim(s)
  {
    var r := Trim(s);
    assert CountLeading(r, IsSpace) == 0;
    assert CountTrailing(r, IsSpace) == 0;
  }

  function LowerChar(c: char): char {
    if 'A' <= c <= 'Z' then (c as int + 32) as char else c
  }

  /** `s.toLowerCase()`, restricted to the ASCII letters. */
  function Lower(s: string): string {
    seq(|s|, i requires 0 <= i < |s| => LowerChar(s[i]))
  }

  /** `s.includes(sub)`. */
  function Includes(s: string, sub: string): bool
    decreases |s|
  {
    if StartsWith(s, sub) then true
    else if |s| == 0 then false
    else Includes(s[1..], sub)
  }

  /** `Includes` answers true exactly when `sub` occurs somewhere in `s`. */
  lemma {:induction false} IncludesIffOccurs(s: string, sub: string)
    ensures Includes(s, sub) <==> exists i :: OccursAt(s, sub, i)
    decreases |s|
  {
    if StartsWith(s, sub) {
      assert OccursAt(s, sub, 0);
    } else if |s| == 0 {
      assert forall i :: !OccursAt(s, sub, i);
    } else {
      IncludesIffOccurs(s[1..], sub);
      forall i | OccursAt(s[1..], sub, i) ensures OccursAt(s, sub, i + 1) {
        assert s[1..][i..i + |sub|] == s[i + 1..i + 1 + |sub|];
      }
      forall i | OccursAt(s, sub, i) ensures i > 0 && OccursAt(s[1..], sub, i - 1) {
        assert s[1..][i - 1..i - 1 + |sub|] == s[i..i + |sub|];
      }
    }
  }

  /** The empty string is included in every string. */
  lemma IncludesEmpty(s: string)
    ensures Includes(s, "")
  {
    assert StartsWith(s, "");
  }

  /** `h.replace(/^www\./, "")`: removes one leading "www." and no more. */
  function StripWww(h: string): (r: string)
    ensures StartsWith(h, "www.") ==> h == "www." + r
    ensures !StartsWith(h, "www.") ==> r == h
  {
    if StartsWith(h, "www.") then h[4..] else h
  }

  predicate IsSlash(c: char) {
    c == '/'
  }

  /** `s.replace(/\/+$/, "")`: removes every trailing '/'. */
  function StripTrailingSlashes(s: string): (r: string)
    ensures |r| <= |s| && r == s[..|r|]
    ensures forall i :: |r| <= i < |s| ==> s[i] == '/'
    ensures r == [] || r[|r| - 1] != '/'
  {
    s[..|s| - CountTrailing(s, IsSlash)]
  }

  /** Only the appended run of slashes goes when the rest does not end in '/'. */
  lemma StripTrailingSlashesOf(s: string, slashes: string)
    requires s == [] || s[|s| - 1] != '/'
    requires forall i :: 0 <= i < |slashes| ==> slashes[i] == '/'
    ensures StripTrailingSlashes(s + slashes) == s
  {
    var full := s + slashes;
    assert full[..|s|] == s;
  }

  /** JavaScript's `length`: code points above U+FFFF take two UTF-16 code units. */
  function Utf16Length(s: string): (n: nat)
    ensures |s| <= n <= 2 * |s|
    ensures n == |s| <==> forall i :: 0 <= i < |s| ==> s[i] as int <= 0xFFFF
  {
    if s == [] then 0
    else (if s[0] as int > 0xFFFF then 2 else 1) + Utf16Length(s[1..])
  }
}
