/** String operations the core relies on: the JavaScript `toLowerCase`,
    `includes` and `trim` methods, and the binary string order a MongoDB
    sort on a string field uses. */
module Text {

  /** Lower-casing of one character (A-Z only). */
  function LowerChar(c: char): char
  {
    if 'A' <= c <= 'Z' then (c as int + 32) as char else c
  }

  function Lower(s: string): (r: string)
    ensures |r| == |s|
    ensures forall i :: 0 <= i < |s| ==> r[i] == LowerChar(s[i])
    ensures forall i :: 0 <= i < |r| ==> !('A' <= r[i] <= 'Z')
    ensures forall i :: 0 <= i < |s| && !('A' <= s[i] <= 'Z') ==> r[i] == s[i]
  {
    seq(|s|, i requires 0 <= i < |s| => LowerChar(s[i]))
  }

  /** `needle` starts at position `i` of `hay`. */
  predicate OccursAt(hay: string, needle: string, i: nat)
  {
    i + |needle| <= |hay| && hay[i..i + |needle|] == needle
  }

  /** `hay.includes(needle)`: some position of `hay` starts a copy of `needle`. */
  function Includes(hay: string, needle: string): (r: bool)
    ensures r <==> exists i: nat :: OccursAt(hay, needle, i)
    decreases |hay|
  {
    if |needle| > |hay| then
      false
    else if hay[..|needle|] == needle then
      assert OccursAt(hay, needle, 0);
      true
    else
      var rest := Includes(hay[1..], needle);
      forall i: nat ensures OccursAt(hay[1..], needle, i) <==> OccursAt(hay, needle, i + 1) {
        if i + |needle| <= |hay[1..]| {
          assert hay[1..][i..i + |needle|] == hay[i + 1..i + 1 + |needle|];
        }
      }
      assert !OccursAt(hay, needle, 0);
      assert forall i: nat :: OccursAt(hay, needle, i) ==> i > 0 && OccursAt(hay[1..], needle, i - 1);
      rest
  }

  /** Case-insensitive substring test: `hay.toLowerCase().includes(needle.toLowerCase())`. */
  predicate ContainsIgnoringCase(hay: string, needle: string)
  {
    Includes(Lower(hay), Lower(needle))
  }

  /** The empty string is contained in every string, whatever the case. */
  lemma EmptyNeedleMatches(hay: string)
    ensures ContainsIgnoringCase(hay, "")
  {
    assert OccursAt(Lower(hay), Lower(""), 0);
  }

  /** Every string contains itself, whatever the case of either. */
  lemma SelfMatches(s: string)
    ensures ContainsIgnoringCase(s, s)
  {
    assert Lower(s)[0..|Lower(s)|] == Lower(s);
    assert OccursAt(Lower(s), Lower(s), 0);
  }

  /** The characters `String.prototype.trim` removes: ECMAScript WhiteSpace
      and LineTerminator code points. */
  const JsSpaces: set<char> := {
    '\t', '\n', '\U{B}', '\U{C}', '\r', ' ', '\U{A0}', '\U{1680}',
    '\U{2000}', '\U{2001}', '\U{2002}', '\U{2003}', '\U{2004}', '\U{2005}',
    '\U{2006}', '\U{2007}', '\U{2008}', '\U{2009}', '\U{200A}',
    '\U{2028}', '\U{2029}', '\U{202F}', '\U{205F}', '\U{3000}', '\U{FEFF}'}

  predicate IsJsSpace(c: char)
  {
    c in JsSpaces
  }

  predicate AllSpace(s: string)
  {
    forall i :: 0 <= i < |s| ==> IsJsSpace(s[i])
  }

  /** `s[k]` is white space for every `k` in `lo..hi`. */
  predicate SpaceBetween(s: string, lo: nat, hi: nat)
  {
    forall k :: lo <= k < hi && k < |s| ==> IsJsSpace(s[k])
  }

  /** The first position at or after `i` that is not white space (or `|s|`). */
  function StartIndex(s: string, i: nat): (n: nat)
    requires i <= |s|
    ensures i <= n <= |s|
    ensures SpaceBetween(s, i, n)
    ensures n == |s| || !IsJsSpace(s[n])
    decreases |s| - i
  {
    if i < |s| && IsJsSpace(s[i]) then StartIndex(s, i + 1) else i
  }

  /** The position after the last character before `j` that is not white
      space, looking no further back than `lo`. */
  function EndIndex(s: string, lo: nat, j: nat): (n: nat)
    requires lo <= j <= |s|
    ensures lo <= n <= j
    ensures SpaceBetween(s, n, j)
    ensures n == lo || !IsJsSpace(s[n - 1])
    decreases j
  {
    if lo < j && IsJsSpace(s[j - 1]) then EndIndex(s, lo, j - 1) else j
  }

  /** `s.trim()`: the middle slice of `s` between a white-space prefix and a
      white-space suffix, neither starting nor ending with white space. */
  function Trim(s: string): (r: string)
    ensures exists i, j :: 0 <= i <= j <= |s| && TrimmedAt(s, r, i, j)
    ensures r == [] || (!IsJsSpace(r[0]) && !IsJsSpace(r[|r| - 1]))
  {
    var i := StartIndex(s, 0);
    var j := EndIndex(s, i, |s|);
    assert TrimmedAt(s, s[i..j], i, j);
    s[i..j]
  }

  /** `r` is the slice `s[i..j]`, and everything outside it is white space. */
  predicate TrimmedAt(s: string, r: string, i: nat, j: nat)
    requires i <= j <= |s|
  {
    r == s[i..j] && SpaceBetween(s, 0, i) && SpaceBetween(s, j, |s|)
  }

  /** The trimmed slice is determined: any slice of `s` with only white space
      around it and none at its ends is the result of `Trim`. */
  lemma {:induction false} TrimUnique(s: string, r: string, i: nat, j: nat)
    requires i <= j <= |s| && TrimmedAt(s, r, i, j)
    requires r == [] || (!IsJsSpace(r[0]) && !IsJsSpace(r[|r| - 1]))
    ensures Trim(s) == r
  {
    var i0 := StartIndex(s, 0);
    var j0 := EndIndex(s, i0, |s|);
    if r == [] {
      assert i == j;
      assert SpaceBetween(s, 0, |s|) by {
        forall k | 0 <= k < |s| ensures IsJsSpace(s[k]) {
          if k >= i { assert k >= j; }
        }
      }
      assert i0 == |s|;
    } else {
      assert !IsJsSpace(s[i]) && !IsJsSpace(s[j - 1]);
      assert i0 == i;
      assert j0 == j;
    }
  }

  /** Input made only of white space trims to the empty string. */
  lemma TrimAllSpace(s: string)
    requires AllSpace(s)
    ensures Trim(s) == ""
  {
    assert StartIndex(s, 0) == |s|;
  }

  /** Trimming twice is trimming once. */
  lemma TrimIdempotent(s: string)
    ensures Trim(Trim(s)) == Trim(s)
  {
    var r := Trim(s);
    assert TrimmedAt(r, r, 0, |r|);
    TrimUnique(r, r, 0, |r|);
  }

  /** Lexicographic order on code points: how MongoDB compares two string
      values under its default (binary) collation. */
  predicate LexLe(a: string, b: string)
    decreases |a|
  {
    a == [] || (b != [] && (a[0] < b[0] || (a[0] == b[0] && LexLe(a[1..], b[1..]))))
  }

  lemma {:induction false} LexLeTotal(a: string, b: string)
    ensures LexLe(a, b) || LexLe(b, a)
    decreases |a|
  {
    if a != [] && b != [] && a[0] == b[0] {
      LexLeTotal(a[1..], b[1..]);
    }
  }

  lemma {:induction false} LexLeTransitive(a: string, b: string, c: string)
    requires LexLe(a, b) && LexLe(b, c)
    ensures LexLe(a, c)
    decreases |a|
  {
    if a != [] && b != [] && c != [] && a[0] == b[0] && b[0] == c[0] {
      LexLeTransitive(a[1..], b[1..], c[1..]);
    }
  }
}
