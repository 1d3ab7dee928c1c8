/**
 * String helpers: JavaScript's `String.prototype.trim` and the code-point
 * order that SQLite's default (binary) collation gives to `ORDER BY` on text.
 */
module Text {

  /** JavaScript's WhiteSpace and LineTerminator characters (the set `trim` removes). */
  predicate IsJsSpace(c: char) {
    var n := c as int;
    || (0x09 <= n <= 0x0D)           // tab, line feed, vertical tab, form feed, carriage return
    || n == 0x20 || n == 0xA0        // space, no-break space
    || n == 0x1680
    || (0x2000 <= n <= 0x200A)       // en quad .. hair space
    || n == 0x2028 || n == 0x2029    // line and paragraph separators
    || n == 0x202F || n == 0x205F || n == 0x3000
    || n == 0xFEFF                   // byte order mark
  }

  /** Every character of `s` satisfies `p`. */
  predicate AllMatch(s: string, p: char -> bool) {
    forall i :: 0 <= i < |s| ==> p(s[i])
  }

  predicate AllSpace(s: string) {
    AllMatch(s, IsJsSpace)
  }

  /** `s` without its longest prefix of characters satisfying `p`. */
  function DropWhile(s: string, p: char -> bool): (r: string)
    ensures |r| <= |s| && r == s[|s| - |r|..]
    ensures forall i :: 0 <= i < |s| - |r| ==> p(s[i])
    ensures r == [] || !p(r[0])
  {
    if s != [] && p(s[0]) then
      var r := DropWhile(s[1..], p);
      assert forall i :: 0 < i < |s| - |r| ==> s[i] == s[1..][i - 1];
      r
    else s
  }

  /** `s` without its longest suffix of characters satisfying `p`. */
  function DropWhileEnd(s: string, p: char -> bool): (r: string)
    ensures |r| <= |s| && r == s[..|r|]
    ensures forall i :: |r| <= i < |s| ==> p(s[i])
    ensures r == [] || !p(r[|r| - 1])
  {
    if s != [] && p(s[|s| - 1]) then
      var r := DropWhileEnd(s[..|s| - 1], p);
      assert forall i :: |r| <= i < |s| - 1 ==> s[i] == s[..|s| - 1][i];
      r
    else s
  }

  /** Nothing but characters satisfying `p` is left after dropping them from both ends exactly when `s` is made of them. */
  lemma StripBothEnds(s: string, p: char -> bool)
    ensures DropWhileEnd(DropWhile(s, p), p) == [] <==> AllMatch(s, p)
  {
    var t := DropWhile(s, p);
    if t != [] {
      assert !p(t[0]);
      assert DropWhileEnd(t, p) != [];
    }
  }

  /** What is left after dropping from both ends neither starts nor ends with a character satisfying `p`. */
  lemma StrippedEnds(s: string, p: char -> bool)
    ensures var r := DropWhileEnd(DropWhile(s, p), p); r == [] || (!p(r[0]) && !p(r[|r| - 1]))
  {
    var t := DropWhile(s, p);
    var r := DropWhileEnd(t, p);
    if r != [] {
      assert r[0] == t[0];
    }
  }

  /** `s[a..b]` has only characters satisfying `p` before and after it in `s`. */
  predicate Framed(s: string, a: int, b: int, p: char -> bool) {
    0 <= a <= b <= |s| && AllMatch(s[..a], p) && AllMatch(s[b..], p)
  }

  /** What is left after dropping from both ends is `s` with a run of such characters cut from each end. */
  lemma StrippedIsInnerSlice(s: string, p: char -> bool)
    ensures exists a, b :: Framed(s, a, b, p) && DropWhileEnd(DropWhile(s, p), p) == s[a..b]
  {
    var t := DropWhile(s, p);
    var a := |s| - |t|;
    var r := DropWhileEnd(t, p);
    var b := a + |r|;
    assert r == s[a..b] by {
      assert t == s[a..];
      assert r == t[..|r|];
      assert s[a..][..|r|] == s[a..b];
    }
    assert AllMatch(s[..a], p) by {
      forall i | 0 <= i < a ensures p(s[..a][i]) {
        assert s[..a][i] == s[i];
      }
    }
    assert AllMatch(s[b..], p) by {
      forall i | 0 <= i < |s| - b ensures p(s[b..][i]) {
        assert s[b..][i] == t[|r| + i];
      }
    }
    assert Framed(s, a, b, p);
  }

  /** `s.trim()`: a contiguous part of `s` with white space only around it. */
  function Trim(s: string): (r: string)
    ensures |r| <= |s|
    ensures r == [] <==> AllSpace(s)
    ensures r == [] || (!IsJsSpace(r[0]) && !IsJsSpace(r[|r| - 1]))
    ensures exists a, b :: Framed(s, a, b, IsJsSpace) && r == s[a..b]
  {
    StripBothEnds(s, IsJsSpace);
    StrippedEnds(s, IsJsSpace);
    StrippedIsInnerSlice(s, IsJsSpace);
    DropWhileEnd(DropWhile(s, IsJsSpace), IsJsSpace)
  }

  /** A string with no white space at either end is its own trim. */
  lemma TrimWithoutSpace(s: string)
    requires s != [] && !IsJsSpace(s[0]) && !IsJsSpace(s[|s| - 1])
    ensures Trim(s) == s
  {
  }

  /** True when `s.trim()` is empty, i.e. JavaScript's `!s.trim()`. */
  predicate IsBlank(s: string) {
    Trim(s) == []
  }

  /** Code-point lexicographic order: a prefix comes first, else the first differing character decides. */
  predicate LexLe(a: string, b: string)
    decreases |a|
  {
    a == [] || (b != [] && (a[0] < b[0] || (a[0] == b[0] && LexLe(a[1..], b[1..]))))
  }

  lemma {:induction false} LexLeTotal(a: string, b: string)
    ensures LexLe(a, b) || LexLe(b, a)
    decreases |a|
  {
    if a != [] && b != [] && a[0] == b[0] {
      LexLeTotal(a[1..], b[1..]);
    }
  }

  lemma {:induction false} LexLeTransitive(a: string, b: string, c: string)
    requires LexLe(a, b) && LexLe(b, c)
    ensures LexLe(a, c)
    decreases |a|
  {
    if a != [] && a[0] == b[0] && b[0] == c[0] {
      LexLeTransitive(a[1..], b[1..], c[1..]);
    }
  }

  lemma {:induction false} LexLeAntisymmetric(a: string, b: string)
    requires LexLe(a, b) && LexLe(b, a)
    ensures a == b
    decreases |a|
  {
    if a != [] {
      LexLeAntisymmetric(a[1..], b[1..]);
      assert a == [a[0]] + a[1..];
      assert b == [b[0]] + b[1..];
    }
  }
}
