/** String helpers: the code-unit order JavaScript's `<` uses, the store's case-insensitive
    collation, `toLowerCase` and `trim`. */
module Strings {

  /** Lexicographic order on code units. */
  predicate LexLess(a: string, b: string) {
    if |a| == 0 then |b| > 0
    else if |b| == 0 then false
    else if a[0] != b[0] then a[0] < b[0]
    else LexLess(a[1..], b[1..])
  }

  lemma {:induction false} LexLessIrreflexive(a: string)
    ensures !LexLess(a, a)
  {
    if |a| > 0 {
      LexLessIrreflexive(a[1..]);
    }
  }

  lemma {:induction false} LexLessTransitive(a: string, b: string, c: string)
    requires LexLess(a, b) && LexLess(b, c)
    ensures LexLess(a, c)
  {
    if |a| > 0 && |b| > 0 && |c| > 0 && a[0] == b[0] && b[0] == c[0] {
      LexLessTransitive(a[1..], b[1..], c[1..]);
    }
  }

  function LowerChar(c: char): char {
    if 'A' <= c <= 'Z' then (c as int + 32) as char else c
  }

  /** `toLowerCase` restricted to ASCII letters. */
  function Lower(s: string): (r: string)
    ensures |r| == |s|
    ensures forall i :: 0 <= i < |s| ==> r[i] == LowerChar(s[i])
  {
    if s == [] then [] else [LowerChar(s[0])] + Lower(s[1..])
  }

  function UpperChar(c: char): char {
    if 'a' <= c <= 'z' then (c as int - 32) as char else c
  }

  /** The weight string the store's `utf8_general_ci` collation compares: ASCII letters
      folded to upper case, everything else kept. */
  function CollationKey(s: string): (r: string)
    ensures |r| == |s|
    ensures forall i :: 0 <= i < |s| ==> r[i] == UpperChar(s[i])
  {
    if s == [] then [] else [UpperChar(s[0])] + CollationKey(s[1..])
  }

  /** `ORDER BY` under the collation. */
  predicate CollationLess(a: string, b: string) {
    LexLess(CollationKey(a), CollationKey(b))
  }

  /** `=` under the collation. */
  predicate CollationEqual(a: string, b: string) {
    CollationKey(a) == CollationKey(b)
  }

  lemma CollationLessIrreflexive(a: string)
    ensures !CollationLess(a, a)
  {
    LexLessIrreflexive(CollationKey(a));
  }

  lemma CollationLessTransitive(a: string, b: string, c: string)
    requires CollationLess(a, b) && CollationLess(b, c)
    ensures CollationLess(a, c)
  {
    LexLessTransitive(CollationKey(a), CollationKey(b), CollationKey(c));
  }

  /** The collation does not see case: a string equals its lower-cased form. */
  lemma CollationIgnoresCase(a: string)
    ensures CollationEqual(a, Lower(a))
  {
    assert CollationKey(a) == CollationKey(Lower(a)) by {
      forall i | 0 <= i < |a| ensures CollationKey(a)[i] == CollationKey(Lower(a))[i] {
        assert Lower(a)[i] == LowerChar(a[i]);
      }
    }
  }

  /** Unlike code-unit order, the collation sorts "apple" before "Banana". */
  lemma CollationOrderIsNotCodeUnitOrder()
    ensures CollationLess("apple", "Banana") && LexLess("Banana", "apple")
  {
    assert CollationKey("apple")[0] == 'A' && CollationKey("Banana")[0] == 'B';
  }

  /** The characters `String.prototype.trim` removes: white space and line terminators. */
  predicate IsJsWhitespace(c: char) {
    || c == '\t' || c == '\n' || c == '\U{000B}' || c == '\U{000C}' || c == '\r' || c == ' '
    || c == '\U{00A0}' || c == '\U{1680}' || ('\U{2000}' <= c <= '\U{200A}')
    || c == '\U{2028}' || c == '\U{2029}' || c == '\U{202F}' || c == '\U{205F}'
    || c == '\U{3000}' || c == '\U{FEFF}'
  }

  function TrimStart(s: string): (r: string)
    ensures |r| <= |s| && r == s[|s| - |r|..]
    ensures forall i :: 0 <= i < |s| - |r| ==> IsJsWhitespace(s[i])
    ensures r != [] ==> !IsJsWhitespace(r[0])
  {
    if s != [] && IsJsWhitespace(s[0]) then
      var r := TrimStart(s[1..]);
      assert s[1..][|s| - 1 - |r|..] == s[|s| - |r|..];
      assert forall i :: 0 < i < |s| - |r| ==> s[i] == s[1..][i - 1];
      r
    else s
  }

  function TrimEnd(s: string): (r: string)
    ensures |r| <= |s| && r == s[..|r|]
    ensures forall i :: |r| <= i < |s| ==> IsJsWhitespace(s[i])
    ensures r != [] ==> !IsJsWhitespace(r[|r| - 1])
  {
    if s != [] && IsJsWhitespace(s[|s| - 1]) then
      var r := TrimEnd(s[..|s| - 1]);
      assert s[..|s| - 1][..|r|] == s[..|r|];
      assert forall i :: |r| <= i < |s| - 1 ==> s[i] == s[..|s| - 1][i];
      r
    else s
  }

  /** `trim`: the input without leading and trailing white space. */
  function Trim(s: string): (r: string)
    ensures TrimmedFrom(s, r)
  {
    TrimIsTrimmed(s);
    TrimEnd(TrimStart(s))
  }

  /** `r` is a slice of `s` with only white space cut off either side, and neither of its
      ends is white space; it is empty exactly when `s` is all white space. */
  predicate TrimmedFrom(s: string, r: string) {
    && (exists i, j :: 0 <= i <= j <= |s| && r == s[i..j] && WhitespaceOutside(s, i, j))
    && (r != [] ==> !IsJsWhitespace(r[0]) && !IsJsWhitespace(r[|r| - 1]))
    && (r == [] <==> forall i :: 0 <= i < |s| ==> IsJsWhitespace(s[i]))
  }

  lemma TrimIsTrimmed(s: string)
    ensures TrimmedFrom(s, TrimEnd(TrimStart(s)))
  {
    TrimEmpty(s);
    TrimEnds(s);
    TrimInfixExists(s);
  }

  /** Every character of `s` before `i` and from `j` on is white space. */
  predicate WhitespaceOutside(s: string, i: nat, j: nat)
    requires i <= j <= |s|
  {
    && (forall k :: 0 <= k < i ==> IsJsWhitespace(s[k]))
    && (forall k :: j <= k < |s| ==> IsJsWhitespace(s[k]))
  }

  lemma TrimEnds(s: string)
    ensures var r := TrimEnd(TrimStart(s));
            r != [] ==> !IsJsWhitespace(r[0]) && !IsJsWhitespace(r[|r| - 1])
  {
    var t := TrimStart(s);
    var r := TrimEnd(t);
    if r != [] {
      assert r[0] == t[0];
    }
  }

  lemma TrimInfixExists(s: string)
    ensures exists i, j :: 0 <= i <= j <= |s| && TrimEnd(TrimStart(s)) == s[i..j] && WhitespaceOutside(s, i, j)
  {
    var i, j := TrimInfix(s);
  }

  lemma TrimInfix(s: string) returns (i: nat, j: nat)
    ensures i <= j <= |s| && TrimEnd(TrimStart(s)) == s[i..j] && WhitespaceOutside(s, i, j)
  {
    var t := TrimStart(s);
    var r := TrimEnd(t);
    i, j := |s| - |t|, |s| - |t| + |r|;
    assert t == s[i..];
    assert r == t[..|r|] == s[i..][..j - i] == s[i..j];
    forall k | j <= k < |s| ensures IsJsWhitespace(s[k]) {
      assert s[k] == t[k - i];
      assert |r| <= k - i < |t|;
    }
  }

  lemma TrimEmpty(s: string)
    ensures TrimEnd(TrimStart(s)) == [] <==> forall i :: 0 <= i < |s| ==> IsJsWhitespace(s[i])
  {
    var t := TrimStart(s);
    var r := TrimEnd(t);
    if r == [] {
      assert t == [];
    } else {
      assert r[0] == s[|s| - |t|];
    }
  }
}
