/**
 * String helpers with JavaScript's meaning: the white space that `String.prototype.trim`
 * and the regular-expression class `\s` recognise, trimming, ASCII lower-casing, the
 * collapsing of white-space runs (`replace(/\s+/g, ' ')`), decimal digit strings and
 * substring search (`indexOf`, `includes`, `startsWith`).
 */
module Text {

  /** White space for `trim()` and `\s`: the ECMAScript WhiteSpace and LineTerminator sets. */
  predicate IsSpace(c: char) {
    c == ' ' || ('\t' <= c <= '\r') || (c >= '\U{A0}' && IsWideSpace(c))
  }

  /** The white space beyond ASCII. */
  predicate IsWideSpace(c: char) {
    c == '\U{A0}' || c == '\U{1680}' || ('\U{2000}' <= c <= '\U{200A}')
    || c == '\U{2028}' || c == '\U{2029}' || c == '\U{202F}' || c == '\U{205F}'
    || c == '\U{3000}' || c == '\U{FEFF}'
  }

  predicate NoSpace(s: string) {
    forall i :: 0 <= i < |s| ==> !IsSpace(s[i])
  }

  predicate AllSpace(s: string) {
    forall i :: 0 <= i < |s| ==> IsSpace(s[i])
  }

  /** Neither the first nor the last character is white space. */
  predicate IsTrimmed(s: string) {
    s == [] || (!IsSpace(s[0]) && !IsSpace(s[|s| - 1]))
  }

  /** The first index from `i` on that does not hold white space, or `|s|`. */
  function SpaceEnd(s: string, i: nat): (k: nat)
    requires i <= |s|
    ensures i <= k <= |s|
    ensures forall j :: i <= j < k ==> IsSpace(s[j])
    ensures k < |s| ==> !IsSpace(s[k])
    decreases |s| - i
  {
    if i < |s| && IsSpace(s[i]) then SpaceEnd(s, i + 1) else i
  }

  /** Any index with only white space before it (from `i`) and none at it is `SpaceEnd`. */
  lemma SpaceEndUnique(s: string, i: nat, k: nat)
    requires i <= k <= |s|
    requires forall j :: i <= j < k ==> IsSpace(s[j])
    requires k < |s| ==> !IsSpace(s[k])
    ensures SpaceEnd(s, i) == k
  {
  }

  /** The end of `s[..j]` once its trailing white space is dropped. */
  function TextEnd(s: string, j: nat): (e: nat)
    requires j <= |s|
    ensures e <= j
    ensures forall m :: e <= m < j ==> IsSpace(s[m])
    ensures e > 0 ==> !IsSpace(s[e - 1])
    decreases j
  {
    if j > 0 && IsSpace(s[j - 1]) then TextEnd(s, j - 1) else j
  }

  /** Any end with only white space after it (up to `j`) and none just before it is `TextEnd`. */
  lemma TextEndUnique(s: string, j: nat, e: nat)
    requires e <= j <= |s|
    requires forall m :: e <= m < j ==> IsSpace(s[m])
    requires e > 0 ==> !IsSpace(s[e - 1])
    ensures TextEnd(s, j) == e
  {
  }

  /** Leading white space removed (`trimStart`). */
  function TrimStart(s: string): (r: string)
    ensures |r| <= |s| && r == s[|s| - |r|..]
    ensures AllSpace(s[..|s| - |r|])
    ensures r != [] ==> !IsSpace(r[0])
  {
    var k := SpaceEnd(s, 0);
    assert forall j :: 0 <= j < k ==> s[..k][j] == s[j];
    s[k..]
  }

  /** Trailing white space removed (`trimEnd`). */
  function TrimEnd(s: string): (r: string)
    ensures |r| <= |s| && r == s[..|r|]
    ensures AllSpace(s[|r|..])
    ensures r != [] ==> !IsSpace(r[|r| - 1])
  {
    var e := TextEnd(s, |s|);
    assert forall m :: 0 <= m < |s| - e ==> s[e..][m] == s[e + m];
    s[..e]
  }

  /** `String.prototype.trim`; `TrimSlices` says which slice of `s` it is. */
  function Trim(s: string): (r: string)
    ensures IsTrimmed(r) && |r| <= |s|
  {
    TrimTrimmed(s);
    TrimEnd(TrimStart(s))
  }

  lemma TrimTrimmed(s: string)
    ensures IsTrimmed(TrimEnd(TrimStart(s)))
  {
    var t := TrimStart(s);
    var r := TrimEnd(t);
    if r != [] {
      assert r[0] == t[0];
    }
  }

  /** The trim is the slice `s[k..k + |r|]`, and only white space lies either side of it. */
  lemma TrimSlices(s: string)
    ensures var r := Trim(s); var k := |s| - |TrimStart(s)|;
      && k + |r| <= |s| && r == s[k..k + |r|]
      && AllSpace(s[..k]) && AllSpace(s[k + |r|..])
  {
    var t := TrimStart(s);
    var r := TrimEnd(t);
    assert Trim(s) == r;
    SliceOfSuffix(s, t, r, |s| - |t|);
    AllSpaceDrop(s, t, |s| - |t|, |r|);
  }

  /** A prefix of the suffix `s[k..]` is a slice of `s`. */
  lemma SliceOfSuffix(s: string, t: string, r: string, k: nat)
    requires k <= |s| && t == s[k..] && |r| <= |t| && r == t[..|r|]
    ensures k + |r| <= |s| && r == s[k..k + |r|]
  {
  }

  lemma AllSpaceDrop(s: string, t: string, k: nat, n: nat)
    requires k <= |s| && t == s[k..] && n <= |t| && AllSpace(t[n..])
    ensures AllSpace(s[k + n..])
  {
    assert s[k + n..] == t[n..];
  }

  lemma TrimStartOfTrimmed(s: string)
    requires s == [] || !IsSpace(s[0])
    ensures TrimStart(s) == s
  {
    SpaceEndUnique(s, 0, 0);
  }

  lemma TrimEndOfTrimmed(s: string)
    requires s == [] || !IsSpace(s[|s| - 1])
    ensures TrimEnd(s) == s
  {
    TextEndUnique(s, |s|, |s|);
  }

  /** A trimmed string is its own trim. */
  lemma TrimOfTrimmed(s: string)
    requires IsTrimmed(s)
    ensures Trim(s) == s
  {
    TrimStartOfTrimmed(s);
    TrimEndOfTrimmed(s);
  }

  /** `trim()` is idempotent. */
  lemma TrimIdempotent(s: string)
    ensures Trim(Trim(s)) == Trim(s)
  {
    TrimOfTrimmed(Trim(s));
  }

  /** Trimming keeps a non-white-space character at either end's inner side: if `s` has one, so has the result. */
  lemma TrimStartAppend(a: string, b: string)
    requires !AllSpace(a)
    ensures TrimStart(a + b) == TrimStart(a) + b
  {
    var k := SpaceEnd(a, 0);
    var ab := a + b;
    assert forall j :: 0 <= j < |a| ==> ab[j] == a[j];
    SpaceEndUnique(ab, 0, k);
    assert ab[k..] == a[k..] + b;
  }

  lemma TrimEndPrepend(a: string, b: string)
    requires !AllSpace(b)
    ensures TrimEnd(a + b) == a + TrimEnd(b)
  {
    var e := TextEnd(b, |b|);
    var ab := a + b;
    assert forall m :: 0 <= m < |b| ==> ab[|a| + m] == b[m];
    forall m | |a| + e <= m < |ab|
      ensures IsSpace(ab[m])
    {
      assert ab[m] == b[m - |a|];
    }
    TextEndUnique(ab, |ab|, |a| + e);
    assert ab[..|a| + e] == a + b[..e];
  }

  /** ASCII lower-casing of one character. */
  function LowerChar(c: char): (r: char)
    ensures 'A' <= c <= 'Z' ==> r as int == c as int + 32
    ensures !('A' <= c <= 'Z') ==> r == c
    ensures !('A' <= r <= 'Z')
    ensures IsSpace(r) <==> IsSpace(c)
  {
    if 'A' <= c <= 'Z' then (c as int + 32) as char else c
  }

  /** `toLowerCase`, on the ASCII letters. */
  function Lower(s: string): (r: string)
    ensures |r| == |s|
    ensures forall i :: 0 <= i < |s| ==> r[i] == LowerChar(s[i])
  {
    seq(|s|, i requires 0 <= i < |s| => LowerChar(s[i]))
  }

  lemma LowerIdempotent(s: string)
    ensures Lower(Lower(s)) == Lower(s)
  {
  }

  lemma LowerAppend(a: string, b: string)
    ensures Lower(a + b) == Lower(a) + Lower(b)
  {
  }

  /** Lower-casing does not move white space, so trimming and lower-casing commute. */
  lemma TrimStartLower(s: string)
    ensures TrimStart(Lower(s)) == Lower(TrimStart(s))
  {
    var k := SpaceEnd(s, 0);
    SpaceEndUnique(Lower(s), 0, k);
    assert Lower(s)[k..] == Lower(s[k..]);
  }

  lemma TrimEndLower(s: string)
    ensures TrimEnd(Lower(s)) == Lower(TrimEnd(s))
  {
    var e := TextEnd(s, |s|);
    TextEndUnique(Lower(s), |s|, e);
    assert Lower(s)[..e] == Lower(s[..e]);
  }

  lemma TrimLower(s: string)
    ensures Trim(Lower(s)) == Lower(Trim(s))
  {
    TrimStartLower(s);
    TrimEndLower(TrimStart(s));
  }

  /** No two neighbouring characters are both white space, and the only white space is ' '. */
  predicate SingleSpaced(s: string) {
    && (forall i :: 0 <= i < |s| && IsSpace(s[i]) ==> s[i] == ' ')
    && (forall i, j :: 0 <= i < |s| && 0 <= j < |s| && j == i + 1 ==> !(IsSpace(s[i]) && IsSpace(s[j])))
  }

  /** `replace(/\s+/g, ' ')`: every maximal run of white space becomes one ' '. */
  function Collapse(s: string): (r: string)
    ensures |r| <= |s|
    decreases |s|
  {
    if s == [] then []
    else if IsSpace(s[0]) then [' '] + Collapse(TrimStart(s))
    else [s[0]] + Collapse(s[1..])
  }

  /** What `Collapse` produces: single-spaced text, empty exactly when the input is,
      starting and ending with white space exactly when the input does. */
  lemma CollapseShape(s: string)
    ensures var r := Collapse(s);
      && SingleSpaced(r)
      && (r == [] <==> s == [])
      && (r != [] ==> (IsSpace(r[0]) <==> IsSpace(s[0])))
      && (r != [] ==> (IsSpace(r[|r| - 1]) <==> IsSpace(s[|s| - 1])))
  {
    CollapseFirst(s);
    CollapseSingle(s);
    CollapseLast(s);
  }

  lemma CollapseFirst(s: string)
    ensures var r := Collapse(s);
      && (r == [] <==> s == [])
      && (r != [] ==> (IsSpace(r[0]) <==> IsSpace(s[0])))
  {
  }

  lemma {:induction false} CollapseSingle(s: string)
    ensures SingleSpaced(Collapse(s))
    decreases |s|
  {
    if s != [] {
      var r := Collapse(s);
      if IsSpace(s[0]) {
        var rest := TrimStart(s);
        CollapseSingle(rest);
        CollapseFirst(rest);
        SpacePrepend(Collapse(rest));
        assert r == [' '] + Collapse(rest);
      } else {
        CollapseSingle(s[1..]);
        CharPrepend(s[0], Collapse(s[1..]));
      }
    }
  }

  /** One space before single-spaced text that does not start with white space. */
  lemma SpacePrepend(t: string)
    requires SingleSpaced(t) && (t == [] || !IsSpace(t[0]))
    ensures SingleSpaced([' '] + t)
  {
    var u := [' '] + t;
    forall i, j | 0 <= i < |u| && 0 <= j < |u| && j == i + 1 ensures !(IsSpace(u[i]) && IsSpace(u[j])) {
      if i > 0 {
        assert u[i] == t[i - 1] && u[j] == t[j - 1];
      }
    }
    forall i | 0 <= i < |u| && IsSpace(u[i]) ensures u[i] == ' ' {
      if i > 0 {
        assert u[i] == t[i - 1];
      }
    }
  }

  /** A character that is not white space before single-spaced text. */
  lemma CharPrepend(c: char, t: string)
    requires SingleSpaced(t) && !IsSpace(c)
    ensures SingleSpaced([c] + t)
  {
    var u := [c] + t;
    forall i, j | 0 <= i < |u| && 0 <= j < |u| && j == i + 1 ensures !(IsSpace(u[i]) && IsSpace(u[j])) {
      if i > 0 {
        assert u[i] == t[i - 1] && u[j] == t[j - 1];
      }
    }
    forall i | 0 <= i < |u| && IsSpace(u[i]) ensures u[i] == ' ' {
      if i > 0 {
        assert u[i] == t[i - 1];
      }
    }
  }

  lemma {:induction false} CollapseLast(s: string)
    ensures var r := Collapse(s);
      r != [] ==> (IsSpace(r[|r| - 1]) <==> IsSpace(s[|s| - 1]))
    decreases |s|
  {
    if s != [] {
      if IsSpace(s[0]) {
        var rest := TrimStart(s);
        CollapseLast(rest);
        CollapseFirst(rest);
        assert rest != [] ==> s[|s| - 1] == rest[|rest| - 1];
      } else {
        CollapseLast(s[1..]);
        CollapseFirst(s[1..]);
      }
    }
  }

  /** A prefix without white space passes through `Collapse` unchanged. */
  lemma {:induction false} CollapseWordPrefix(a: string, b: string)
    requires NoSpace(a)
    ensures Collapse(a + b) == a + Collapse(b)
    decreases |a|
  {
    if a == [] {
      assert a + b == b;
    } else {
      var ab := a + b;
      assert ab[0] == a[0] && !IsSpace(a[0]);
      assert ab[1..] == a[1..] + b;
      assert NoSpace(a[1..]) by {
        forall i | 0 <= i < |a[1..]| ensures !IsSpace(a[1..][i]) {
          assert a[1..][i] == a[i + 1];
        }
      }
      CollapseWordPrefix(a[1..], b);
      assert Collapse(ab) == [a[0]] + Collapse(ab[1..]);
      assert [a[0]] + (a[1..] + Collapse(b)) == a + Collapse(b);
    }
  }

  /** Collapsing a string that starts with white space followed by more text. */
  lemma CollapseSpacePrefix(w: string, b: string)
    requires w != [] && AllSpace(w)
    requires b == [] || !IsSpace(b[0])
    ensures Collapse(w + b) == [' '] + Collapse(b)
  {
    TrimStartOfSpaces(w, b);
  }

  lemma TrimStartOfSpaces(w: string, b: string)
    requires AllSpace(w)
    requires b == [] || !IsSpace(b[0])
    ensures TrimStart(w + b) == b
  {
    var wb := w + b;
    assert forall j :: 0 <= j < |w| ==> wb[j] == w[j];
    SpaceEndUnique(wb, 0, |w|);
    assert wb[|w|..] == b;
  }

  lemma SingleSpacedTail(s: string)
    requires s != [] && SingleSpaced(s)
    ensures SingleSpaced(s[1..])
    ensures IsSpace(s[0]) ==> s[0] == ' ' && (|s| == 1 || !IsSpace(s[1]))
  {
    var t := s[1..];
    forall i | 0 <= i < |t| ensures IsSpace(t[i]) ==> t[i] == ' ' {
      assert t[i] == s[i + 1];
    }
    forall i | 0 <= i < |t| - 1 ensures !(IsSpace(t[i]) && IsSpace(t[i + 1])) {
      assert t[i] == s[i + 1] && t[i + 1] == s[i + 2];
    }
  }

  /** Collapsing is the identity on single-spaced text, so it is idempotent. */
  lemma {:induction false} CollapseSingleSpaced(s: string)
    requires SingleSpaced(s)
    ensures Collapse(s) == s
    decreases |s|
  {
    if s != [] {
      var t := s[1..];
      SingleSpacedTail(s);
      CollapseSingleSpaced(t);
      if IsSpace(s[0]) {
        TrimStartOfTrimmed(t);
        assert TrimStart(s) == t;
      }
      assert s == [s[0]] + t;
    }
  }

  /** Any slice of single-spaced text is single-spaced. */
  lemma SingleSpacedSlice(s: string, i: nat, j: nat)
    requires SingleSpaced(s) && i <= j <= |s|
    ensures SingleSpaced(s[i..j])
  {
    var t := s[i..j];
    forall k | 0 <= k < |t| ensures IsSpace(t[k]) ==> t[k] == ' ' {
      assert t[k] == s[i + k];
    }
    forall k | 0 <= k < |t| - 1 ensures !(IsSpace(t[k]) && IsSpace(t[k + 1])) {
      assert t[k] == s[i + k] && t[k + 1] == s[i + k + 1];
    }
  }

  /** A collapsed text that starts with a word and a space came from text starting with that
      word and white space. */
  lemma {:induction false} CollapseStartsWith(s: string, w: string)
    requires NoSpace(w) && StartsWith(Collapse(s), w + " ")
    ensures |w| < |s| && StartsWith(s, w) && IsSpace(s[|w|])
    decreases |w|
  {
    var c := Collapse(s);
    assert c[0] == (w + " ")[0];
    if w == [] {
      assert c[0] == ' ';
    } else {
      assert c[0] == w[0] && !IsSpace(w[0]);
      assert !IsSpace(s[0]);
      var t := s[1..];
      assert c == [s[0]] + Collapse(t);
      assert NoSpace(w[1..]) by {
        forall i | 0 <= i < |w| - 1 ensures !IsSpace(w[1..][i]) { assert w[1..][i] == w[i + 1]; }
      }
      assert StartsWith(Collapse(t), w[1..] + " ") by {
        assert Collapse(t) == c[1..];
        assert (w + " ")[1..] == w[1..] + " ";
      }
      CollapseStartsWith(t, w[1..]);
      assert s == [s[0]] + t;
      assert s[..|w|] == [s[0]] + t[..|w| - 1];
      assert s[|w|] == t[|w| - 1];
    }
  }

  /** Two single-spaced strings joined without a space on both sides of the seam. */
  lemma SingleSpacedJoin(a: string, b: string)
    requires SingleSpaced(a) && SingleSpaced(b)
    requires a == [] || b == [] || !(IsSpace(a[|a| - 1]) && IsSpace(b[0]))
    ensures SingleSpaced(a + b)
  {
    var t := a + b;
    forall k | 0 <= k < |t| ensures IsSpace(t[k]) ==> t[k] == ' ' {
      if k < |a| { assert t[k] == a[k]; } else { assert t[k] == b[k - |a|]; }
    }
    forall k | 0 <= k < |t| - 1 ensures !(IsSpace(t[k]) && IsSpace(t[k + 1])) {
      if k + 1 < |a| {
        assert t[k] == a[k] && t[k + 1] == a[k + 1];
      } else if k + 1 == |a| {
        assert t[k] == a[k] && t[k + 1] == b[0];
      } else {
        assert t[k] == b[k - |a|] && t[k + 1] == b[k + 1 - |a|];
      }
    }
  }

  /** Lower-casing keeps text single-spaced. */
  lemma SingleSpacedLower(s: string)
    requires SingleSpaced(s)
    ensures SingleSpaced(Lower(s))
  {
    var t := Lower(s);
    forall k | 0 <= k < |t| ensures IsSpace(t[k]) ==> t[k] == ' ' {
      assert t[k] == LowerChar(s[k]);
    }
    forall k | 0 <= k < |t| - 1 ensures !(IsSpace(t[k]) && IsSpace(t[k + 1])) {
      assert t[k] == LowerChar(s[k]) && t[k + 1] == LowerChar(s[k + 1]);
    }
  }

  predicate IsDigit(c: char) {
    '0' <= c <= '9'
  }

  predicate AllDigits(s: string) {
    forall i :: 0 <= i < |s| ==> IsDigit(s[i])
  }

  /** The value of a decimal digit string (`parseInt(d, 10)` on digits only). */
  function DigitsValue(d: string): (n: nat)
    requires AllDigits(d)
    ensures |d| > 0 && d[0] != '0' ==> n > 0
  {
    if d == [] then 0 else DigitsValue(d[..|d| - 1]) * 10 + (d[|d| - 1] as int - '0' as int)
  }

  predicate StartsWith(s: string, p: string) {
    |p| <= |s| && s[..|p|] == p
  }

  predicate EndsWith(s: string, p: string) {
    |p| <= |s| && s[|s| - |p|..] == p
  }

  predicate OccursAt(s: string, p: string, i: nat) {
    i + |p| <= |s| && s[i..i + |p|] == p
  }

  /** `s.indexOf(p)`: the first index where `p` occurs, or -1. */
  function IndexOf(s: string, p: string): (r: int)
    ensures -1 <= r <= |s|
    ensures r >= 0 ==> OccursAt(s, p, r)
    ensures r >= 0 ==> forall j :: 0 <= j < r ==> !OccursAt(s, p, j)
    ensures r == -1 ==> forall j :: 0 <= j <= |s| ==> !OccursAt(s, p, j)
  {
    IndexFrom(s, p, 0)
  }

  function IndexFrom(s: string, p: string, from: nat): (r: int)
    requires from <= |s|
    ensures r == -1 || from <= r <= |s|
    ensures r >= 0 ==> OccursAt(s, p, r)
    ensures r >= 0 ==> forall j :: from <= j < r ==> !OccursAt(s, p, j)
    ensures r == -1 ==> forall j :: from <= j <= |s| ==> !OccursAt(s, p, j)
    decreases |s| - from
  {
    if OccursAt(s, p, from) then from
    else if from == |s| then -1
    else IndexFrom(s, p, from + 1)
  }

  /** `s.includes(p)`. */
  predicate Contains(s: string, p: string) {
    IndexOf(s, p) >= 0
  }

  lemma ContainsIff(s: string, p: string)
    ensures Contains(s, p) <==> exists j :: 0 <= j <= |s| && OccursAt(s, p, j)
  {
  }

  /** A prefix is found at index 0. */
  lemma IndexOfPrefix(s: string, p: string)
    requires StartsWith(s, p)
    ensures IndexOf(s, p) == 0
  {
    assert OccursAt(s, p, 0);
  }
}
