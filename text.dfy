/**
 * The string helpers the recommender relies on: Python's `str.strip()`,
 * `str.lower()`, the `in` substring test and `' '.join`.
 */
module Text {
  import opened Wrappers

  /** Python's `str.isspace` characters, which `str.strip()` removes. */
  predicate IsSpace(c: char) {
    var n := c as int;
    (0x09 <= n <= 0x0D) || (0x1C <= n <= 0x20) || n == 0x85 || n == 0xA0 || n == 0x1680
    || (0x2000 <= n <= 0x200A) || n == 0x2028 || n == 0x2029 || n == 0x202F || n == 0x205F
    || n == 0x3000
  }

  /** An upper-case letter that `Lower` folds: ASCII, Latin-1 and full-width Latin. */
  predicate IsUpper(c: char) {
    var n := c as int;
    (0x41 <= n <= 0x5A) || (0xC0 <= n <= 0xDE && n != 0xD7) || (0xFF21 <= n <= 0xFF3A)
  }

  function Lower(c: char): (r: char)
    ensures !IsUpper(r)
    ensures IsSpace(r) == IsSpace(c)
    ensures IsUpper(c) || r == c
  {
    if IsUpper(c) then (c as int + 32) as char else c
  }

  function LowerStr(s: string): (r: string)
    ensures |r| == |s|
    ensures forall i :: 0 <= i < |s| ==> r[i] == Lower(s[i])
  {
    if s == [] then [] else [Lower(s[0])] + LowerStr(s[1..])
  }

  function TrimLeft(s: string): string {
    if s != [] && IsSpace(s[0]) then TrimLeft(s[1..]) else s
  }

  function TrimRight(s: string): string {
    if s != [] && IsSpace(s[|s| - 1]) then TrimRight(s[..|s| - 1]) else s
  }

  /** Python's `str.strip()` with no argument. */
  function Strip(s: string): string {
    TrimRight(TrimLeft(s))
  }

  /** A string with no white space at either end. */
  predicate Trimmed(s: string) {
    s == [] || (!IsSpace(s[0]) && !IsSpace(s[|s| - 1]))
  }

  /** A string that is its own normal form: trimmed, no foldable upper-case letter. */
  predicate IsNormal(s: string) {
    Trimmed(s) && forall i :: 0 <= i < |s| ==> !IsUpper(s[i])
  }

  lemma {:induction false} TrimLeftShape(s: string)
    ensures TrimLeft(s) == [] || !IsSpace(TrimLeft(s)[0])
    ensures exists k :: 0 <= k <= |s| && TrimLeft(s) == s[k..] && forall i :: 0 <= i < k ==> IsSpace(s[i])
  {
    if s != [] && IsSpace(s[0]) {
      TrimLeftShape(s[1..]);
      var k :| 0 <= k <= |s[1..]| && TrimLeft(s[1..]) == s[1..][k..] && forall i :: 0 <= i < k ==> IsSpace(s[1..][i]);
      assert s[1..][k..] == s[k + 1..];
      forall i | 0 <= i < k + 1 ensures IsSpace(s[i]) {
        if i > 0 {
          assert s[i] == s[1..][i - 1];
        }
      }
    } else {
      assert s == s[0..];
    }
  }

  lemma {:induction false} TrimRightShape(s: string)
    ensures TrimRight(s) == [] || !IsSpace(TrimRight(s)[|TrimRight(s)| - 1])
    ensures exists k :: 0 <= k <= |s| && TrimRight(s) == s[..k] && forall i :: k <= i < |s| ==> IsSpace(s[i])
    ensures s == [] || !IsSpace(s[0]) ==> TrimRight(s) == [] || !IsSpace(TrimRight(s)[0])
  {
    if s != [] && IsSpace(s[|s| - 1]) {
      var init := s[..|s| - 1];
      TrimRightShape(init);
      var k :| 0 <= k <= |init| && TrimRight(init) == init[..k] && forall i :: k <= i < |init| ==> IsSpace(init[i]);
      assert init[..k] == s[..k];
      forall i | k <= i < |s| ensures IsSpace(s[i]) {
        if i < |init| {
          assert s[i] == init[i];
        }
      }
    } else {
      assert s == s[..|s|];
    }
  }

  lemma StripTrimmed(s: string)
    ensures Trimmed(Strip(s))
  {
    TrimLeftShape(s);
    TrimRightShape(TrimLeft(s));
  }

  /**
   * `strip()` removes only white space: the result is a contiguous slice of
   * the input, and everything before and after that slice is white space.
   */
  lemma StripIsSlice(s: string)
    ensures exists a, b :: 0 <= a <= b <= |s| && Strip(s) == s[a..b] && SpaceOutside(s, a, b)
  {
    TrimLeftShape(s);
    var a :| 0 <= a <= |s| && TrimLeft(s) == s[a..] && forall i :: 0 <= i < a ==> IsSpace(s[i]);
    var b := TrimSuffix(s, a);
    assert Strip(s) == s[a..b];
    assert SpaceOutside(s, a, b);
  }

  /** Trimming the right end of the suffix `s[a..]` leaves a slice `s[a..b]` followed by white space only. */
  lemma TrimSuffix(s: string, a: nat) returns (b: nat)
    requires a <= |s|
    ensures a <= b <= |s| && TrimRight(s[a..]) == s[a..b]
    ensures forall i :: b <= i < |s| ==> IsSpace(s[i])
  {
    var t := s[a..];
    TrimRightShape(t);
    var k :| 0 <= k <= |t| && TrimRight(t) == t[..k] && forall i :: k <= i < |t| ==> IsSpace(t[i]);
    b := a + k;
    assert t[..k] == s[a..b];
    forall i | b <= i < |s| ensures IsSpace(s[i]) {
      assert s[i] == t[i - a];
    }
  }

  /** Every character of `s` before position `a` and from position `b` on is white space. */
  predicate SpaceOutside(s: string, a: int, b: int)
  {
    (forall i :: 0 <= i < a && i < |s| ==> IsSpace(s[i]))
    && (forall i :: b <= i < |s| && 0 <= i ==> IsSpace(s[i]))
  }

  lemma {:induction false} StripOfTrimmed(s: string)
    requires Trimmed(s)
    ensures Strip(s) == s
  {
  }

  /**
   * `normalize_ingredient_name`: a missing value (NaN) becomes "", any other
   * value is stripped and lower-cased.
   */
  function Normalize(name: Option<string>): (r: string)
    ensures name.None? ==> r == ""
    ensures IsNormal(r)
  {
    match name
    case None => ""
    case Some(s) => NormalizeStr(s)
  }

  /** `str(s).strip().lower()` on a present string. */
  function NormalizeStr(s: string): (r: string)
    ensures IsNormal(r)
    ensures |r| <= |s|
  {
    StripTrimmed(s);
    TrimLeftShape(s);
    TrimRightShape(TrimLeft(s));
    LowerStr(Strip(s))
  }

  /** Normalisation is idempotent, the property that lets it serve as the identity of a name. */
  lemma NormalizeIdempotent(s: string)
    ensures NormalizeStr(NormalizeStr(s)) == NormalizeStr(s)
  {
    var n := NormalizeStr(s);
    StripOfTrimmed(n);
    LowerIdempotent(n);
  }

  lemma LowerIdempotent(s: string)
    requires forall i :: 0 <= i < |s| ==> !IsUpper(s[i])
    ensures LowerStr(s) == s
  {
  }

  /** `needle == hay[..|needle|]`. */
  predicate IsPrefix(needle: string, hay: string) {
    |needle| <= |hay| && hay[..|needle|] == needle
  }

  /** Python's `needle in hay` on two strings. */
  predicate Contains(hay: string, needle: string)
    decreases |hay|
  {
    IsPrefix(needle, hay) || (hay != [] && Contains(hay[1..], needle))
  }

  /** `needle` occurs in `hay` starting at offset `i`. */
  predicate OccursAt(hay: string, needle: string, i: int) {
    0 <= i && i + |needle| <= |hay| && hay[i..i + |needle|] == needle
  }

  /** `Contains` finds exactly the occurrences at some offset of `hay`. */
  lemma {:induction false} ContainsIffOccurs(hay: string, needle: string)
    ensures Contains(hay, needle) <==> exists i :: OccursAt(hay, needle, i)
    decreases |hay|
  {
    if hay == [] {
      if Contains(hay, needle) {
        assert OccursAt(hay, needle, 0);
      }
      if exists i :: OccursAt(hay, needle, i) {
        var i :| OccursAt(hay, needle, i);
        assert IsPrefix(needle, hay);
      }
    } else {
      ContainsIffOccurs(hay[1..], needle);
      if Contains(hay[1..], needle) {
        var i :| OccursAt(hay[1..], needle, i);
        assert hay[i + 1..i + 1 + |needle|] == hay[1..][i..i + |needle|];
        assert OccursAt(hay, needle, i + 1);
      }
      if IsPrefix(needle, hay) {
        assert OccursAt(hay, needle, 0);
      }
      if exists i :: OccursAt(hay, needle, i) {
        var i :| OccursAt(hay, needle, i);
        if i > 0 {
          assert hay[1..][i - 1..i - 1 + |needle|] == hay[i..i + |needle|];
          assert OccursAt(hay[1..], needle, i - 1);
        } else {
          assert IsPrefix(needle, hay);
        }
      }
    }
  }

  /** The empty string occurs in every string, as in Python. */
  lemma EmptyContained(hay: string)
    ensures Contains(hay, "")
  {
  }

  /**
   * The name test of the scorer and of the planner: equal, or either name
   * contains the other.
   */
  predicate NamesMatch(ingredient: string, inventory: string) {
    ingredient == inventory || Contains(inventory, ingredient) || Contains(ingredient, inventory)
  }

  /** An ingredient whose name normalises to "" matches every inventory name. */
  lemma EmptyNameMatchesAll(inventory: string)
    ensures NamesMatch(Normalize(None), inventory)
    ensures NamesMatch("", inventory)
  {
    EmptyContained(inventory);
  }

  /** Python's `' '.join(words)`: the words separated by single spaces. */
  function Join(words: seq<string>): string
    decreases |words|
  {
    if words == [] then ""
    else if |words| == 1 then words[0]
    else Join(words[..|words| - 1]) + " " + words[|words| - 1]
  }

  /** The total length of a list of words. */
  function TotalLength(words: seq<string>): nat
    decreases |words|
  {
    if words == [] then 0 else TotalLength(words[..|words| - 1]) + |words[|words| - 1]|
  }

  /** The joined string holds every character of the words and one space between neighbours. */
  lemma {:induction false} JoinLength(words: seq<string>)
    ensures |Join(words)| == TotalLength(words) + (if words == [] then 0 else |words| - 1)
    decreases |words|
  {
    if |words| == 1 {
      assert words[..0] == [];
    } else if |words| > 1 {
      JoinLength(words[..|words| - 1]);
    }
  }

  /** Every word stands somewhere inside the joined string. */
  lemma {:induction false} JoinContainsWord(words: seq<string>, m: nat)
    requires m < |words|
    ensures exists off :: OccursAt(Join(words), words[m], off)
    decreases |words|
  {
    if |words| == 1 {
      assert OccursAt(Join(words), words[0], 0);
    } else {
      var pre := words[..|words| - 1];
      var s := Join(words);
      assert s == Join(pre) + " " + words[|words| - 1];
      if m == |words| - 1 {
        assert OccursAt(s, words[m], |Join(pre)| + 1);
      } else {
        JoinContainsWord(pre, m);
        var off :| OccursAt(Join(pre), pre[m], off);
        assert s[off..off + |words[m]|] == Join(pre)[off..off + |pre[m]|];
        assert OccursAt(s, words[m], off);
      }
    }
  }
}
