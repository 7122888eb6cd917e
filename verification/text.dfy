/**
 * String operations the pipeline relies on: ASCII upper-casing (`str.upper`),
 * Python's code-point ordering of strings (the order `groupby` sorts keys in),
 * and left-to-right removal of literal patterns (`str.replace` / `re.sub`
 * with an empty replacement).
 */
module Text {
  import opened Wrappers
  import opened Seqs

  // ---------------------------------------------------------------- case

  predicate IsLower(c: char) {
    'a' <= c <= 'z'
  }

  predicate NoLower(s: string) {
    forall i :: 0 <= i < |s| ==> !IsLower(s[i])
  }

  predicate HasLower(s: string) {
    exists i :: 0 <= i < |s| && IsLower(s[i])
  }

  function UpperChar(c: char): char {
    if IsLower(c) then (c as int - 32) as char else c
  }

  /** Upper-cases every ASCII letter and leaves every other character alone. */
  function Upper(s: string): (r: string)
    ensures |r| == |s| && NoLower(r)
    ensures forall i :: 0 <= i < |s| && !IsLower(s[i]) ==> r[i] == s[i]
    ensures forall i :: 0 <= i < |s| && IsLower(s[i]) ==>
              'A' <= r[i] <= 'Z' && r[i] as int - 'A' as int == s[i] as int - 'a' as int
  {
    seq(|s|, i requires 0 <= i < |s| => UpperChar(s[i]))
  }

  /** A string with no lower-case letter is its own upper-case form. */
  lemma UpperOfUpper(s: string)
    requires NoLower(s)
    ensures Upper(s) == s
  {
  }

  // ---------------------------------------------------------------- order

  /** Lexicographic order on code points, as Python compares `str` values. */
  predicate StrLt(a: string, b: string) {
    if |a| == 0 then |b| > 0
    else if |b| == 0 then false
    else a[0] < b[0] || (a[0] == b[0] && StrLt(a[1..], b[1..]))
  }

  lemma StrLtIrreflexive(a: string)
    ensures !StrLt(a, a)
  {
  }

  lemma StrLtTransitive(a: string, b: string, c: string)
    requires StrLt(a, b) && StrLt(b, c)
    ensures StrLt(a, c)
  {
    if |a| > 0 && |b| > 0 && |c| > 0 && a[0] == b[0] == c[0] {
      StrLtTransitive(a[1..], b[1..], c[1..]);
    }
  }

  lemma StrLtTotal(a: string, b: string)
    ensures a == b || StrLt(a, b) || StrLt(b, a)
  {
    if |a| > 0 && |b| > 0 && a[0] == b[0] {
      StrLtTotal(a[1..], b[1..]);
      if a[1..] == b[1..] {
        assert a == [a[0]] + a[1..] && b == [b[0]] + b[1..];
      }
    }
  }

  predicate Ascending(s: seq<string>) {
    forall i, j :: 0 <= i < j < |s| ==> StrLt(s[i], s[j])
  }

  lemma AscendingIsDistinct(s: seq<string>)
    requires Ascending(s)
    ensures Distinct(s)
  {
    forall i, j | 0 <= i < j < |s|
      ensures s[i] != s[j]
    {
      StrLtIrreflexive(s[i]);
    }
  }

  function InsertKey(x: string, s: seq<string>): (r: seq<string>)
    requires Ascending(s)
    ensures Ascending(r)
    ensures forall y :: y in r <==> y == x || y in s
  {
    if |s| == 0 then [x]
    else if x == s[0] then s
    else if StrLt(x, s[0]) then
      assert forall j :: 0 < j < |s| ==> StrLt(s[0], s[j]);
      forall j | 0 < j < |s| ensures StrLt(x, s[j]) {
        StrLtTransitive(x, s[0], s[j]);
      }
      [x] + s
    else
      StrLtTotal(x, s[0]);
      var rest := InsertKey(x, s[1..]);
      assert forall y :: y in rest ==> StrLt(s[0], y);
      [s[0]] + rest
  }

  /** The distinct values of `s` in ascending order: the key order of a `groupby`. */
  function SortedDistinct(s: seq<string>): (r: seq<string>)
    ensures Ascending(r)
    ensures forall y :: y in r <==> y in s
  {
    if |s| == 0 then []
    else
      assert s == [s[0]] + s[1..];
      InsertKey(s[0], SortedDistinct(s[1..]))
  }

  // ---------------------------------------------------------------- removal

  predicate NonEmpty(pats: seq<string>) {
    forall p :: p in pats ==> |p| > 0
  }

  /** The first of `pats`, in order, that `s` starts with: the alternative a regex tries first. */
  function FirstMatch(s: string, pats: seq<string>): (r: Option<string>)
    ensures r.Some? ==> r.value in pats && r.value <= s
    ensures r.None? ==> forall p :: p in pats ==> !(p <= s)
  {
    if |pats| == 0 then None
    else if pats[0] <= s then Some(pats[0])
    else
      assert pats == [pats[0]] + pats[1..];
      FirstMatch(s, pats[1..])
  }

  /** Some pattern occurs in `s` starting at position `i`. */
  predicate MatchAt(s: string, i: int, pats: seq<string>) {
    0 <= i <= |s| && FirstMatch(s[i..], pats).Some?
  }

  predicate Occurs(s: string, pats: seq<string>) {
    exists i :: 0 <= i < |s| && MatchAt(s, i, pats)
  }

  /**
   * Removes pattern occurrences scanning left to right: at each position the
   * first matching pattern is deleted and the scan resumes after it, otherwise
   * the character is kept. Deleted text is never rescanned, so a removal can
   * bring a new occurrence together that survives.
   */
  function RemoveAll(s: string, pats: seq<string>): (r: string)
    requires NonEmpty(pats)
    ensures |r| <= |s|
    ensures IsSubseq(r, s)
    decreases |s|
  {
    if |s| == 0 then ""
    else match FirstMatch(s, pats)
      case Some(p) =>
        var r := RemoveAll(s[|p|..], pats);
        SubseqOfSuffix(r, s, |p|);
        r
      case None =>
        [s[0]] + RemoveAll(s[1..], pats)
  }

  lemma RemoveAllKeep(s: string, pats: seq<string>)
    requires NonEmpty(pats) && |s| > 0 && FirstMatch(s, pats).None?
    ensures RemoveAll(s, pats) == [s[0]] + RemoveAll(s[1..], pats)
  {
  }

  lemma RemoveAllDrop(s: string, pats: seq<string>)
    requires NonEmpty(pats) && |s| > 0 && FirstMatch(s, pats).Some?
    ensures |FirstMatch(s, pats).value| <= |s|
    ensures RemoveAll(s, pats) == RemoveAll(s[|FirstMatch(s, pats).value|..], pats)
  {
  }

  lemma NoMatchTail(t: string, u: string, pats: seq<string>)
    requires |t| > 0
    requires forall j :: 0 <= j < |t| ==> !MatchAt(t + u, j, pats)
    ensures forall j :: 0 <= j < |t[1..]| ==> !MatchAt(t[1..] + u, j, pats)
  {
    forall j | 0 <= j < |t| - 1
      ensures !MatchAt(t[1..] + u, j, pats)
    {
      assert !MatchAt(t + u, j + 1, pats);
      assert (t[1..] + u)[j..] == (t + u)[j + 1..];
    }
  }

  /** A prefix in which no occurrence starts passes through unchanged. */
  lemma {:induction false} RemoveAllConcat(t: string, u: string, pats: seq<string>)
    requires NonEmpty(pats)
    requires forall j :: 0 <= j < |t| ==> !MatchAt(t + u, j, pats)
    ensures RemoveAll(t + u, pats) == t + RemoveAll(u, pats)
    decreases |t|
  {
    if |t| == 0 {
      assert t + u == u;
    } else {
      RemoveAllConcatHead(t, u, pats);
      NoMatchTail(t, u, pats);
      RemoveAllConcat(t[1..], u, pats);
      ConsTail(t, RemoveAll(u, pats));
    }
  }

  lemma RemoveAllConcatHead(t: string, u: string, pats: seq<string>)
    requires NonEmpty(pats) && |t| > 0
    requires !MatchAt(t + u, 0, pats)
    ensures RemoveAll(t + u, pats) == [t[0]] + RemoveAll(t[1..] + u, pats)
  {
    var v := t + u;
    assert v[0..] == v;
    RemoveAllKeep(v, pats);
    assert v[1..] == t[1..] + u;
  }

  lemma ConsTail(t: string, w: string)
    requires |t| > 0
    ensures [t[0]] + (t[1..] + w) == t + w
  {
  }

  /**
   * The leftmost occurrence is the one deleted: everything before it is
   * kept verbatim and the scan resumes right after the deleted text.
   */
  lemma RemoveAllLeftmost(s: string, i: nat, pats: seq<string>)
    requires NonEmpty(pats)
    requires MatchAt(s, i, pats)
    requires forall j :: 0 <= j < i ==> !MatchAt(s, j, pats)
    ensures i + |FirstMatch(s[i..], pats).value| <= |s|
    ensures RemoveAll(s, pats) ==
              s[..i] + RemoveAll(s[i + |FirstMatch(s[i..], pats).value|..], pats)
  {
    RemoveAllPrefix(s, i, pats);
    RemoveAllAt(s, i, pats);
  }

  lemma RemoveAllPrefix(s: string, i: nat, pats: seq<string>)
    requires NonEmpty(pats) && i <= |s|
    requires forall j :: 0 <= j < i ==> !MatchAt(s, j, pats)
    ensures RemoveAll(s, pats) == s[..i] + RemoveAll(s[i..], pats)
  {
    assert s[..i] + s[i..] == s;
    RemoveAllConcat(s[..i], s[i..], pats);
  }

  lemma RemoveAllAt(s: string, i: nat, pats: seq<string>)
    requires NonEmpty(pats) && MatchAt(s, i, pats)
    ensures i + |FirstMatch(s[i..], pats).value| <= |s|
    ensures RemoveAll(s[i..], pats) == RemoveAll(s[i + |FirstMatch(s[i..], pats).value|..], pats)
  {
    var u := s[i..];
    var p := FirstMatch(u, pats).value;
    assert |p| > 0 && p <= u;
    RemoveAllDrop(u, pats);
    assert u[|p|..] == s[i + |p|..];
  }

  /** With no occurrence at all, removal is the identity. */
  lemma RemoveAllNoOccurrence(s: string, pats: seq<string>)
    requires NonEmpty(pats) && !Occurs(s, pats)
    ensures RemoveAll(s, pats) == s
  {
    assert s + "" == s;
    forall j | 0 <= j < |s|
      ensures !MatchAt(s + "", j, pats)
    {
    }
    RemoveAllConcat(s, "", pats);
  }

  /** Any occurrence makes the result strictly shorter. */
  lemma {:induction false} RemoveAllShrinks(s: string, pats: seq<string>)
    requires NonEmpty(pats) && Occurs(s, pats)
    ensures |RemoveAll(s, pats)| < |s|
    decreases |s|
  {
    var i :| 0 <= i < |s| && MatchAt(s, i, pats);
    assert s[0..] == s;
    if FirstMatch(s, pats).None? {
      assert i > 0;
      assert s[1..][i - 1..] == s[i..];
      assert MatchAt(s[1..], i - 1, pats);
      RemoveAllShrinks(s[1..], pats);
    }
  }

  /** Removal changes a string exactly when some pattern occurs in it. */
  lemma RemoveAllFixpoint(s: string, pats: seq<string>)
    requires NonEmpty(pats)
    ensures RemoveAll(s, pats) == s <==> !Occurs(s, pats)
  {
    if Occurs(s, pats) {
      RemoveAllShrinks(s, pats);
    } else {
      RemoveAllNoOccurrence(s, pats);
    }
  }

  /** Patterns that contain a lower-case letter cannot occur in an upper-case string. */
  lemma NoLowerNoOccurrence(s: string, pats: seq<string>)
    requires NoLower(s)
    requires forall p :: p in pats ==> HasLower(p)
    ensures !Occurs(s, pats)
  {
    forall i, p | 0 <= i < |s| && p in pats
      ensures !(p <= s[i..])
    {
      var k :| 0 <= k < |p| && IsLower(p[k]);
      if |p| <= |s[i..]| {
        assert s[i..][k] == s[i + k];
        assert !IsLower(s[i..][k]);
      }
    }
  }

  /**
   * When every pattern opens with a character other than `c` followed by `c`,
   * no occurrence starts inside a prefix `t` free of `c`, provided the text after
   * `t` does not begin with `c`.
   */
  lemma AnchoredNoMatch(t: string, u: string, c: char, pats: seq<string>)
    requires forall p :: p in pats ==> |p| >= 2 && p[1] == c
    requires forall k :: 0 <= k < |t| ==> t[k] != c
    requires |u| > 0 && u[0] != c
    ensures forall j :: 0 <= j < |t| ==> !MatchAt(t + u, j, pats)
  {
    forall j, p | 0 <= j < |t| && p in pats
      ensures !(p <= (t + u)[j..])
    {
      if j + 1 < |t| {
        assert (t + u)[j + 1] == t[j + 1];
      } else {
        assert (t + u)[j + 1] == u[0];
      }
      assert (t + u)[j..][1] == (t + u)[j + 1];
    }
  }

  /**
   * Patterns anchored on `c` at their second character cannot occur in a string
   * whose only `c` sits at its second position, unless they match at the start.
   */
  lemma AnchoredNoOccurrence(s: string, c: char, pats: seq<string>)
    requires forall p :: p in pats ==> |p| >= 2 && p[1] == c
    requires forall k :: 2 <= k < |s| ==> s[k] != c
    requires |s| >= 2 && s[1] == c ==> FirstMatch(s, pats).None?
    ensures !Occurs(s, pats)
  {
    forall j, p | 0 <= j < |s| && p in pats && |p| <= |s[j..]|
      ensures !(p <= s[j..])
    {
      assert s[j..][1] == s[j + 1];
      if j == 0 {
        assert s[j..] == s;
      }
    }
  }
}
