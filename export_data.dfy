/**
 * The two computations of the export script that are not I/O: the sorted list of
 * distinct landing sites, and the masking of the credentials in the database URI
 * before it is logged.
 */
module ExportData {
  import opened Wrappers
  import CatchRecords

  // ---------------------------------------------------------------------------
  // String order
  // ---------------------------------------------------------------------------

  /** The default `sort()` order on strings: lexicographic by character, a proper prefix first. */
  predicate StrLt(a: string, b: string): (r: bool)
    ensures r ==> a != b
    ensures |a| < |b| && a == b[..|a|] ==> r
  {
    if a == [] then b != []
    else if b == [] then false
    else a[0] < b[0] || (a[0] == b[0] && StrLt(a[1..], b[1..]))
  }

  predicate StrLe(a: string, b: string) {
    a == b || StrLt(a, b)
  }

  lemma {:induction false} StrLtIrreflexive(a: string)
    ensures !StrLt(a, a)
  {
    if a != [] {
      StrLtIrreflexive(a[1..]);
    }
  }

  lemma {:induction false} StrLtTransitive(a: string, b: string, c: string)
    requires StrLt(a, b) && StrLt(b, c)
    ensures StrLt(a, c)
  {
    if a != [] && a[0] == b[0] && b[0] == c[0] {
      StrLtTransitive(a[1..], b[1..], c[1..]);
    }
  }

  lemma {:induction false} StrLtTotal(a: string, b: string)
    ensures a == b || StrLt(a, b) || StrLt(b, a)
  {
    if a != [] && b != [] && a[0] == b[0] {
      StrLtTotal(a[1..], b[1..]);
      if a[1..] == b[1..] {
        assert a == [a[0]] + a[1..] && b == [b[0]] + b[1..];
      }
    }
  }

  lemma {:induction false} StrLtAsymmetric(a: string, b: string)
    ensures !(StrLt(a, b) && StrLt(b, a))
  {
    if a != [] && b != [] && a[0] == b[0] {
      StrLtAsymmetric(a[1..], b[1..]);
    }
  }

  lemma StrLeAntisymmetric(a: string, b: string)
    requires StrLe(a, b) && StrLe(b, a)
    ensures a == b
  {
    StrLtAsymmetric(a, b);
  }

  lemma StrLeTransitive(a: string, b: string, c: string)
    requires StrLe(a, b) && StrLe(b, c)
    ensures StrLe(a, c)
  {
    if a != b && b != c {
      StrLtTransitive(a, b, c);
    }
  }

  ghost predicate Sorted(s: seq<string>) {
    forall i, j :: 0 <= i < j < |s| ==> StrLe(s[i], s[j])
  }

  ghost predicate StrictlySorted(s: seq<string>) {
    forall i, j :: 0 <= i < j < |s| ==> StrLt(s[i], s[j])
  }

  ghost predicate Distinct(s: seq<string>) {
    forall i, j :: 0 <= i < j < |s| ==> s[i] != s[j]
  }

  // ---------------------------------------------------------------------------
  // new Set(...), spread, sort()
  // ---------------------------------------------------------------------------

  /** `[...new Set(xs)]`: the first occurrence of each value, in order of first occurrence. */
  function Dedupe(xs: seq<string>): (r: seq<string>)
    ensures Distinct(r)
    ensures forall x :: x in r <==> x in xs
    ensures |r| <= |xs|
  {
    if xs == [] then []
    else
      var rest := Dedupe(xs[..|xs| - 1]);
      var last := xs[|xs| - 1];
      assert forall x :: x in xs <==> x in xs[..|xs| - 1] || x == last by {
        assert xs == xs[..|xs| - 1] + [last];
      }
      if last in rest then rest else rest + [last]
  }

  /** Inserts `x` before the first element not below it. */
  function InsertStr(x: string, s: seq<string>): (r: seq<string>)
    ensures multiset(r) == multiset(s) + multiset{x}
  {
    if s == [] then [x]
    else if !StrLt(s[0], x) then [x] + s
    else
      assert s == [s[0]] + s[1..];
      [s[0]] + InsertStr(x, s[1..])
  }

  /** Insertion keeps a list sorted. */
  lemma {:induction false} InsertStrSorted(x: string, s: seq<string>)
    requires Sorted(s)
    ensures Sorted(InsertStr(x, s))
  {
    if s != [] {
      if !StrLt(s[0], x) {
        InsertFrontSorted(x, s);
      } else {
        assert Sorted(s[1..]) by {
          forall i, j | 0 <= i < j < |s[1..]| ensures StrLe(s[1..][i], s[1..][j]) {
            assert s[1..][i] == s[i + 1] && s[1..][j] == s[j + 1];
          }
        }
        InsertStrSorted(x, s[1..]);
        InsertPastSorted(x, s);
      }
    }
  }

  lemma InsertFrontSorted(x: string, s: seq<string>)
    requires Sorted(s) && s != [] && !StrLt(s[0], x)
    ensures Sorted([x] + s)
  {
    StrLtTotal(x, s[0]);
    var r := [x] + s;
    forall i, j | 0 <= i < j < |r| ensures StrLe(r[i], r[j]) {
      assert r[j] == s[j - 1];
      if i == 0 {
        if j > 1 {
          StrLeTransitive(x, s[0], s[j - 1]);
        }
      } else {
        assert r[i] == s[i - 1];
      }
    }
  }

  lemma InsertPastSorted(x: string, s: seq<string>)
    requires Sorted(s) && s != [] && StrLt(s[0], x)
    requires Sorted(InsertStr(x, s[1..]))
    ensures Sorted([s[0]] + InsertStr(x, s[1..]))
  {
    var t := InsertStr(x, s[1..]);
    InsertStrMembers(x, s[1..]);
    forall j | 0 <= j < |t| ensures StrLe(s[0], t[j]) {
      if t[j] != x {
        assert t[j] in t;
        var k :| 0 <= k < |s[1..]| && s[1..][k] == t[j];
        assert s[k + 1] == t[j];
      }
    }
    ConsSorted(s[0], t);
  }

  lemma InsertStrMembers(x: string, s: seq<string>)
    ensures forall y :: y in InsertStr(x, s) <==> y == x || y in s
  {
    var r := InsertStr(x, s);
    assert forall y :: y in r <==> y in multiset(r);
    assert forall y :: y in s <==> y in multiset(s);
  }

  lemma ConsSorted(h: string, t: seq<string>)
    requires Sorted(t)
    requires forall j :: 0 <= j < |t| ==> StrLe(h, t[j])
    ensures Sorted([h] + t)
  {
    var r := [h] + t;
    forall i, j | 0 <= i < j < |r| ensures StrLe(r[i], r[j]) {
      assert r[j] == t[j - 1];
      if i > 0 {
        assert r[i] == t[i - 1];
      }
    }
  }

  /** `Array.prototype.sort()` with the default comparison. */
  function SortStrings(xs: seq<string>): (r: seq<string>)
    ensures Sorted(r)
    ensures multiset(r) == multiset(xs)
  {
    if xs == [] then []
    else
      assert xs == [xs[0]] + xs[1..];
      InsertStrSorted(xs[0], SortStrings(xs[1..]));
      InsertStr(xs[0], SortStrings(xs[1..]))
  }

  lemma DistinctSortedIsStrict(s: seq<string>)
    requires Sorted(s) && Distinct(s)
    ensures StrictlySorted(s)
  {
  }

  lemma DistinctPermutation(a: seq<string>, b: seq<string>)
    requires Distinct(a) && multiset(a) == multiset(b)
    ensures Distinct(b)
  {
    forall i, j | 0 <= i < j < |b| ensures b[i] != b[j] {
      if b[i] == b[j] {
        assert b == b[..i] + [b[i]] + b[i + 1..j] + [b[j]] + b[j + 1..];
        assert multiset(b)[b[i]] >= 2;
        MultiplicityOfDistinct(a, b[i]);
      }
    }
  }

  lemma {:induction false} MultiplicityOfDistinct(a: seq<string>, x: string)
    requires Distinct(a)
    ensures multiset(a)[x] <= 1
  {
    if a != [] {
      var rest := a[..|a| - 1];
      assert a == rest + [a[|a| - 1]];
      assert Distinct(rest) by {
        forall i, j | 0 <= i < j < |rest| ensures rest[i] != rest[j] {
          assert rest[i] == a[i] && rest[j] == a[j];
        }
      }
      MultiplicityOfDistinct(rest, x);
      if x == a[|a| - 1] {
        assert x !in rest by {
          forall i | 0 <= i < |rest| ensures rest[i] != x {
            assert rest[i] == a[i];
          }
        }
      }
    }
  }

  /** The landing site of each record, in record order. */
  function SitesOf(records: seq<CatchRecords.CpueRecord>): (r: seq<string>)
    ensures |r| == |records|
    ensures forall i :: 0 <= i < |records| ==> r[i] == records[i].landingSite
  {
    seq(|records|, i requires 0 <= i < |records| => records[i].landingSite)
  }

  lemma SitesOfMembers(records: seq<CatchRecords.CpueRecord>)
    ensures forall s :: s in SitesOf(records) <==> exists i :: 0 <= i < |records| && records[i].landingSite == s
  {
    var sites := SitesOf(records);
    forall s ensures s in sites <==> exists i :: 0 <= i < |records| && records[i].landingSite == s {
      if s in sites {
        var i :| 0 <= i < |sites| && sites[i] == s;
      }
      if exists i :: 0 <= i < |records| && records[i].landingSite == s {
        var i :| 0 <= i < |records| && records[i].landingSite == s;
        assert sites[i] == s;
      }
    }
  }

  lemma SortedMembers(xs: seq<string>)
    ensures forall s :: s in SortStrings(xs) <==> s in xs
  {
    var r := SortStrings(xs);
    assert forall s :: s in r <==> s in multiset(r);
    assert forall s :: s in xs <==> s in multiset(xs);
  }

  /** The export's list of landing sites: the distinct sites of the records, in the default sort order. */
  function LandingSiteList(records: seq<CatchRecords.CpueRecord>): (r: seq<string>)
    ensures StrictlySorted(r)
    ensures forall s :: s in r <==> exists i :: 0 <= i < |records| && records[i].landingSite == s
  {
    var unique := Dedupe(SitesOf(records));
    var sorted := SortStrings(unique);
    DistinctPermutation(unique, sorted);
    DistinctSortedIsStrict(sorted);
    SitesOfMembers(records);
    SortedMembers(unique);
    sorted
  }

  lemma FirstIsLeast(a: seq<string>, x: string)
    requires StrictlySorted(a) && x in a
    ensures StrLe(a[0], x)
  {
    var k :| 0 <= k < |a| && a[k] == x;
  }

  /** In a strictly sorted list the tail holds what the list holds, except the head. */
  lemma TailMembers(a: seq<string>, x: string)
    requires StrictlySorted(a) && a != []
    ensures x in a[1..] <==> x in a && x != a[0]
  {
    if x in a[1..] {
      var k :| 0 <= k < |a[1..]| && a[1..][k] == x;
      assert a[k + 1] == x;
      StrLtIrreflexive(x);
    }
    if x in a && x != a[0] {
      var m :| 0 <= m < |a| && a[m] == x;
      assert a[1..][m - 1] == x;
    }
  }

  lemma StrictTail(a: seq<string>)
    requires StrictlySorted(a) && a != []
    ensures StrictlySorted(a[1..])
  {
    var t := a[1..];
    forall i, j | 0 <= i < j < |t| ensures StrLt(t[i], t[j]) {
      assert t[i] == a[i + 1] && t[j] == a[j + 1];
    }
  }

  /** Strictly sorted lists with the same elements are the same list. */
  lemma {:induction false} StrictlySortedUnique(a: seq<string>, b: seq<string>)
    requires StrictlySorted(a) && StrictlySorted(b)
    requires forall x :: x in a <==> x in b
    ensures a == b
    decreases |a|
  {
    if a != [] || b != [] {
      var x := if a != [] then a[0] else b[0];
      assert x in a && x in b;
      FirstIsLeast(a, b[0]);
      FirstIsLeast(b, a[0]);
      StrLeAntisymmetric(a[0], b[0]);
      forall x ensures x in a[1..] <==> x in b[1..] {
        TailMembers(a, x);
        TailMembers(b, x);
      }
      StrictTail(a);
      StrictTail(b);
      StrictlySortedUnique(a[1..], b[1..]);
      assert a == [a[0]] + a[1..] && b == [b[0]] + b[1..];
    }
  }

  /** The list depends only on which sites occur: it is the one strictly sorted list of them. */
  lemma LandingSiteListIsCanonical(records: seq<CatchRecords.CpueRecord>, other: seq<string>)
    requires StrictlySorted(other)
    requires forall s :: s in other <==> exists i :: 0 <= i < |records| && records[i].landingSite == s
    ensures LandingSiteList(records) == other
  {
    StrictlySortedUnique(LandingSiteList(records), other);
  }

  // ---------------------------------------------------------------------------
  // URI masking
  // ---------------------------------------------------------------------------

  const MASK: string := "//<username>:<password>@"

  /**
   * Positions `p <= u < w` of `s` match `//([^:]+):([^@]+)@` from `p`: `s[p..u]` is `//`
   * and a non-empty run without `:`, `s[u]` is `:`, `s[u+1..w]` is a non-empty run
   * without `@` and `s[w]` is `@`.
   */
  ghost predicate Credential(s: string, p: int, u: int, w: int) {
    && 0 <= p && p + 2 < u && u + 1 < w < |s|
    && s[p] == '/' && s[p + 1] == '/'
    && (forall k :: p + 2 <= k < u ==> s[k] != ':')
    && s[u] == ':'
    && (forall k :: u + 1 <= k < w ==> s[k] != '@')
    && s[w] == '@'
  }

  /** The end of the run from `i` that avoids `stop`: the first `stop` at or after `i`, or `|s|`. */
  function RunEnd(s: string, i: nat, stop: char): (j: nat)
    requires i <= |s|
    ensures i <= j <= |s|
    ensures forall k :: i <= k < j ==> s[k] != stop
    ensures j < |s| ==> s[j] == stop
    decreases |s| - i
  {
    if i == |s| || s[i] == stop then i else RunEnd(s, i + 1, stop)
  }

  /**
   * The regular expression tried at position `p`. Each character class excludes the
   * character that must follow it, so the greedy run is the only one that can succeed.
   */
  function MatchAt(s: string, p: nat): (r: Option<nat>)
    requires p <= |s|
    ensures r.Some? ==> exists u, w :: Credential(s, p, u, w) && r.value == w + 1
    ensures forall u, w :: Credential(s, p, u, w) ==> r == Some(w + 1)
  {
    if p + 2 < |s| && s[p] == '/' && s[p + 1] == '/' then
      var u := RunEnd(s, p + 2, ':');
      if p + 2 < u < |s| then
        var w := RunEnd(s, u + 1, '@');
        if u + 1 < w < |s| then
          assert Credential(s, p, u, w);
          Some(w + 1)
        else None
      else None
    else None
  }

  /** A match span: `s[start..end]` is replaced. */
  datatype Span = Span(start: nat, end: nat)

  /** The leftmost position at or after `from` where the expression matches. */
  function FirstMatch(s: string, from: nat): (r: Option<Span>)
    requires from <= |s|
    ensures r.Some? ==> from <= r.value.start <= |s| && MatchAt(s, r.value.start) == Some(r.value.end)
    ensures r.Some? ==> forall q :: from <= q < r.value.start ==> MatchAt(s, q).None?
    ensures r.None? ==> forall q :: from <= q <= |s| ==> MatchAt(s, q).None?
    decreases |s| - from
  {
    var m := MatchAt(s, from);
    if m.Some? then Some(Span(from, m.value))
    else if from == |s| then None
    else FirstMatch(s, from + 1)
  }

  /**
   * The URI as it is logged: the leftmost credential segment, if any, replaced by the mask.
   * Only the first match is replaced, since the expression is not global.
   */
  function MaskCredentials(s: string): (r: string)
    ensures FirstMatch(s, 0).None? ==> r == s
    ensures FirstMatch(s, 0).Some? ==>
      exists u, w :: Credential(s, FirstMatch(s, 0).value.start, u, w) && r == s[..FirstMatch(s, 0).value.start] + MASK + s[w + 1..]
  {
    match FirstMatch(s, 0)
    case None => s
    case Some(sp) =>
      if sp.end <= |s| then s[..sp.start] + MASK + s[sp.end..] else s
  }

  /** A URI without a `//user:password@` segment is logged unchanged. */
  lemma MaskWithoutCredentials(s: string)
    requires forall p, u, w :: !Credential(s, p, u, w)
    ensures MaskCredentials(s) == s
  {
    forall q | 0 <= q <= |s| ensures MatchAt(s, q).None? {
    }
    assert FirstMatch(s, 0).None?;
  }

  /** The leftmost `//user:password@` segment is replaced by the mask; every other character stays. */
  lemma MaskLeftmostCredential(s: string, p: int, u: int, w: int)
    requires Credential(s, p, u, w)
    requires forall q, u', w' :: q < p ==> !Credential(s, q, u', w')
    ensures MaskCredentials(s) == s[..p] + MASK + s[w + 1..]
  {
    forall q | 0 <= q < p ensures MatchAt(s, q).None? {
    }
    FirstMatchFinds(s, 0, p);
  }

  /** The search stops at the first position where the expression matches. */
  lemma {:induction false} FirstMatchFinds(s: string, from: nat, p: nat)
    requires from <= p <= |s| && MatchAt(s, p).Some?
    requires forall q :: from <= q < p ==> MatchAt(s, q).None?
    ensures FirstMatch(s, from) == Some(Span(p, MatchAt(s, p).value))
    decreases p - from
  {
    if from < p {
      FirstMatchFinds(s, from + 1, p);
    }
  }

  /** The masked form of `s` around the credential found at `p`. */
  function Masked(s: string, p: int, w: int): string
    requires 0 <= p <= w < |s|
  {
    s[..p] + MASK + s[w + 1..]
  }

  /** The mask itself is a credential segment, found where the original one began. */
  lemma MaskIsCredential(s: string, p: int, u: int, w: int)
    requires Credential(s, p, u, w)
    ensures Credential(Masked(s, p, w), p, p + 12, p + 23)
  {
    var t := Masked(s, p, w);
    assert |MASK| == 24;
    forall k | 0 <= k < 24 ensures t[p + k] == MASK[k] {
    }
  }

  /** A segment that starts before the mask in the masked string already started there in `s`. */
  lemma EarlierCredential(s: string, p: int, u: int, w: int, q: int, u1: int, w1: int)
    requires Credential(s, p, u, w)
    requires q < p && Credential(Masked(s, p, w), q, u1, w1)
    ensures exists u2, w2 :: Credential(s, q, u2, w2)
  {
    var t := Masked(s, p, w);
    assert |MASK| == 24;
    assert forall k :: 0 <= k < p ==> t[k] == s[k];
    assert forall k :: 0 <= k < 24 ==> t[p + k] == MASK[k];
    assert s[q] == '/' && s[q + 1] == '/';
    if u1 < p {
      if w1 < p {
        assert Credential(s, q, u1, w1);
      } else {
        var j := RunEnd(s, p, '@');
        assert j <= w;
        assert Credential(s, q, u1, j);
      }
    } else {
      assert forall k :: q + 2 <= k < p ==> s[k] != ':';
      assert Credential(s, q, u, w);
    }
  }

  /** The masked string has no segment before the mask when `s` had none before its own. */
  lemma NoEarlierCredential(s: string, p: int, u: int, w: int)
    requires Credential(s, p, u, w)
    requires forall q, u', w' :: q < p ==> !Credential(s, q, u', w')
    ensures forall q, u', w' :: q < p ==> !Credential(Masked(s, p, w), q, u', w')
  {
    forall q, u', w' | q < p && Credential(Masked(s, p, w), q, u', w') ensures false {
      EarlierCredential(s, p, u, w, q, u', w');
    }
  }

  /** Replacing the mask by itself gives the same string. */
  lemma MaskedTwice(s: string, p: int, w: int)
    requires 0 <= p <= w < |s|
    ensures Masked(Masked(s, p, w), p, p + 23) == Masked(s, p, w)
  {
    var t := Masked(s, p, w);
    assert |MASK| == 24;
    assert t[..p] == s[..p];
    assert t[p + 24..] == s[w + 1..];
    assert t[p..p + 24] == MASK;
    assert t == t[..p] + t[p..p + 24] + t[p + 24..];
  }

  /** Masking an already masked URI changes nothing. */
  lemma MaskIdempotent(s: string)
    ensures MaskCredentials(MaskCredentials(s)) == MaskCredentials(s)
  {
    var m := FirstMatch(s, 0);
    if m.Some? {
      var p := m.value.start;
      var u, w :| Credential(s, p, u, w) && m.value.end == w + 1;
      forall q, u', w' | q < p ensures !Credential(s, q, u', w') {
        if 0 <= q {
          assert MatchAt(s, q).None?;
        }
      }
      MaskLeftmostCredential(s, p, u, w);
      MaskIsCredential(s, p, u, w);
      NoEarlierCredential(s, p, u, w);
      MaskLeftmostCredential(Masked(s, p, w), p, p + 12, p + 23);
      MaskedTwice(s, p, w);
    }
  }
}
