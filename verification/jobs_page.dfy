/**
 * The job list page: the filtered jobs, reordered in place by the sort
 * the user picked. The engine's stable `Array.prototype.sort` is modelled
 * as a stable insertion sort on the comparator the page passes.
 */
module JobsPage {
  import opened Wrappers
  import opened Lists
  import opened Domain
  import opened Queries

  datatype SortKey = Recent | SalaryHigh | SalaryLow | MostApplicants

  /** The `switch (sortBy)` cases; any other value sorts nothing. */
  function ParseSortKey(sortBy: string): (k: Option<SortKey>)
    ensures k == Some(Recent) <==> sortBy == "recent"
    ensures k == Some(SalaryHigh) <==> sortBy == "salary-high"
    ensures k == Some(SalaryLow) <==> sortBy == "salary-low"
    ensures k == Some(MostApplicants) <==> sortBy == "applicants"
  {
    if sortBy == "recent" then Some(Recent)
    else if sortBy == "salary-high" then Some(SalaryHigh)
    else if sortBy == "salary-low" then Some(SalaryLow)
    else if sortBy == "applicants" then Some(MostApplicants)
    else None
  }

  /** The number a comparator subtracts: ascending rank is the order the sort produces. */
  function Rank(k: SortKey, j: Job): int {
    match k
    case Recent => -j.postedAt
    case SalaryHigh => -j.salaryMax
    case SalaryLow => j.salaryMin
    case MostApplicants => -j.applicants
  }

  /** The comparator each case passes to `sort`; it is the difference of the two ranks. */
  function Compare(k: SortKey, a: Job, b: Job): (c: int)
    ensures c == Rank(k, a) - Rank(k, b)
  {
    match k
    case Recent => b.postedAt - a.postedAt
    case SalaryHigh => b.salaryMax - a.salaryMax
    case SalaryLow => a.salaryMin - b.salaryMin
    case MostApplicants => b.applicants - a.applicants
  }

  /** Every pair is in comparator order. */
  predicate Sorted(k: SortKey, s: seq<Job>) {
    forall i, j :: 0 <= i < j < |s| ==> Compare(k, s[i], s[j]) <= 0
  }

  /** The rank of `k` as a function value: the sort below is generic in it. */
  function KeyOf(k: SortKey): Job -> int {
    (j: Job) => Rank(k, j)
  }

  /** Every pair is in ascending order of `key`. */
  predicate SortedOn(key: Job -> int, s: seq<Job>) {
    forall i, j :: 0 <= i < j < |s| ==> key(s[i]) <= key(s[j])
  }

  /**
   * Where `x` goes in `t`: after the last element it does not strictly
   * precede, so that every element after it has a larger key.
   */
  function InsertPos(key: Job -> int, x: Job, t: seq<Job>): (p: nat)
    ensures p <= |t|
  {
    if t == [] || key(t[|t| - 1]) <= key(x) then |t|
    else InsertPos(key, x, t[..|t| - 1])
  }

  /** The element before the position does not outrank `x`; every element after it does. */
  lemma {:induction false} InsertPosSpec(key: Job -> int, x: Job, t: seq<Job>)
    ensures var p := InsertPos(key, x, t);
      (p == 0 || key(t[p - 1]) <= key(x)) && forall m :: p <= m < |t| ==> key(x) < key(t[m])
  {
    if t != [] && key(x) < key(t[|t| - 1]) {
      var init := t[..|t| - 1];
      InsertPosSpec(key, x, init);
      var p := InsertPos(key, x, init);
      assert forall m :: p <= m < |init| ==> t[m] == init[m];
    }
  }

  /** Only one position has both properties of `InsertPos`. */
  lemma InsertPosUnique(key: Job -> int, x: Job, t: seq<Job>, j: int)
    requires 0 <= j <= |t|
    requires j == 0 || key(t[j - 1]) <= key(x)
    requires forall m :: j <= m < |t| ==> key(x) < key(t[m])
    ensures j == InsertPos(key, x, t)
  {
    InsertPosSpec(key, x, t);
  }

  /** One step of insertion sort: `x` placed into `t` at its position. */
  function Insert(key: Job -> int, x: Job, t: seq<Job>): (r: seq<Job>)
    ensures |r| == |t| + 1
  {
    var p := InsertPos(key, x, t);
    t[..p] + [x] + t[p..]
  }

  /** The stable sort: each element in turn is inserted into the sorted prefix before it. */
  function SortOn(key: Job -> int, s: seq<Job>): (r: seq<Job>)
    ensures |r| == |s|
  {
    if s == [] then [] else Insert(key, s[|s| - 1], SortOn(key, s[..|s| - 1]))
  }

  /**
   * What `jobs.sort(compare)` produces for the sort `k`: a permutation of
   * the input in comparator order.
   */
  function SortBy(k: SortKey, s: seq<Job>): (r: seq<Job>)
    ensures |r| == |s|
    ensures Sorted(k, r)
    ensures multiset(r) == multiset(s)
  {
    SortOnCorrect(KeyOf(k), s);
    SortOn(KeyOf(k), s)
  }

  lemma InsertPermutes(key: Job -> int, x: Job, t: seq<Job>)
    ensures multiset(Insert(key, x, t)) == multiset(t) + multiset{x}
  {
    var p := InsertPos(key, x, t);
    assert t == t[..p] + t[p..];
  }

  lemma InsertKeepsSorted(key: Job -> int, x: Job, t: seq<Job>)
    requires SortedOn(key, t)
    ensures SortedOn(key, Insert(key, x, t))
  {
    InsertPosSpec(key, x, t);
    var p := InsertPos(key, x, t);
    var r := Insert(key, x, t);
    forall i, j | 0 <= i < j < |r| ensures key(r[i]) <= key(r[j]) {
      if j < p {
        assert r[i] == t[i] && r[j] == t[j];
      } else if p < i {
        assert r[i] == t[i - 1] && r[j] == t[j - 1];
      } else if i == p {
        assert r[i] == x && r[j] == t[j - 1];
      } else if i < p && p < j {
        assert r[i] == t[i] && r[j] == t[j - 1];
      } else {
        assert r[i] == t[i] && r[j] == x;
        assert key(t[i]) <= key(t[p - 1]);
      }
    }
  }

  lemma {:induction false} SortOnCorrect(key: Job -> int, s: seq<Job>)
    ensures SortedOn(key, SortOn(key, s))
    ensures multiset(SortOn(key, s)) == multiset(s)
  {
    if s != [] {
      var init := s[..|s| - 1];
      SortOnCorrect(key, init);
      InsertKeepsSorted(key, s[|s| - 1], SortOn(key, init));
      InsertPermutes(key, s[|s| - 1], SortOn(key, init));
      assert s == init + [s[|s| - 1]];
    }
  }

  /** The predicate "has key `v`". */
  function KeyIs(key: Job -> int, v: int): Job -> bool {
    (j: Job) => key(j) == v
  }

  /** Inserting `x` keeps it after every element with the same key. */
  lemma InsertStable(key: Job -> int, x: Job, t: seq<Job>, v: int)
    ensures Filter(Insert(key, x, t), KeyIs(key, v)) == Filter(t, KeyIs(key, v)) + Filter([x], KeyIs(key, v))
  {
    var f := KeyIs(key, v);
    var p := InsertPos(key, x, t);
    assert t == t[..p] + t[p..];
    TailOutranks(key, x, t);
    FilterMoveBack(t[..p], x, t[p..], f);
  }

  /** Every element after the insertion position has a larger key than `x`. */
  lemma TailOutranks(key: Job -> int, x: Job, t: seq<Job>)
    ensures forall y :: y in t[InsertPos(key, x, t)..] ==> key(x) < key(y)
  {
    InsertPosSpec(key, x, t);
    var p := InsertPos(key, x, t);
    forall y | y in t[p..] ensures key(x) < key(y) {
      var m :| 0 <= m < |t[p..]| && t[p..][m] == y;
      assert y == t[p + m];
    }
  }

  lemma {:induction false} SortOnStable(key: Job -> int, s: seq<Job>, v: int)
    ensures Filter(SortOn(key, s), KeyIs(key, v)) == Filter(s, KeyIs(key, v))
  {
    if s != [] {
      var f := KeyIs(key, v);
      var init, x := s[..|s| - 1], s[|s| - 1];
      assert s == init + [x];
      var sorted := SortOn(key, init);
      SortOnStable(key, init, v);
      InsertStable(key, x, sorted, v);
      FilterAppend(init, [x], f);
      calc {
        Filter(SortOn(key, s), f);
        Filter(Insert(key, x, sorted), f);
        Filter(sorted, f) + Filter([x], f);
        Filter(init, f) + Filter([x], f);
        Filter(s, f);
      }
    }
  }

  /**
   * Stability: for every rank, the jobs with that rank appear in the
   * sorted list in the same order as in the input.
   */
  lemma SortByStable(k: SortKey, s: seq<Job>, v: int)
    ensures Filter(SortBy(k, s), KeyIs(KeyOf(k), v)) == Filter(s, KeyIs(KeyOf(k), v))
  {
    SortOnStable(KeyOf(k), s, v);
  }

  /** The sorted prefix grows by inserting the next element. */
  lemma SortOnPrefix(key: Job -> int, s: seq<Job>, i: int)
    requires 0 <= i < |s|
    ensures SortOn(key, s[..i + 1]) == Insert(key, s[i], SortOn(key, s[..i]))
  {
    assert s[..i + 1][..i] == s[..i];
  }

  /** One pass of the insertion sort: `a[i]` moves back into the prefix `a[..i]`. */
  method InsertInPlace(a: array<Job>, i: int, key: Job -> int)
    requires 0 <= i < a.Length
    modifies a
    ensures a[..i + 1] == Insert(key, old(a[i]), old(a[..i]))
    ensures a[i + 1..] == old(a[i + 1..])
  {
    ghost var sorted := a[..i];
    var x := a[i];
    var j := i;
    while j > 0 && key(x) < key(a[j - 1])
      invariant 0 <= j <= i
      invariant forall m :: 0 <= m < j ==> a[m] == sorted[m]
      invariant forall m :: j < m <= i ==> a[m] == sorted[m - 1]
      invariant forall m :: i < m < a.Length ==> a[m] == old(a[m])
      invariant forall m :: j <= m < i ==> key(x) < key(sorted[m])
    {
      a[j] := a[j - 1];
      j := j - 1;
    }
    a[j] := x;
    InsertPosUnique(key, x, sorted, j);
    Shifted(a[..i + 1], sorted, x, j);
  }

  /** The array prefix after the inner loop, read as a sequence. */
  lemma Shifted(b: seq<Job>, t: seq<Job>, x: Job, j: int)
    requires |b| == |t| + 1 && 0 <= j <= |t|
    requires forall m :: 0 <= m < j ==> b[m] == t[m]
    requires b[j] == x
    requires forall m :: j < m < |b| ==> b[m] == t[m - 1]
    ensures b == t[..j] + [x] + t[j..]
  {
  }

  /** `jobs.sort(compare)`: reorders the array in place into `SortBy` of its old contents. */
  method SortJobs(a: array<Job>, k: SortKey)
    modifies a
    ensures a[..] == SortBy(k, old(a[..]))
  {
    var key := KeyOf(k);
    ghost var orig := a[..];
    var i := 0;
    while i < a.Length
      invariant 0 <= i <= a.Length
      invariant a[..i] == SortOn(key, orig[..i])
      invariant a[i..] == orig[i..]
    {
      assert a[i] == orig[i];
      InsertInPlace(a, i, key);
      SortOnPrefix(key, orig, i);
      i := i + 1;
    }
    assert a[..] == a[..a.Length] && orig == orig[..a.Length];
  }

  /** What comparator order means for each sort the page offers. */
  lemma SortedMeans(sortBy: string, s: seq<Job>)
    requires ParseSortKey(sortBy).Some? && Sorted(ParseSortKey(sortBy).value, s)
    ensures sortBy == "recent" ==> forall i, j :: 0 <= i < j < |s| ==> s[i].postedAt >= s[j].postedAt
    ensures sortBy == "salary-high" ==> forall i, j :: 0 <= i < j < |s| ==> s[i].salaryMax >= s[j].salaryMax
    ensures sortBy == "salary-low" ==> forall i, j :: 0 <= i < j < |s| ==> s[i].salaryMin <= s[j].salaryMin
    ensures sortBy == "applicants" ==> forall i, j :: 0 <= i < j < |s| ==> s[i].applicants >= s[j].applicants
  {
    var k := ParseSortKey(sortBy).value;
    forall i, j | 0 <= i < j < |s| ensures Compare(k, s[i], s[j]) <= 0 {
    }
  }

  /**
   * The `useMemo` block of the page: a fresh copy of the filtered jobs,
   * sorted in place when `sortBy` names a sort, otherwise left in catalog
   * order. The catalog itself is never reordered.
   */
  method DisplayedJobs(s: State, sortBy: string) returns (jobs: seq<Job>)
    ensures multiset(jobs) == multiset(MatchingJobs(s.jobs, s.filters))
    ensures ParseSortKey(sortBy).None? ==> jobs == MatchingJobs(s.jobs, s.filters)
    ensures ParseSortKey(sortBy).Some? ==> jobs == SortBy(ParseSortKey(sortBy).value, MatchingJobs(s.jobs, s.filters))
    ensures ParseSortKey(sortBy).Some? ==> Sorted(ParseSortKey(sortBy).value, jobs)
    ensures sortBy == "recent" ==> forall i, j :: 0 <= i < j < |jobs| ==> jobs[i].postedAt >= jobs[j].postedAt
    ensures sortBy == "salary-high" ==> forall i, j :: 0 <= i < j < |jobs| ==> jobs[i].salaryMax >= jobs[j].salaryMax
    ensures sortBy == "salary-low" ==> forall i, j :: 0 <= i < j < |jobs| ==> jobs[i].salaryMin <= jobs[j].salaryMin
    ensures sortBy == "applicants" ==> forall i, j :: 0 <= i < j < |jobs| ==> jobs[i].applicants >= jobs[j].applicants
  {
    var filtered := GetFilteredJobs(s);
    var a := new Job[|filtered|](i requires 0 <= i < |filtered| => filtered[i]);
    assert a[..] == filtered;
    var key := ParseSortKey(sortBy);
    if key.Some? {
      SortJobs(a, key.value);
    }
    jobs := a[..];
    if key.Some? {
      SortedMeans(sortBy, jobs);
    }
  }
}
