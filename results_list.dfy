/** Sorting and paging of the result list (`polymet-fainder/src/polymet/components/results-list.tsx`). */
module ResultsList {
  import opened ResultCard

  /** Lexicographic comparison by character code, standing for `localeCompare`: -1, 0 or 1. */
  function StrCompare(s: string, t: string): (c: int)
    ensures -1 <= c <= 1
  {
    if |s| == 0 && |t| == 0 then 0
    else if |s| == 0 then -1
    else if |t| == 0 then 1
    else if s[0] < t[0] then -1
    else if s[0] > t[0] then 1
    else StrCompare(s[1..], t[1..])
  }

  /** The comparison is a total order: antisymmetric, zero only on equal strings, transitive. */
  lemma {:induction false} StrCompareOrder(s: string, t: string, u: string)
    ensures StrCompare(s, t) == -StrCompare(t, s)
    ensures StrCompare(s, t) == 0 <==> s == t
    ensures StrCompare(s, t) <= 0 && StrCompare(t, u) <= 0 ==> StrCompare(s, u) <= 0
    decreases |s|
  {
    if |s| > 0 && |t| > 0 && |u| > 0 {
      StrCompareOrder(s[1..], t[1..], u[1..]);
      if s[0] == t[0] {
        assert s == [s[0]] + s[1..] && t == [t[0]] + t[1..];
      }
    } else if |s| > 0 && |t| > 0 {
      StrCompareOrder(s[1..], t[1..], "");
      if s[0] == t[0] {
        assert s == [s[0]] + s[1..] && t == [t[0]] + t[1..];
      }
    }
  }

  /** The sort keys the comparator knows. */
  predicate KnownKey(sortBy: string) {
    sortBy == "name" || sortBy == "size" || sortBy == "type" || sortBy == "modified"
  }

  /** The comparator of `[...results].sort(...)`; any other key compares everything as equal. */
  function Compare(sortBy: string, a: FileResult, b: FileResult): int {
    if sortBy == "name" then StrCompare(a.name, b.name)
    else if sortBy == "size" then a.size - b.size
    else if sortBy == "type" then StrCompare(a.fileType, b.fileType)
    else if sortBy == "modified" then a.modified - b.modified
    else 0
  }

  predicate Le(sortBy: string, a: FileResult, b: FileResult) {
    Compare(sortBy, a, b) <= 0
  }

  /** Whatever the key, the comparator orders results totally and transitively. */
  lemma ComparePreorder(sortBy: string, a: FileResult, b: FileResult, c: FileResult)
    ensures Compare(sortBy, a, b) > 0 ==> Compare(sortBy, b, a) < 0
    ensures Le(sortBy, a, b) && Le(sortBy, b, c) ==> Le(sortBy, a, c)
    ensures !KnownKey(sortBy) ==> Compare(sortBy, a, b) == 0
  {
    StrCompareOrder(a.name, b.name, c.name);
    StrCompareOrder(a.fileType, b.fileType, c.fileType);
  }

  predicate Sorted(sortBy: string, s: seq<FileResult>) {
    forall i, j :: 0 <= i < j < |s| ==> Le(sortBy, s[i], s[j])
  }

  /** Insertion of the element at `j` into the sorted prefix `s[..i + 1]`: every other pair in
      that prefix is in order, and the element at `j` is below everything after it. */
  ghost predicate Inserting(sortBy: string, s: seq<FileResult>, i: nat, j: nat)
    requires j <= i < |s|
  {
    && (forall k, l :: 0 <= k < l <= i && k != j && l != j ==> Le(sortBy, s[k], s[l]))
    && (forall l :: j < l <= i ==> Le(sortBy, s[j], s[l]))
  }

  lemma StartInserting(sortBy: string, s: seq<FileResult>, i: nat)
    requires i < |s| && Sorted(sortBy, s[..i])
    ensures Inserting(sortBy, s, i, i)
  {
    forall k, l | 0 <= k < l < i ensures Le(sortBy, s[k], s[l]) {
      assert s[k] == s[..i][k] && s[l] == s[..i][l];
    }
  }

  /** One adjacent swap moves the element being inserted one place down. */
  lemma SwapStep(sortBy: string, s: seq<FileResult>, i: nat, j: nat)
    requires 0 < j <= i < |s|
    requires Inserting(sortBy, s, i, j)
    requires Compare(sortBy, s[j - 1], s[j]) > 0
    ensures Inserting(sortBy, s[j - 1 := s[j]][j := s[j - 1]], i, j - 1)
  {
    var t := s[j - 1 := s[j]][j := s[j - 1]];
    ComparePreorder(sortBy, s[j - 1], s[j], s[j]);
    forall k, l | 0 <= k < l <= i && k != j - 1 && l != j - 1 ensures Le(sortBy, t[k], t[l]) {
      if l == j {
        assert t[l] == s[j - 1];
      } else if k == j {
        assert t[k] == s[j - 1];
      }
    }
  }

  /** When the element is no longer below its left neighbour, the prefix is sorted. */
  lemma StopInserting(sortBy: string, s: seq<FileResult>, i: nat, j: nat)
    requires j <= i < |s|
    requires Inserting(sortBy, s, i, j)
    requires j > 0 ==> Le(sortBy, s[j - 1], s[j])
    ensures Sorted(sortBy, s[..i + 1])
  {
    forall k, l | 0 <= k < l <= i ensures Le(sortBy, s[k], s[l]) {
      if l == j && k < j - 1 {
        ComparePreorder(sortBy, s[k], s[j - 1], s[j]);
      }
    }
  }

  /** One pass of the insertion: the element at `i` sinks past the strictly greater ones. */
  method SinkInto(a: array<FileResult>, i: nat, sortBy: string)
    requires i < a.Length && Sorted(sortBy, a[..i])
    modifies a
    ensures Sorted(sortBy, a[..i + 1])
    ensures multiset(a[..]) == multiset(old(a[..]))
    ensures KnownKey(sortBy) || a[..] == old(a[..])
  {
    StartInserting(sortBy, a[..], i);
    var j := i;
    while j > 0 && Compare(sortBy, a[j - 1], a[j]) > 0
      invariant 0 <= j <= i
      invariant multiset(a[..]) == multiset(old(a[..]))
      invariant Inserting(sortBy, a[..], i, j)
      invariant KnownKey(sortBy) || a[..] == old(a[..])
      decreases j
    {
      SwapStep(sortBy, a[..], i, j);
      a[j - 1], a[j] := a[j], a[j - 1];
      j := j - 1;
    }
    StopInserting(sortBy, a[..], i, j);
  }

  /** `[...results].sort(...)`: a sorted copy, made by insertion with adjacent swaps on a fresh
      array, which moves an element only past strictly greater ones. */
  method SortResults(results: seq<FileResult>, sortBy: string) returns (sorted: seq<FileResult>)
    ensures |sorted| == |results| && multiset(sorted) == multiset(results)
    ensures Sorted(sortBy, sorted)
    ensures !KnownKey(sortBy) ==> sorted == results
  {
    var a := new FileResult[|results|](i requires 0 <= i < |results| => results[i]);
    assert a[..] == results;
    var i := 0;
    while i < a.Length
      invariant 0 <= i <= a.Length
      invariant multiset(a[..]) == multiset(results)
      invariant Sorted(sortBy, a[..i])
      invariant KnownKey(sortBy) || a[..] == results
    {
      SinkInto(a, i, sortBy);
      i := i + 1;
    }
    sorted := a[..];
    assert a[..a.Length] == sorted;
  }

  const ResultsPerPage := 12

  /** `Math.ceil(n / 12)`. */
  function TotalPages(n: nat): (t: nat)
    ensures n <= t * ResultsPerPage
    ensures t > 0 ==> (t - 1) * ResultsPerPage < n
  {
    (n + ResultsPerPage - 1) / ResultsPerPage
  }

  /** How `Array.prototype.slice` reads an index: negative ones count from the end, and every
      index is clamped to the list. */
  function SliceIndex(i: int, n: nat): (k: nat)
    ensures k <= n
  {
    if i < 0 then (if n + i < 0 then 0 else n + i) else if i > n then n else i
  }

  /** `s.slice(start, end)`. */
  function Slice<T>(s: seq<T>, start: int, end: int): seq<T> {
    var a, b := SliceIndex(start, |s|), SliceIndex(end, |s|);
    if a < b then s[a..b] else []
  }

  function Min(a: int, b: int): int {
    if a < b then a else b
  }

  /** The results on page `page`. */
  function PageItems(sorted: seq<FileResult>, page: int): seq<FileResult> {
    var startIndex := (page - 1) * ResultsPerPage;
    Slice(sorted, startIndex, startIndex + ResultsPerPage)
  }

  /** Page `p` (from 1) shows the sorted items from `(p - 1) * 12` up to `p * 12`, cut at the
      end of the list: at most twelve, none past the last page. */
  lemma PageItemsSpec(sorted: seq<FileResult>, page: int)
    requires page >= 1
    ensures var n := |sorted|;
      PageItems(sorted, page) == sorted[Min((page - 1) * ResultsPerPage, n)..Min(page * ResultsPerPage, n)]
    ensures |PageItems(sorted, page)| <= ResultsPerPage
    ensures page > TotalPages(|sorted|) ==> PageItems(sorted, page) == []
  {
  }

  /** Pages `1..k` one after the other. */
  function Pages(sorted: seq<FileResult>, k: nat): seq<FileResult> {
    if k == 0 then [] else Pages(sorted, k - 1) + PageItems(sorted, k)
  }

  lemma {:induction false} PagesPrefix(sorted: seq<FileResult>, k: nat)
    ensures Pages(sorted, k) == sorted[..Min(k * ResultsPerPage, |sorted|)]
  {
    if k > 0 {
      PagesPrefix(sorted, k - 1);
      PageItemsSpec(sorted, k);
      var n := |sorted|;
      var m := Min((k - 1) * ResultsPerPage, n);
      assert sorted[..Min(k * ResultsPerPage, n)] == sorted[..m] + sorted[m..Min(k * ResultsPerPage, n)];
    }
  }

  /** The pages `1..totalPages` together are exactly the sorted list. */
  lemma PagesCoverList(sorted: seq<FileResult>)
    ensures Pages(sorted, TotalPages(|sorted|)) == sorted
  {
    PagesPrefix(sorted, TotalPages(|sorted|));
  }

  /** The previous-page button: `Math.max(prev - 1, 1)`. */
  function Prev(page: int): int {
    if page - 1 > 1 then page - 1 else 1
  }

  /** The next-page button: `Math.min(prev + 1, totalPages)`. */
  function Next(page: int, totalPages: int): int {
    Min(page + 1, totalPages)
  }

  /** The paging controls are shown only when there is more than one page. */
  predicate ShowControls(n: nat) {
    TotalPages(n) > 1
  }

  /** From a page in `1..totalPages` the buttons move one page at most and stay in range; the
      buttons never go below page 1, and they only show for more than twelve results. */
  lemma PagingStaysInRange(page: int, totalPages: int, n: nat)
    ensures Prev(page) >= 1
    ensures 1 <= page <= totalPages ==>
      && 1 <= Prev(page) <= page && page - Prev(page) <= 1
      && page <= Next(page, totalPages) <= totalPages && Next(page, totalPages) - page <= 1
    ensures ShowControls(n) <==> n > ResultsPerPage
  {
  }
}
