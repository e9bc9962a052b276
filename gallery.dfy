/** The photo gallery: a shuffled order that survives reloads of the same
    photos, an infinite-scroll page size, and a masonry split into columns. */
module Gallery {
  import opened Types

  /** How many more photos each infinite-scroll step reveals; also the initial count. */
  const PageSize := 6

  function Min(a: int, b: int): int {
    if a <= b then a else b
  }

  // ---------------------------------------------------------------------------
  // Reusing the previous order

  /** The remembered order is reused when it is non-empty, has the same length
      as the new URL list, and every remembered URL occurs in the new list. */
  predicate IsSameSet(prevUrls: seq<string>, currentUrls: seq<string>) {
    |prevUrls| > 0 && |prevUrls| == |currentUrls| && forall u :: u in prevUrls ==> u in currentUrls
  }

  /** Without repeated URLs, the test holds exactly when the two non-empty URL
      lists are reorderings of each other. */
  lemma IsSameSetIsPermutation(prevUrls: seq<string>, currentUrls: seq<string>)
    requires Distinct(prevUrls) && Distinct(currentUrls)
    ensures IsSameSet(prevUrls, currentUrls) <==>
      |prevUrls| > 0 && multiset(prevUrls) == multiset(currentUrls)
  {
    if IsSameSet(prevUrls, currentUrls) {
      var sp := set x | x in prevUrls;
      var sc := set x | x in currentUrls;
      DistinctCard(prevUrls);
      DistinctCard(currentUrls);
      SubsetSameCard(sp, sc);
      DistinctSameElements(prevUrls, currentUrls);
    }
    if |prevUrls| > 0 && multiset(prevUrls) == multiset(currentUrls) {
      assert |prevUrls| == |multiset(prevUrls)| == |multiset(currentUrls)| == |currentUrls|;
      forall u | u in prevUrls ensures u in currentUrls {
        assert u in multiset(prevUrls);
      }
    }
  }

  /** With repeats the test is weaker than its name: it accepts a remembered
      order that misses a current URL. */
  lemma IsSameSetAcceptsRepeats()
    ensures IsSameSet(["a", "a"], ["a", "b"])
    ensures multiset(["a", "a"]) != multiset(["a", "b"])
  {
    assert "b" in multiset(["a", "b"]);
  }

  /** `new Map(data.map(p => [p.url, p]))`: one entry per URL of `data`,
      holding a photo with that URL. */
  function UrlMap(data: seq<Photo>): (m: map<string, Photo>)
    ensures forall k :: 0 <= k < |data| ==> data[k].url in m
    ensures forall u :: u in m ==> m[u] in data && m[u].url == u
  {
    if |data| == 0 then map[]
    else
      var init := data[..|data| - 1];
      assert forall k :: 0 <= k < |init| ==> init[k] == data[k];
      assert forall x :: x in init ==> x in data;
      UrlMap(init)[data[|data| - 1].url := data[|data| - 1]]
  }

  /** Entries are inserted in order, so for a repeated URL the last photo wins. */
  lemma {:induction false} UrlMapLastWins(data: seq<Photo>, i: nat)
    requires i < |data|
    requires forall j :: i < j < |data| ==> data[j].url != data[i].url
    ensures UrlMap(data)[data[i].url] == data[i]
  {
    var n := |data| - 1;
    if i < n {
      var init := data[..n];
      assert forall j :: i < j < |init| ==> init[j] == data[j];
      UrlMapLastWins(init, i);
    }
  }

  /** `prevUrls.map(url => dataMap.get(url)).filter(Boolean)`: photos are
      objects and so always truthy; only URLs missing from the map drop out. */
  function ReorderBy(prevUrls: seq<string>, m: map<string, Photo>): (r: seq<Photo>)
    ensures |r| <= |prevUrls|
    ensures forall k :: 0 <= k < |r| ==> r[k] in m.Values
    ensures (forall u :: u in prevUrls ==> u in m) ==>
      |r| == |prevUrls| && forall k :: 0 <= k < |r| ==> r[k] == m[prevUrls[k]]
  {
    if |prevUrls| == 0 then []
    else
      var rest := ReorderBy(prevUrls[1..], m);
      if prevUrls[0] in m then [m[prevUrls[0]]] + rest else rest
  }

  /** The photos of `data` in the remembered URL order. */
  function Reordered(prevUrls: seq<string>, data: seq<Photo>): (r: seq<Photo>)
    ensures forall k :: 0 <= k < |r| ==> r[k] in data
    ensures (forall u :: u in prevUrls ==> u in Urls(data)) ==>
      |r| == |prevUrls| && Urls(r) == prevUrls
  {
    var m := UrlMap(data);
    var r := ReorderBy(prevUrls, m);
    UrlsInMap(prevUrls, data);
    assert forall k :: 0 <= k < |r| ==> r[k] in data by {
      forall k | 0 <= k < |r| ensures r[k] in data {
        var u :| u in m && m[u] == r[k];
      }
    }
    r
  }

  lemma UrlsInMap(prevUrls: seq<string>, data: seq<Photo>)
    ensures (forall u :: u in prevUrls ==> u in Urls(data)) ==> forall u :: u in prevUrls ==> u in UrlMap(data)
  {
    forall u | u in prevUrls && u in Urls(data) ensures u in UrlMap(data) {
      var k :| 0 <= k < |data| && Urls(data)[k] == u;
    }
  }

  /** When every photo has its own URL and the remembered order lists each URL
      once, reusing the order shows exactly the new photos, each once. */
  lemma SameSetReorderIsPermutation(prevUrls: seq<string>, data: seq<Photo>)
    requires Distinct(Urls(data)) && Distinct(prevUrls)
    requires IsSameSet(prevUrls, Urls(data))
    ensures multiset(Reordered(prevUrls, data)) == multiset(data)
  {
    var r := Reordered(prevUrls, data);
    assert Distinct(r) by {
      forall i, j | 0 <= i < j < |r| ensures r[i] != r[j] {
        assert r[i].url == prevUrls[i] && r[j].url == prevUrls[j];
      }
    }
    assert Distinct(data) by {
      forall i, j | 0 <= i < j < |data| ensures data[i] != data[j] {
        assert Urls(data)[i] != Urls(data)[j];
      }
    }
    var sr := set x | x in r;
    var sd := set x | x in data;
    DistinctCard(r);
    DistinctCard(data);
    assert sr <= sd;
    SubsetSameCard(sr, sd);
    DistinctSameElements(r, data);
  }

  lemma {:induction false} DistinctCard<T>(s: seq<T>)
    requires Distinct(s)
    ensures |set x | x in s| == |s|
  {
    if |s| > 0 {
      DistinctCard(s[1..]);
      assert (set x | x in s) == {s[0]} + (set x | x in s[1..]);
      assert s[0] !in s[1..] by {
        forall k | 0 <= k < |s[1..]| ensures s[1..][k] != s[0] {
          assert s[k + 1] != s[0];
        }
      }
    }
  }

  lemma SubsetSameCard<T>(a: set<T>, b: set<T>)
    requires a <= b && |a| == |b|
    ensures a == b
  {
    assert b == a + (b - a);
    assert |b - a| == 0;
  }

  /** In a sequence without repeats every element occurs once. */
  lemma {:induction false} DistinctCount<T>(s: seq<T>, x: T)
    requires Distinct(s)
    ensures multiset(s)[x] == if x in s then 1 else 0
  {
    if |s| > 0 {
      assert s == [s[0]] + s[1..];
      assert Distinct(s[1..]) by {
        forall i, j | 0 <= i < j < |s[1..]| ensures s[1..][i] != s[1..][j] {
          assert s[i + 1] != s[j + 1];
        }
      }
      DistinctCount(s[1..], x);
      assert s[0] !in s[1..] by {
        forall k | 0 <= k < |s[1..]| ensures s[1..][k] != s[0] {
          assert s[k + 1] != s[0];
        }
      }
    }
  }

  lemma DistinctSameElements<T>(s: seq<T>, t: seq<T>)
    requires Distinct(s) && Distinct(t)
    requires (set x | x in s) == (set x | x in t)
    ensures multiset(s) == multiset(t)
  {
    forall x ensures multiset(s)[x] == multiset(t)[x] {
      DistinctCount(s, x);
      DistinctCount(t, x);
      var ss, st := set y | y in s, set y | y in t;
      assert x in s <==> x in ss;
      assert x in t <==> x in st;
    }
  }

  // ---------------------------------------------------------------------------
  // Shuffling

  /** Fisher–Yates on a fresh copy of `data`; `Math.random` is a
      nondeterministic choice of `j` in `[0, i]`. */
  method ShuffledCopy(data: seq<Photo>) returns (shuffled: seq<Photo>)
    ensures |shuffled| == |data|
    ensures multiset(shuffled) == multiset(data)
  {
    var a := new Photo[|data|](k requires 0 <= k < |data| => data[k]);
    assert a[..] == data;
    var i := a.Length - 1;
    while i > 0
      invariant -1 <= i < a.Length
      invariant multiset(a[..]) == multiset(data)
    {
      var j :| 0 <= j <= i;
      a[i], a[j] := a[j], a[i];
      i := i - 1;
    }
    shuffled := a[..];
  }

  /** A permutation of photos with distinct URLs has distinct URLs. */
  lemma PermutationKeepsUrlsDistinct(s: seq<Photo>, t: seq<Photo>)
    requires multiset(s) == multiset(t) && Distinct(Urls(t))
    ensures Distinct(Urls(s))
  {
    forall i, j | 0 <= i < j < |s| ensures Urls(s)[i] != Urls(s)[j] {
      if s[i].url == s[j].url {
        assert s[i] in multiset(t) && s[j] in multiset(t);
        var a :| 0 <= a < |t| && t[a] == s[i];
        var b :| 0 <= b < |t| && t[b] == s[j];
        SameUrlSameIndex(t, a, b);
        TwoOccurrences(s, i, j);
        DistinctCount(t, s[i]) by {
          assert Distinct(t) by {
            forall p, q | 0 <= p < q < |t| ensures t[p] != t[q] {
              assert Urls(t)[p] != Urls(t)[q];
            }
          }
        }
      }
    }
  }

  lemma SameUrlSameIndex(t: seq<Photo>, a: nat, b: nat)
    requires Distinct(Urls(t)) && a < |t| && b < |t| && t[a].url == t[b].url
    ensures a == b
  {
  }

  lemma TwoOccurrences<T>(s: seq<T>, i: nat, j: nat)
    requires i < j < |s| && s[i] == s[j]
    ensures multiset(s)[s[i]] >= 2
  {
    assert s == s[..j] + s[j..];
    assert s[i] in s[..j];
    assert s[j] in s[j..];
    assert multiset(s) == multiset(s[..j]) + multiset(s[j..]);
  }

  // ---------------------------------------------------------------------------
  // Masonry columns

  /** Two columns on a desktop-width viewport, one otherwise. */
  function NumColumns(isDesktop: bool): (n: nat)
    ensures 1 <= n <= 2
    ensures n == 2 <==> isDesktop
  {
    if isDesktop then 2 else 1
  }

  /** `Array.from({ length: n }, () => [])`. */
  function EmptyColumns<T>(n: nat): (cols: seq<seq<T>>)
    ensures |cols| == n
  {
    seq(n, _ => [])
  }

  /** Every column starts out empty. */
  lemma EmptyColumnsAreEmpty<T>(n: nat, c: nat)
    requires c < n
    ensures EmptyColumns<T>(n)[c] == []
  {
  }

  /** The columns after pushing the photos, one by one, onto column `index % n`. */
  function Deal<T>(vs: seq<T>, n: nat): (cols: seq<seq<T>>)
    requires n > 0
    ensures |cols| == n
  {
    if |vs| == 0 then EmptyColumns(n)
    else
      var prev := Deal(vs[..|vs| - 1], n);
      var c := (|vs| - 1) % n;
      prev[c := prev[c] + [vs[|vs| - 1]]]
  }

  /** The `forEach`/`push` loop that fills the columns. */
  method DistributeColumns<T>(visible: seq<T>, numColumns: nat) returns (cols: seq<seq<T>>)
    requires numColumns > 0
    ensures cols == Deal(visible, numColumns)
  {
    cols := EmptyColumns(numColumns);
    var index := 0;
    while index < |visible|
      invariant 0 <= index <= |visible|
      invariant cols == Deal(visible[..index], numColumns)
    {
      assert visible[..index + 1][..index] == visible[..index];
      var c := index % numColumns;
      cols := cols[c := cols[c] + [visible[index]]];
      index := index + 1;
    }
    assert visible[..index] == visible;
  }

  lemma DivModNext(m: nat, n: nat)
    requires n > 0
    ensures m % n + 1 < n ==> (m + 1) / n == m / n && (m + 1) % n == m % n + 1
    ensures m % n + 1 == n ==> (m + 1) / n == m / n + 1 && (m + 1) % n == 0
  {
    var q, r := m / n, m % n;
    assert m == q * n + r;
    if r + 1 < n {
      DivModUnique(m + 1, n, q, r + 1);
    } else {
      assert (q + 1) * n == q * n + n;
      DivModUnique(m + 1, n, q + 1, 0);
    }
  }

  /** Euclidean division has one quotient and one remainder. */
  lemma DivModUnique(a: nat, n: nat, q: int, r: int)
    requires n > 0 && 0 <= r < n && a == q * n + r
    ensures a / n == q && a % n == r
  {
    var q', r' := a / n, a % n;
    assert a == q' * n + r';
    assert (q - q') * n == q * n - q' * n;
    MulBetween(q - q', n);
  }

  /** A multiple of `n` strictly between `-n` and `n` is zero. */
  lemma MulBetween(d: int, n: int)
    requires n > 0 && -n < d * n < n
    ensures d == 0
  {
    if d > 0 {
      MulAtLeast(d, n);
    }
  }

  lemma {:induction false} MulAtLeast(d: nat, n: nat)
    requires d >= 1
    ensures d * n >= n
  {
    if d > 1 {
      MulAtLeast(d - 1, n);
      assert d * n == (d - 1) * n + n;
    }
  }

  /** Column `c` holds `|vs| / n` photos, plus one when `c` is below `|vs| % n`. */
  lemma {:induction false} DealColumnLength<T>(vs: seq<T>, n: nat, c: nat)
    requires n > 0 && c < n
    ensures |Deal(vs, n)[c]| == |vs| / n + (if c < |vs| % n then 1 else 0)
  {
    if |vs| > 0 {
      var m := |vs| - 1;
      DealColumnLength(vs[..m], n, c);
      DivModNext(m, n);
    }
  }

  /** Photo `i` lands in column `i % n` at row `i / n`; so every column keeps
      the photos' relative order. */
  lemma {:induction false} DealAt<T>(vs: seq<T>, n: nat, i: nat)
    requires n > 0 && i < |vs|
    ensures i / n < |Deal(vs, n)[i % n]|
    ensures Deal(vs, n)[i % n][i / n] == vs[i]
  {
    var m := |vs| - 1;
    if i == m {
      DealColumnLength(vs[..m], n, m % n);
    } else {
      assert vs[..m][i] == vs[i];
      DealAt(vs[..m], n, i);
    }
  }

  function Flatten<T>(cols: seq<seq<T>>): seq<T> {
    if |cols| == 0 then [] else cols[0] + Flatten(cols[1..])
  }

  lemma {:induction false} FlattenPush<T>(cols: seq<seq<T>>, c: nat, x: T)
    requires c < |cols|
    ensures multiset(Flatten(cols[c := cols[c] + [x]])) == multiset(Flatten(cols)) + multiset{x}
  {
    if c == 0 {
      assert cols[c := cols[c] + [x]][1..] == cols[1..];
    } else {
      FlattenPush(cols[1..], c - 1, x);
      assert cols[c := cols[c] + [x]][1..] == cols[1..][c - 1 := cols[1..][c - 1] + [x]];
    }
  }

  lemma {:induction false} FlattenEmpty<T>(n: nat)
    ensures Flatten(EmptyColumns<T>(n)) == []
  {
    if n > 0 {
      assert EmptyColumns<T>(n)[1..] == EmptyColumns<T>(n - 1);
      FlattenEmpty<T>(n - 1);
    }
  }

  /** The columns together hold exactly the visible photos. */
  lemma {:induction false} DealKeepsPhotos<T>(vs: seq<T>, n: nat)
    requires n > 0
    ensures multiset(Flatten(Deal(vs, n))) == multiset(vs)
  {
    if |vs| == 0 {
      FlattenEmpty<T>(n);
    } else {
      var m := |vs| - 1;
      DealKeepsPhotos(vs[..m], n);
      FlattenPush(Deal(vs[..m], n), m % n, vs[m]);
      assert vs == vs[..m] + [vs[m]];
    }
  }

  // ---------------------------------------------------------------------------
  // Component state

  /** The gallery's state: the displayed order, how many photos are revealed,
      the remembered URL order and the viewport width class. */
  class GallerySection {
    var shuffledData: seq<Photo>
    var visibleItems: nat
    var orderRef: seq<string>
    var isDesktop: bool

    /** At least one page is revealed, and the remembered order is the order on display. */
    ghost predicate Valid()
      reads this
    {
      visibleItems >= PageSize && orderRef == Urls(shuffledData)
    }

    constructor (isDesktop: bool)
      ensures shuffledData == [] && orderRef == [] && visibleItems == PageSize
      ensures this.isDesktop == isDesktop
      ensures Valid()
    {
      shuffledData := [];
      visibleItems := PageSize;
      orderRef := [];
      this.isDesktop := isDesktop;
    }

    /** The effect that runs when the `data` prop changes. */
    method OnData(data: seq<Photo>)
      requires Valid()
      modifies this`shuffledData, this`orderRef
      ensures Valid()
      ensures |data| == 0 ==> shuffledData == old(shuffledData) && orderRef == old(orderRef)
      ensures |data| > 0 && IsSameSet(old(orderRef), Urls(data)) ==>
        orderRef == old(orderRef) && shuffledData == Reordered(old(orderRef), data)
      ensures |data| > 0 && !IsSameSet(old(orderRef), Urls(data)) ==>
        multiset(shuffledData) == multiset(data)
      ensures |data| > 0 && Distinct(Urls(data)) && Distinct(old(orderRef)) ==>
        multiset(shuffledData) == multiset(data) && Distinct(orderRef)
    {
      if |data| == 0 {
        return;
      }
      var currentUrls := Urls(data);
      var prevUrls := orderRef;
      if IsSameSet(prevUrls, currentUrls) {
        shuffledData := Reordered(prevUrls, data);
        if Distinct(currentUrls) && Distinct(prevUrls) {
          SameSetReorderIsPermutation(prevUrls, data);
        }
      } else {
        var shuffled := ShuffledCopy(data);
        orderRef := Urls(shuffled);
        shuffledData := shuffled;
        if Distinct(currentUrls) {
          PermutationKeepsUrlsDistinct(shuffled, data);
        }
      }
    }

    /** The infinite-scroll sentinel reports an intersection change. */
    method OnLoaderIntersect(isIntersecting: bool)
      requires Valid()
      modifies this`visibleItems
      ensures Valid()
      ensures isIntersecting && old(visibleItems) < |shuffledData| ==>
        visibleItems == Min(old(visibleItems) + PageSize, |shuffledData|) && visibleItems > old(visibleItems)
      ensures !(isIntersecting && old(visibleItems) < |shuffledData|) ==> visibleItems == old(visibleItems)
    {
      if isIntersecting && visibleItems < |shuffledData| {
        visibleItems := Min(visibleItems + PageSize, |shuffledData|);
      }
    }

    /** The `(min-width: 768px)` media query changed. */
    method OnViewportChange(matches: bool)
      modifies this`isDesktop
      ensures isDesktop == matches
    {
      isDesktop := matches;
    }

    /** `shuffledData.slice(0, visibleItems)`. */
    function VisibleData(): (r: seq<Photo>)
      reads this
      ensures |r| == Min(visibleItems, |shuffledData|)
      ensures r == shuffledData[..|r|]
    {
      shuffledData[..Min(visibleItems, |shuffledData|)]
    }

    /** The masonry columns for the current render. */
    method Columns() returns (cols: seq<seq<Photo>>)
      ensures cols == Deal(VisibleData(), NumColumns(isDesktop))
    {
      cols := DistributeColumns(VisibleData(), NumColumns(isDesktop));
    }
  }
}
