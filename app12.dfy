/**
 * The React 19 memoisation examples: derived counts, the memoised prime search, and the
 * 10000-item list filtered by a search term and sorted by value in either order.
 */
module App12 {
  import opened JsString
  import opened Seqs
  import Primes
  import Search

  /** `doubled = count * 2` */
  function Doubled(count: int): (r: int)
    ensures r == count + count
  {
    count * 2
  }

  /** `tripled = count * 3` */
  function Tripled(count: int): (r: int)
    ensures r == Doubled(count) + count
  {
    count * 3
  }

  /** `calculatePrimes(max)`: the same trial division as the worker's, with loop variables i and j. */
  method CalculatePrimes(max: int) returns (primes: seq<int>)
    ensures forall p :: p in primes <==> 2 <= p <= max && Primes.IsPrime(p)
    ensures forall i, j :: 0 <= i < j < |primes| ==> primes[i] < primes[j]
  {
    primes := Primes.CalculatePrimes(max);
    forall p ensures p in primes <==> 2 <= p <= max && Primes.IsPrime(p) {
      Primes.PrimesUpToMembers(max, p);
    }
    Primes.PrimesUpToIncreasing(max);
  }

  datatype Item = Item(id: int, name: string, value: int)

  /** `allItems`: `Array.from({ length: 10000 }, (_, i) => ...)`. */
  function AllItems(): (items: seq<Item>)
    ensures |items| == 10000
    ensures forall i :: 0 <= i < 10000 ==> items[i] == Item(i, "Item " + NatToString(i), (i * 7) % 1000)
    ensures forall i :: 0 <= i < 10000 ==> 0 <= items[i].value < 1000
  {
    seq(10000, i requires 0 <= i => Item(i, "Item " + NatToString(i), (i * 7) % 1000))
  }

  /** Item names are pairwise different. */
  lemma ItemNamesDistinct(i: nat, j: nat)
    requires "Item " + NatToString(i) == "Item " + NatToString(j)
    ensures i == j
  {
    assert "Item " + NatToString(i) == "Item" + " " + NatToString(i);
    assert "Item " + NatToString(j) == "Item" + " " + NatToString(j);
    NumberedLabelsDistinct("Item", i, "Item", j);
  }

  datatype SortOrder = Asc | Desc

  /** The sort-order button: `sortOrder === 'asc' ? 'desc' : 'asc'`. */
  function Toggle(order: SortOrder): (r: SortOrder)
    ensures r != order
  {
    if order == Asc then Desc else Asc
  }

  /** Two presses of the button restore the order. */
  lemma ToggleTwice(order: SortOrder)
    ensures Toggle(Toggle(order)) == order
  {
  }

  /**
   * `filteredAndSorted`: the items whose lower-cased name contains the lower-cased term, sorted
   * by value with `a.value - b.value` for 'asc' and `b.value - a.value` for 'desc'.
   */
  function FilteredAndSorted(items: seq<Item>, searchTerm: string, order: SortOrder): (r: seq<Item>)
    ensures forall x :: x in r <==> x in items && Search.Matches(x.name, searchTerm)
    ensures forall x :: multiset(r)[x] == if Search.Matches(x.name, searchTerm) then multiset(items)[x] else 0
    ensures order == Asc ==> forall i, j :: 0 <= i < j < |r| ==> r[i].value <= r[j].value
    ensures order == Desc ==> forall i, j :: 0 <= i < j < |r| ==> r[i].value >= r[j].value
  {
    var keep := (x: Item) => Search.Matches(x.name, searchTerm);
    var result := Filter(items, keep);
    forall x ensures multiset(result)[x] == if keep(x) then multiset(items)[x] else 0 {
      FilterCounts(items, keep, x);
    }
    var r := if order == Asc then SortBy(result, (x: Item) => x.value) else SortBy(result, (x: Item) => -x.value);
    SortByNegatedIsDescending(result, (x: Item) => x.value);
    assert multiset(r) == multiset(result);
    forall x ensures x in r <==> x in items && keep(x) {
      FilterMembers(items, keep, x);
      assert x in r <==> x in multiset(r);
    }
    r
  }

  /** An empty search term keeps every item: the result is a reordering of the whole list. */
  lemma EmptyTermKeepsAll(items: seq<Item>, order: SortOrder)
    ensures multiset(FilteredAndSorted(items, "", order)) == multiset(items)
  {
    var r := FilteredAndSorted(items, "", order);
    forall x | true ensures multiset(r)[x] == multiset(items)[x] {
      Search.MatchesEmpty(x.name);
    }
  }
}
