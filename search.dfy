/**
 * `filterItems(items, query)`, written out identically in the transition and deferred-value
 * demos: an empty query returns the list itself, any other query keeps, in order, the items
 * whose lower-cased text contains the lower-cased query. The artificial `performance.now()`
 * busy-wait before the filter has no effect on the result and is not modelled.
 */
module Search {
  import opened JsString
  import opened Seqs

  /** `item.toLowerCase().includes(query.toLowerCase())` */
  predicate Matches(item: string, query: string) {
    Includes(Lower(item), Lower(query))
  }

  /** Every item contains the empty query. */
  lemma MatchesEmpty(item: string)
    ensures Matches(item, "")
  {
    assert OccursAt(Lower(item), "", 0);
  }

  function FilterItems(items: seq<string>, query: string): (r: seq<string>)
    ensures query == "" ==> r == items
    ensures forall x :: x in r <==> x in items && Matches(x, query)
    ensures forall x :: multiset(r)[x] == if Matches(x, query) then multiset(items)[x] else 0
    ensures IsSubsequence(r, items)
  {
    if query == "" then
      forall x { MatchesEmpty(x); }
      FilterAll(items, x => Matches(x, ""));
      FilterAll(items, x => Matches(x, query));
      FilterIsSubsequence(items, x => Matches(x, query));
      items
    else
      var p := x => Matches(x, query);
      forall x ensures x in Filter(items, p) <==> x in items && p(x) {
        FilterMembers(items, p, x);
      }
      forall x ensures multiset(Filter(items, p))[x] == if p(x) then multiset(items)[x] else 0 {
        FilterCounts(items, p, x);
      }
      FilterIsSubsequence(items, p);
      Filter(items, p)
  }

  /** The query's letter case does not matter: searching "REACT" finds what "react" finds. */
  lemma FilterItemsIgnoresQueryCase(items: seq<string>, query: string)
    ensures FilterItems(items, Lower(query)) == FilterItems(items, query)
  {
    LowerIdempotent(query);
    if query != "" {
      FilterCongruent(items, x => Matches(x, Lower(query)), x => Matches(x, query));
    }
  }

  /** Nor does the items' letter case: an item matches a query iff its lower-cased text does. */
  lemma MatchesIgnoresItemCase(item: string, query: string)
    ensures Matches(Lower(item), query) <==> Matches(item, query)
  {
    LowerIdempotent(item);
  }

  /** An item that matches a longer query matches every prefix of it. */
  lemma MatchesPrefix(item: string, query: string, more: string)
    requires Matches(item, query + more)
    ensures Matches(item, query)
  {
    var s := Lower(item);
    var a := Lower(query);
    var b := Lower(more);
    LowerAppend(query, more);
    IncludesIff(s, a + b);
    var i :| OccursAt(s, a + b, i);
    OccursPrefix(s, a, b, i);
    IncludesIff(s, a);
  }

  lemma OccursPrefix(s: string, a: string, b: string, i: int)
    requires OccursAt(s, a + b, i)
    ensures OccursAt(s, a, i)
  {
    assert s[i..i + |a|] == (a + b)[..|a|] == a;
  }

  /** Extending a query can only narrow the result. */
  lemma FilterItemsNarrows(items: seq<string>, query: string, more: string, x: string)
    requires x in FilterItems(items, query + more)
    ensures x in FilterItems(items, query)
  {
    MatchesPrefix(x, query, more);
  }
}
