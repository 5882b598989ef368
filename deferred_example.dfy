/**
 * The useDeferredValue demo: the 5000 generated items searched with the deferred query, the
 * staleness flags of the search and of the tabs, and the tab content of 1000 rendered lines
 * of which the first 20 are shown.
 */
module DeferredExample {
  import opened JsString
  import Search

  const Categories: seq<string> := ["React", "TypeScript", "JavaScript", "CSS", "HTML", "Node.js"]

  /** Item i of `generateItems`: "<category> Item <i + 1>". */
  function ItemAt(i: nat): string {
    Categories[i % |Categories|] + " Item " + NatToString(i + 1)
  }

  /** `generateItems(count)` */
  method GenerateItems(count: int) returns (items: seq<string>)
    ensures |items| == if count > 0 then count else 0
    ensures forall i :: 0 <= i < |items| ==> items[i] == ItemAt(i)
  {
    items := [];
    var i := 0;
    while i < count
      invariant 0 <= i <= if count > 0 then count else 0
      invariant |items| == i
      invariant forall k :: 0 <= k < i ==> items[k] == ItemAt(k)
    {
      items := items + [Categories[i % |Categories|] + " Item " + NatToString(i + 1)];
      i := i + 1;
    }
  }

  lemma ItemsDistinct(i: nat, j: nat)
    requires ItemAt(i) == ItemAt(j)
    ensures i == j
  {
    ItemNumbersDistinct(Categories[i % |Categories|], i + 1, Categories[j % |Categories|], j + 1);
  }

  /** Labels "<c> Item <m>" agree only when their numbers do. */
  lemma ItemNumbersDistinct(ci: string, m: nat, cj: string, n: nat)
    requires ci + " Item " + NatToString(m) == cj + " Item " + NatToString(n)
    ensures m == n
  {
    assert ci + " Item " + NatToString(m) == (ci + " Item") + " " + NatToString(m);
    assert cj + " Item " + NatToString(n) == (cj + " Item") + " " + NatToString(n);
    NumberedLabelsDistinct(ci + " Item", m, cj + " Item", n);
  }

  /** `isStale = query !== deferredQuery` (and `activeTab !== deferredTab` for the tabs). */
  predicate IsStale(current: string, deferred: string) {
    current != deferred
  }

  /** The search results are computed from the deferred query. */
  function SearchResults(items: seq<string>, deferredQuery: string): seq<string> {
    Search.FilterItems(items, deferredQuery)
  }

  /** When the search is not stale, the results on screen are those of the query just typed. */
  lemma FreshResultsMatchQuery(items: seq<string>, query: string, deferredQuery: string)
    requires !IsStale(query, deferredQuery)
    ensures SearchResults(items, deferredQuery) == Search.FilterItems(items, query)
    ensures forall x :: x in SearchResults(items, deferredQuery) <==> x in items && Search.Matches(x, query)
  {
  }

  /** Line i of `renderContent(tab)`: the text "<tab> Item <i + 1>". */
  function TabLine(tab: string, i: nat): string {
    tab + " Item " + NatToString(i + 1)
  }

  /** `renderContent(tab)`: 1000 lines pushed by a for-loop. */
  method RenderContent(tab: string) returns (lines: seq<string>)
    ensures |lines| == 1000
    ensures forall i :: 0 <= i < 1000 ==> lines[i] == TabLine(tab, i)
  {
    lines := [];
    var i := 0;
    while i < 1000
      invariant 0 <= i <= 1000 && |lines| == i
      invariant forall k :: 0 <= k < i ==> lines[k] == TabLine(tab, k)
    {
      lines := lines + [tab + " Item " + NatToString(i + 1)];
      i := i + 1;
    }
  }

  /**
   * The tab panel: `renderContent(deferredTab).slice(0, 20)` followed by "... and 980 more items";
   * the 980 is the number of rendered lines left out.
   */
  method ShownTabContent(deferredTab: string) returns (shown: seq<string>, hidden: nat)
    ensures |shown| == 20 && hidden == 980
    ensures forall i :: 0 <= i < 20 ==> shown[i] == TabLine(deferredTab, i)
  {
    var lines := RenderContent(deferredTab);
    shown := lines[..20];
    hidden := |lines| - |shown|;
  }
}
