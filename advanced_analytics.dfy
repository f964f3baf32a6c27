/** The data preparation of `AdvancedAnalytics` (components/advanced-analytics.tsx:29-47):
    each click map becomes a list of `{ name, value }` entries sorted by decreasing value,
    and the bar scale is the largest region value. A map is given as its entries in
    `Object.entries` order, or `None` when the field is missing; values are integers. */
module AdvancedAnalytics {
  import opened Wrappers
  import Sorting

  /** `{ name, value }`. */
  type Entry = (string, int)

  /** The analytics record the panel receives; only the three maps are read here. */
  datatype PanelData = PanelData(
    serviceClicks: Option<seq<Entry>>,
    projectDetailsClicks: Option<seq<Entry>>,
    regionData: Option<seq<Entry>>)

  /** The comparator `(a, b) => b.value - a.value` orders by ascending negated value. */
  function Descending(e: Entry): int {
    -e.1
  }

  /** `Object.entries(m || {}).map(...).sort((a, b) => b.value - a.value)`. */
  function ChartData(m: Option<seq<Entry>>): (r: seq<Entry>)
    ensures m.None? ==> r == []
    ensures m.Some? ==> multiset(r) == multiset(m.value)
    ensures forall i, j :: 0 <= i < j < |r| ==> r[i].1 >= r[j].1
  {
    if m.None? then []
    else
      var r := Sorting.SortBy(m.value, Descending);
      assert forall i, j :: 0 <= i < j < |r| ==> Descending(r[i]) <= Descending(r[j]);
      r
  }

  /** Entries with the same value keep the order the map gives them. */
  lemma ChartDataStable(entries: seq<Entry>, value: int)
    ensures Sorting.WithKey(ChartData(Some(entries)), Descending, -value)
         == Sorting.WithKey(entries, Descending, -value)
  {
    Sorting.SortByStable(entries, Descending, -value);
  }

  /** `Math.max(...values)` over a non-empty list. */
  function MaxValue(s: seq<Entry>): (m: int)
    requires s != []
    ensures forall i :: 0 <= i < |s| ==> s[i].1 <= m
    ensures exists i :: 0 <= i < |s| && s[i].1 == m
  {
    if |s| == 1 then s[0].1
    else
      var rest := MaxValue(s[1..]);
      assert forall i :: 1 <= i < |s| ==> s[i] == s[1..][i - 1];
      if s[0].1 >= rest then s[0].1 else rest
  }

  /** `maxIncidence`: 0 without regions, otherwise the largest region value. */
  function MaxIncidence(regions: seq<Entry>): (m: int)
    ensures regions == [] ==> m == 0
    ensures regions != [] ==> forall i :: 0 <= i < |regions| ==> regions[i].1 <= m
    ensures regions != [] ==> exists i :: 0 <= i < |regions| && regions[i].1 == m
  {
    if |regions| > 0 then MaxValue(regions) else 0
  }

  /** The largest value of a list sorted by decreasing value is its first. */
  lemma MaxIsFirst(regions: seq<Entry>)
    requires regions != []
    requires forall i, j :: 0 <= i < j < |regions| ==> regions[i].1 >= regions[j].1
    ensures MaxIncidence(regions) == regions[0].1
  {
  }

  /** What the panel shows. */
  datatype Prepared = Prepared(
    serviceData: seq<Entry>,
    projectData: seq<Entry>,
    regionData: seq<Entry>,
    maxIncidence: int)

  function Prepare(data: PanelData): Prepared {
    var regions := ChartData(data.regionData);
    Prepared(ChartData(data.serviceClicks), ChartData(data.projectDetailsClicks), regions,
             MaxIncidence(regions))
  }

  /** A missing region map gives no regions and a scale of 0; otherwise the scale is the
      largest value of the map itself, the first entry of the sorted list. */
  lemma PreparedScale(data: PanelData)
    ensures data.regionData.None? ==> Prepare(data).regionData == [] && Prepare(data).maxIncidence == 0
    ensures data.regionData.Some? && data.regionData.value != [] ==>
      var m := Prepare(data).maxIncidence;
      && m == Prepare(data).regionData[0].1
      && (forall e :: e in data.regionData.value ==> e.1 <= m)
      && (exists e :: e in data.regionData.value && e.1 == m)
  {
    var regions := ChartData(data.regionData);
    if data.regionData.Some? && data.regionData.value != [] {
      var es := data.regionData.value;
      assert |regions| == |es| by {
        assert |multiset(regions)| == |multiset(es)|;
      }
      MaxIsFirst(regions);
      var m := MaxIncidence(regions);
      forall e | e in es ensures e.1 <= m {
        assert e in multiset(regions);
      }
      var i :| 0 <= i < |regions| && regions[i].1 == m;
      assert regions[i] in multiset(es);
    }
  }

  /** The period filter buttons. */
  datatype TimeFilter = Mes | Ano | Tudo

  /** The component's state. */
  class Panel {
    var timeFilter: TimeFilter

    /** `useState('tudo')`. */
    constructor ()
      ensures timeFilter == Tudo
    {
      timeFilter := Tudo;
    }

    /** A filter button's `onClick`. */
    method SetTimeFilter(f: TimeFilter)
      modifies this
      ensures timeFilter == f
    {
      timeFilter := f;
    }
  }
}
