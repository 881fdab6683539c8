/** The inventory of one cost center and what the results table shows of
    it: the equipment-name filter, the three-way outcome of applying it,
    the five-cell row layout, and the path of a cost center's data file. */
module Inventory {
  import opened Text

  datatype Option<T> = None | Some(value: T)

  /** One record of a cost center's inventory file, keyed in the file by
      "Centro de Custo", "Inventarios", "Equipamentos", "Area" and
      "cdinventarios". */
  datatype Item = Item(
    costCenter: string,
    inventory: string,
    equipment: string,
    area: string,
    inventoryCode: string)

  /** The cells of one table row, left to right. */
  type Row = seq<string>

  /** What `aplicarFiltros` decides to show. */
  datatype View =
    | NoData              // nothing is loaded
    | NoMatch             // data is loaded but no equipment name matches
    | Rows(rows: seq<Row>) // one row per matching item, in load order

  /** Messages the results table can hold instead of item rows. */
  datatype Notice =
    | IndexReady                             // index loaded: pick a cost center
    | IndexFailed                            // the index could not be loaded
    | SelectionCleared                       // the empty cost center was picked
    | NothingLoaded                          // filter applied with no data
    | NoMatchFound                           // filter applied, nothing matched
    | LoadFailed(costCenter: string, path: string)

  /** One `<tr>` of the results table body. */
  datatype TableRow = Message(notice: Notice) | Cells(cells: Row)

  // ------------------------------------------------------------------
  // Filter
  // ------------------------------------------------------------------

  /** The filter callback: the lower-cased equipment name contains the
      (already lower-cased) search term. */
  predicate Matches(item: Item, needle: string)
    ensures needle == [] ==> Matches(item, needle)
    ensures Matches(item, needle) ==> |needle| <= |item.equipment|
  {
    Contains(Lower(item.equipment), needle)
  }

  /** `Array.prototype.filter` with `Matches`: the matching items, in order. */
  function Filter(items: seq<Item>, needle: string): (r: seq<Item>)
    ensures |r| <= |items|
    ensures forall x :: x in r ==> x in items && Matches(x, needle)
  {
    if items == [] then []
    else if Matches(items[0], needle) then [items[0]] + Filter(items[1..], needle)
    else Filter(items[1..], needle)
  }

  /** `a` is `b` with some elements removed and the others in their
      original order. */
  ghost predicate IsSubsequence<T>(a: seq<T>, b: seq<T>)
    decreases |b|
  {
    if a == [] then true
    else if b == [] then false
    else if a[0] == b[0] then IsSubsequence(a[1..], b[1..])
    else IsSubsequence(a, b[1..])
  }

  /** The filtered items keep their relative order in the loaded data. */
  lemma {:induction false} FilterIsSubsequence(items: seq<Item>, needle: string)
    ensures IsSubsequence(Filter(items, needle), items)
  {
    if items != [] {
      FilterIsSubsequence(items[1..], needle);
      var rest := Filter(items[1..], needle);
      if Matches(items[0], needle) {
        assert ([items[0]] + rest)[1..] == rest;
      } else if rest != [] {
        assert rest[0] in items[1..];
        assert Matches(rest[0], needle);
      }
    }
  }

  /** Every loaded item whose name matches survives the filter. */
  lemma {:induction false} FilterComplete(items: seq<Item>, needle: string, i: nat)
    requires i < |items| && Matches(items[i], needle)
    ensures items[i] in Filter(items, needle)
  {
    if i > 0 {
      FilterComplete(items[1..], needle, i - 1);
    }
  }

  /** The filter keeps every copy of a matching item and no copy of any
      other: with `FilterIsSubsequence`, this fixes the result exactly. */
  lemma {:induction false} FilterCounts(items: seq<Item>, needle: string, x: Item)
    ensures multiset(Filter(items, needle))[x]
         == if Matches(x, needle) then multiset(items)[x] else 0
  {
    if items != [] {
      FilterCounts(items[1..], needle, x);
      assert items == [items[0]] + items[1..];
    }
  }

  /** The empty search term keeps everything. */
  lemma {:induction false} FilterEmptyTerm(items: seq<Item>)
    ensures Filter(items, []) == items
  {
    if items != [] {
      FilterEmptyTerm(items[1..]);
    }
  }

  /** Filtering the filtered items again with the same term changes nothing. */
  lemma {:induction false} FilterIdempotent(items: seq<Item>, needle: string)
    ensures Filter(Filter(items, needle), needle) == Filter(items, needle)
  {
    if items != [] {
      FilterIdempotent(items[1..], needle);
      var rest := Filter(items[1..], needle);
      if Matches(items[0], needle) {
        assert ([items[0]] + rest)[1..] == rest;
      }
    }
  }

  /** The filter is empty exactly when no loaded item matches. */
  lemma FilterEmptyIff(items: seq<Item>, needle: string)
    ensures Filter(items, needle) == [] <==> forall x :: x in items ==> !Matches(x, needle)
  {
  }

  // ------------------------------------------------------------------
  // View
  // ------------------------------------------------------------------

  /** The row written for an item: its five fields in table-column order. */
  function RowOf(item: Item): (r: Row)
    ensures |r| == 5 && r[2] == item.equipment
  {
    [item.costCenter, item.inventory, item.equipment, item.area, item.inventoryCode]
  }

  /** `aplicarFiltros`: lower-case the search term, then decide between
      "nothing loaded", "no match" and one row per matching item. */
  function ViewOf(data: seq<Item>, term: string): (v: View)
    ensures v.NoData? <==> data == []
    ensures v.Rows? ==> 0 < |v.rows| <= |data|
  {
    if |data| == 0 then NoData
    else
      var found := Filter(data, Lower(term));
      if |found| == 0 then NoMatch
      else Rows(seq(|found|, k requires 0 <= k < |found| => RowOf(found[k])))
  }

  /** The table body for a view: one message row, or the item rows. */
  function Render(v: View): (t: seq<TableRow>)
    ensures v.NoData? ==> t == [Message(NothingLoaded)]
    ensures v.NoMatch? ==> t == [Message(NoMatchFound)]
    ensures v.Rows? ==> |t| == |v.rows| && forall k :: 0 <= k < |t| ==> t[k] == Cells(v.rows[k])
  {
    match v
    case NoData => [Message(NothingLoaded)]
    case NoMatch => [Message(NoMatchFound)]
    case Rows(rows) => seq(|rows|, k requires 0 <= k < |rows| => Cells(rows[k]))
  }

  /** Nothing loaded: the view is the "nothing loaded" message, whatever the term. */
  lemma ViewNoData(data: seq<Item>, term: string)
    ensures ViewOf(data, term) == NoData <==> data == []
    ensures data == [] ==> Render(ViewOf(data, term)) == [Message(NothingLoaded)]
  {
  }

  /** The "no match" message appears exactly when data is loaded and no
      item's name contains the lower-cased term. */
  lemma ViewNoMatch(data: seq<Item>, term: string)
    ensures ViewOf(data, term) == NoMatch
        <==> data != [] && forall x :: x in data ==> !Matches(x, Lower(term))
    ensures ViewOf(data, term) == NoMatch ==> Render(ViewOf(data, term)) == [Message(NoMatchFound)]
  {
    FilterEmptyIff(data, Lower(term));
  }

  /** Otherwise the table holds exactly one row per filtered item, in
      filter order, each with the item's five fields in column order. */
  lemma ViewRows(data: seq<Item>, term: string)
    requires ViewOf(data, term).Rows?
    ensures var found := Filter(data, Lower(term));
      var rows := ViewOf(data, term).rows;
      |found| > 0 && |rows| == |found| &&
      forall k :: 0 <= k < |rows| ==>
        |rows[k]| == 5 &&
        rows[k][0] == found[k].costCenter && rows[k][1] == found[k].inventory &&
        rows[k][2] == found[k].equipment && rows[k][3] == found[k].area &&
        rows[k][4] == found[k].inventoryCode
    ensures var found := Filter(data, Lower(term));
      var table := Render(ViewOf(data, term));
      |table| == |found| &&
      forall k :: 0 <= k < |table| ==> table[k] == Cells(RowOf(found[k]))
  {
  }

  /** Every item row shown is the row of a loaded item whose name matches. */
  lemma ViewRowsSound(data: seq<Item>, term: string, k: nat)
    requires ViewOf(data, term).Rows? && k < |ViewOf(data, term).rows|
    ensures exists x :: x in data && Matches(x, Lower(term)) && ViewOf(data, term).rows[k] == RowOf(x)
  {
    var found := Filter(data, Lower(term));
    assert found[k] in found;
  }

  /** The empty term shows every loaded item, in load order. */
  lemma ViewEmptyTerm(data: seq<Item>)
    requires data != []
    ensures ViewOf(data, "") == Rows(seq(|data|, k requires 0 <= k < |data| => RowOf(data[k])))
  {
    FilterEmptyTerm(data);
  }

  /** The search ignores the case of the term: terms that agree once
      lower-cased give the same view, and so do a term and its lower-case form. */
  lemma ViewCaseInsensitive(data: seq<Item>, t1: string, t2: string)
    requires Lower(t1) == Lower(t2)
    ensures ViewOf(data, t1) == ViewOf(data, t2)
    ensures ViewOf(data, t1) == ViewOf(data, Lower(t1))
  {
    LowerIdempotent(t1);
  }

  /** The search also ignores the case of the name: an item whose name
      contains the term as typed is always shown. */
  lemma MatchIgnoresCase(item: Item, term: string)
    requires Contains(item.equipment, term)
    ensures Matches(item, Lower(term))
  {
    LowerPreservesContains(item.equipment, term);
  }

  // ------------------------------------------------------------------
  // Data file path
  // ------------------------------------------------------------------

  const PathPrefix: string := "por_centro_custo/"
  const PathSuffix: string := ".json"

  /** The data file of a cost center. */
  function PathFor(costCenter: string): (p: string)
    ensures PathPrefix <= p && |p| == |PathPrefix| + |costCenter| + |PathSuffix|
    ensures p[|p| - |PathSuffix|..] == PathSuffix
    ensures p[|PathPrefix|..|p| - |PathSuffix|] == costCenter
  {
    PathPrefix + costCenter + PathSuffix
  }

  /** Recovers the cost center from a data file path, if it has that shape. */
  function CostCenterOf(path: string): Option<string>
  {
    if |path| >= |PathPrefix| + |PathSuffix|
       && PathPrefix <= path
       && path[|path| - |PathSuffix|..] == PathSuffix
    then Some(path[|PathPrefix|..|path| - |PathSuffix|])
    else None
  }

  /** The path of a cost center names that cost center. */
  lemma PathRoundTrip(costCenter: string)
    ensures CostCenterOf(PathFor(costCenter)) == Some(costCenter)
  {
  }

  /** A path read back as a cost center is exactly that cost center's path. */
  lemma PathOfCostCenterOf(path: string)
    requires CostCenterOf(path).Some?
    ensures PathFor(CostCenterOf(path).value) == path
  {
  }

  /** The table loses no field of an item: different items give different rows. */
  lemma RowOfInjective(x: Item, y: Item)
    requires RowOf(x) == RowOf(y)
    ensures x == y
  {
    assert RowOf(x)[0] == RowOf(y)[0] && RowOf(x)[1] == RowOf(y)[1];
    assert RowOf(x)[3] == RowOf(y)[3] && RowOf(x)[4] == RowOf(y)[4];
  }

  /** Different cost centers are read from different files. */
  lemma PathInjective(c1: string, c2: string)
    requires PathFor(c1) == PathFor(c2)
    ensures c1 == c2
  {
    PathRoundTrip(c1);
    PathRoundTrip(c2);
  }
}
