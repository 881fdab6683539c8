/** The page's state and the handlers that change it: the loaded
    inventory (`inventarioData`), the results table body and the
    cost-center selector. */
module Page {
  import opened Text
  import opened Inventory
  import opened Selector

  /** How a fetch ended: the parsed JSON body, or a failure (a non-OK
      HTTP status, a network error or a body that is not JSON). */
  datatype Fetch<T> = Fetched(body: T) | Failed

  class Viewer {
    /** `inventarioData`: the items of the cost center currently loaded. */
    var data: seq<Item>
    /** The rows of the results table body (`resultadoBody`). */
    var body: seq<TableRow>
    /** The options of the cost-center selector (`centroCustoSelect`). */
    var options: seq<SelectOption>

    /** The table never shows an item row that is not the row of a loaded item. */
    ghost predicate Valid()
      reads this
    {
      forall r :: r in body && r.Cells? ==> exists x :: x in data && r.cells == RowOf(x)
    }

    /** The page as loaded: no data, and the table and selector not yet filled. */
    constructor ()
      ensures Valid()
      ensures data == [] && body == [] && options == []
    {
      data := [];
      body := [];
      options := [];
    }

    /** `carregarIndiceCC`: on a fetched index, sort it, fill the selector
        and prompt for a choice; on failure, show the index error. */
    method LoadIndex(index: Fetch<seq<int>>)
      requires Valid()
      modifies this`body, this`options
      ensures Valid()
      ensures index.Failed? ==> body == [Message(IndexFailed)] && options == old(options)
      ensures index.Fetched? ==>
        body == [Message(IndexReady)] &&
        exists ids :: options == OptionsFor(ids) && Sorted(ids) && multiset(ids) == multiset(index.body)
    {
      match index
      case Failed =>
        body := [Message(IndexFailed)];
      case Fetched(ids) =>
        var a := new int[|ids|](k requires 0 <= k < |ids| => ids[k]);
        assert a[..] == ids;
        SortIndex(a);
        PopulateSelector(a[..]);
        body := [Message(IndexReady)];
    }

    /** `popularCentrosDeCusto`: reset the selector to the placeholder, then
        append one option per id, in order. */
    method PopulateSelector(ids: seq<int>)
      requires Valid()
      modifies this`options
      ensures Valid()
      ensures options == OptionsFor(ids)
    {
      options := [Placeholder];
      var i := 0;
      while i < |ids|
        invariant 0 <= i <= |ids|
        invariant options == OptionsFor(ids[..i])
      {
        options := options + [CostCenter(ids[i])];
        i := i + 1;
      }
      assert ids[..i] == ids;
    }

    /** `carregarInventarioPorCC`: the empty cost center clears the data;
        otherwise the cost center's file is fetched, and on success it
        replaces the data and the filter is applied with the current
        search term, while on failure the data is cleared and the error
        shown. `fetch` stands for the server: what fetching a path yields. */
    method LoadCostCenter(costCenter: string, fetch: string -> Fetch<seq<Item>>, term: string)
      requires Valid()
      modifies this`data, this`body
      ensures Valid()
      ensures costCenter == "" ==>
        data == [] && body == [Message(SelectionCleared)]
      ensures costCenter != "" && fetch(PathFor(costCenter)).Failed? ==>
        data == [] && body == [Message(LoadFailed(costCenter, PathFor(costCenter)))]
      ensures costCenter != "" && fetch(PathFor(costCenter)).Fetched? ==>
        data == fetch(PathFor(costCenter)).body && body == Render(ViewOf(data, term))
    {
      if costCenter == "" {
        data := [];
        body := [Message(SelectionCleared)];
        return;
      }
      var path := PathFor(costCenter);
      match fetch(path)
      case Fetched(items) =>
        data := items;
        ApplyFilters(term);
      case Failed =>
        body := [Message(LoadFailed(costCenter, path))];
        data := [];
    }

    /** `aplicarFiltros`: clear the table, then show the "nothing loaded"
        message, the single "no match" row, or one row per matching item
        appended in order. */
    method ApplyFilters(term: string)
      modifies this`body
      ensures Valid()
      ensures body == Render(ViewOf(data, term))
    {
      var needle := Lower(term);
      body := [];
      if |data| == 0 {
        body := [Message(NothingLoaded)];
        return;
      }
      var found := Filter(data, needle);
      if |found| == 0 {
        body := body + [Message(NoMatchFound)];
        return;
      }
      var i := 0;
      while i < |found|
        invariant 0 <= i <= |found|
        invariant |body| == i
        invariant forall k :: 0 <= k < i ==> body[k] == Cells(RowOf(found[k]))
        invariant Valid()
      {
        assert found[i] in data;
        body := body + [Cells(RowOf(found[i]))];
        i := i + 1;
      }
    }
  }
}
