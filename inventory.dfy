/** The admin inventory page (src/app/admin/inventory/page.tsx): the variant list with its
    search and stock filters, the out-of-stock and low-stock counters, the status label and
    the local update after a stock edit. */
module Inventory {
  import opened Wrappers
  import opened Seqs
  import opened Text

  const LowStockLimit: int := 10

  /** A `product_variants` row with its product's name joined; `productName` is `None` when
      the join or the name is missing. */
  datatype StockRow = StockRow(
    id: string,
    productName: Option<string>,
    sku: Option<string>,
    size: string,
    color: Option<string>,
    stockQuantity: int)

  predicate IsOut(v: StockRow) { v.stockQuantity == 0 }

  predicate IsLow(v: StockRow) { v.stockQuantity > 0 && v.stockQuantity < LowStockLimit }

  /** `v.products?.name?.toLowerCase().includes(q) || v.sku?.toLowerCase().includes(q)`:
      a missing name or SKU makes its side false. */
  predicate MatchesSearch(v: StockRow, search: string) {
    (v.productName.Some? && MatchesQuery(v.productName.value, search))
    || (v.sku.Some? && MatchesQuery(v.sku.value, search))
  }

  /** The stock tab: "out", "low", and "all" or any other value for no constraint. */
  predicate MatchesStock(v: StockRow, filter: string) {
    if filter == "all" then true
    else if filter == "out" then IsOut(v)
    else if filter == "low" then IsLow(v)
    else true
  }

  function Filtered(variants: seq<StockRow>, search: string, filter: string): seq<StockRow> {
    Filter(variants, v => MatchesSearch(v, search) && MatchesStock(v, filter))
  }

  /** A row is listed iff it is in the list, its name or SKU matches the search, and it passes the
      stock tab; the listing keeps the list's order. */
  lemma FilteredSpec(variants: seq<StockRow>, search: string, filter: string)
    ensures forall v :: v in Filtered(variants, search, filter) <==>
      v in variants && MatchesSearch(v, search)
      && (filter == "out" ==> v.stockQuantity == 0)
      && (filter == "low" ==> 0 < v.stockQuantity < 10)
    ensures Subseq(Filtered(variants, search, filter), variants)
  {
    FilterIsSubseq(variants, v => MatchesSearch(v, search) && MatchesStock(v, filter));
  }

  /** The empty search keeps exactly the rows that have a product name or a SKU. */
  lemma EmptySearch(v: StockRow)
    ensures MatchesSearch(v, "") <==> v.productName.Some? || v.sku.Some?
  {
    assert Lower("") == "";
    if v.productName.Some? {
      ContainsEmpty(Lower(v.productName.value));
    }
    if v.sku.Some? {
      ContainsEmpty(Lower(v.sku.value));
    }
  }

  /** `totalOut`. */
  function TotalOut(variants: seq<StockRow>): nat {
    |Filter(variants, IsOut)|
  }

  /** `totalLow`. */
  function TotalLow(variants: seq<StockRow>): nat {
    |Filter(variants, IsLow)|
  }

  /** No row is counted both as out of stock and as low, so the two counters never exceed the
      number of rows. */
  lemma CountersDisjoint(variants: seq<StockRow>)
    ensures TotalOut(variants) + TotalLow(variants) <= |variants|
    ensures forall v :: !(v in Filter(variants, IsOut) && v in Filter(variants, IsLow))
  {
    FilterDisjointCount(variants, IsOut, IsLow);
  }

  /** With an empty search, the "out" and "low" tabs list exactly as many rows as the counters
      say, provided every row has a product name or a SKU. */
  lemma CountersMatchTabs(variants: seq<StockRow>)
    requires forall v :: v in variants ==> v.productName.Some? || v.sku.Some?
    ensures |Filtered(variants, "", "out")| == TotalOut(variants)
    ensures |Filtered(variants, "", "low")| == TotalLow(variants)
  {
    forall v | v in variants ensures MatchesSearch(v, "") {
      EmptySearch(v);
    }
    FilterCongruent(variants, v => MatchesSearch(v, "") && MatchesStock(v, "out"), IsOut);
    FilterCongruent(variants, v => MatchesSearch(v, "") && MatchesStock(v, "low"), IsLow);
  }

  /** The badge text of a row. */
  function StatusLabel(stock: int): string {
    if stock == 0 then "Agotado" else if stock < LowStockLimit then "Bajo" else "OK"
  }

  /** "Agotado" marks exactly the rows `totalOut` counts; for stock that is not negative,
      "Bajo" marks exactly the rows `totalLow` counts, and "OK" the rest. A negative stock reads
      "Bajo" without being counted as low. */
  lemma StatusLabelSpec(v: StockRow)
    ensures StatusLabel(v.stockQuantity) == "Agotado" <==> IsOut(v)
    ensures v.stockQuantity >= 0 ==> (StatusLabel(v.stockQuantity) == "Bajo" <==> IsLow(v))
    ensures StatusLabel(v.stockQuantity) == "OK" <==> v.stockQuantity >= LowStockLimit
    ensures v.stockQuantity < 0 ==> StatusLabel(v.stockQuantity) == "Bajo" && !IsLow(v) && !IsOut(v)
  {
  }

  /** The local part of `saveStock`: the row with that id gets the new stock. */
  function SaveStock(variants: seq<StockRow>, id: string, newStock: int): seq<StockRow> {
    Map(variants, (x: StockRow) => if x.id == id then x.(stockQuantity := newStock) else x)
  }

  /** Only the stock of the rows with that id changes; length, order, ids and every other field
      stay; a missing id changes nothing; a second save of the same id overrides the first. */
  lemma SaveStockSpec(variants: seq<StockRow>, id: string, newStock: int, later: int)
    ensures |SaveStock(variants, id, newStock)| == |variants|
    ensures forall i :: 0 <= i < |variants| ==>
      SaveStock(variants, id, newStock)[i] ==
        if variants[i].id == id then variants[i].(stockQuantity := newStock) else variants[i]
    ensures (forall v :: v in variants ==> v.id != id) ==> SaveStock(variants, id, newStock) == variants
    ensures SaveStock(SaveStock(variants, id, newStock), id, later) == SaveStock(variants, id, later)
  {
    if forall v :: v in variants ==> v.id != id {
      assert forall i :: 0 <= i < |variants| ==> variants[i] in variants;
    }
  }

  /** When ids are unique, a save replaces the one row with that id and nothing else. */
  lemma SaveStockOneRow(variants: seq<StockRow>, i: nat, newStock: int)
    requires i < |variants|
    requires forall j :: 0 <= j < |variants| && j != i ==> variants[j].id != variants[i].id
    ensures SaveStock(variants, variants[i].id, newStock) == variants[i := variants[i].(stockQuantity := newStock)]
  {
  }

  /** The page state: the loaded rows, the two filters and the inline stock editor. */
  class InventoryPage {
    var variants: seq<StockRow>
    var search: string
    var filter: string
    var editingId: Option<string>
    var editValue: int

    /** After `loadInventory`: `setVariants(data || [])`, a missing result being the empty list. */
    constructor (loaded: Option<seq<StockRow>>)
      ensures variants == loaded.GetOr([])
      ensures search == "" && filter == "all" && editingId == None && editValue == 0
    {
      variants := loaded.GetOr([]);
      search := "";
      filter := "all";
      editingId := None;
      editValue := 0;
    }

    /** Clicking a stock cell opens the editor on that row with its current stock. */
    method StartEdit(v: StockRow)
      modifies this
      ensures editingId == Some(v.id) && editValue == v.stockQuantity
      ensures variants == old(variants) && search == old(search) && filter == old(filter)
    {
      editingId := Some(v.id);
      editValue := v.stockQuantity;
    }

    method SetEditValue(n: int)
      modifies this
      ensures editValue == n
      ensures variants == old(variants) && editingId == old(editingId)
      ensures search == old(search) && filter == old(filter)
    {
      editValue := n;
    }

    /** Escape closes the editor. */
    method CancelEdit()
      modifies this
      ensures editingId == None
      ensures variants == old(variants) && editValue == old(editValue)
      ensures search == old(search) && filter == old(filter)
    {
      editingId := None;
    }

    /** `saveStock(id, n)` after the update request: the local list update and a closed editor. */
    method SaveStockEdit(id: string, newStock: int)
      modifies this
      ensures variants == SaveStock(old(variants), id, newStock) && editingId == None
      ensures editValue == old(editValue) && search == old(search) && filter == old(filter)
    {
      variants := SaveStock(variants, id, newStock);
      editingId := None;
    }

    method SetSearch(query: string)
      modifies this
      ensures search == query
      ensures variants == old(variants) && filter == old(filter)
      ensures editingId == old(editingId) && editValue == old(editValue)
    {
      search := query;
    }

    method SetFilter(tab: string)
      modifies this
      ensures filter == tab
      ensures variants == old(variants) && search == old(search)
      ensures editingId == old(editingId) && editValue == old(editValue)
    {
      filter := tab;
    }

    /** The rows shown and the two counters in the header. */
    method Summary() returns (shown: seq<StockRow>, out: nat, low: nat)
      ensures shown == Filtered(variants, search, filter)
      ensures out == TotalOut(variants) && low == TotalLow(variants)
      ensures out + low <= |variants|
    {
      CountersDisjoint(variants);
      shown := Filtered(variants, search, filter);
      out := TotalOut(variants);
      low := TotalLow(variants);
    }
  }
}
