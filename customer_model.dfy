/**
 * The customer client's per-session state and its operations: search,
 * add to trolley, check out, cancel. The trolley is a field that each
 * operation updates in place; the text areas of the view are kept as values
 * that say what is shown, not how it is formatted.
 */
module Customer {
  import opened Wrappers
  import opened JavaLang
  import opened Catalogue
  import opened Storage
  import opened TrolleyLines

  /** The search-result label. */
  datatype SearchLabel =
    | NothingSearched
    | TypeProductId
    | NoProductFound(id: string)
    | SearchFirst
      /** Details of a product found in stock, as shown for the typed id. */
    | ProductDetails(id: string, description: string, unitPrice: real, stock: int)
      /** The lines a checkout could not buy, with their stock and ordered quantity. */
    | InsufficientStock(shortfalls: seq<Product>)
  {
    /** The literal text of a fixed label; the formatted ones are not modelled. */
    function Text(): string
      requires !ProductDetails? && !InsufficientStock?
    {
      match this
      case NothingSearched => "No Product was searched yet"
      case TypeProductId => "Please type ProductID"
      case NoProductFound(id) => "No Product was found with ID " + id
      case SearchFirst => "Please search for an available product before adding it to the trolley"
    }
  }

  /** The trolley text area: blank, the empty-trolley notice, or a listing of lines. */
  datatype TrolleyText = Blank | TrolleyEmptyNotice | Listing(lines: seq<Product>)
  {
    /** The literal text of the fixed contents. */
    function Text(): string
      requires !Listing?
    {
      if Blank? then "" else "Your trolley is empty"
    }
  }

  /** The receipt text area: empty, or the product list of the order just made. */
  datatype ReceiptText = NoReceipt | Receipt(lines: seq<Product>)

  /** How a checkout ended. */
  datatype Checkout =
    | EmptyTrolley
      /** The stock was bought and an order was made from these trolley lines. */
    | Committed(orderLines: seq<Product>)
      /** Some stock was short; nothing was bought. */
    | Rejected(shortfalls: seq<Product>)
      /** The purchase call threw an `SQLException`. */
    | PurchaseFailed

  /**
   * `groupProductsById`: one copy per product id carrying the summed ordered
   * quantity, the first line for an id supplying the other fields. The result
   * comes out in the accumulator's key order, which is left unspecified.
   */
  method GroupProductsById(proList: seq<Product>) returns (grouped: seq<Product>)
    ensures IsConsolidation(grouped, proList)
    ensures |grouped| == |IdSet(proList)|
    ensures UniqueIds(proList) ==>
      |grouped| == |proList| && (forall k :: 0 <= k < |proList| ==> proList[k] in grouped)
  {
    var acc: map<string, Product> := map[];
    var i := 0;
    while i < |proList|
      invariant 0 <= i <= |proList|
      invariant acc == Grouped(proList[..i])
    {
      var p := proList[i];
      var id := p.id;
      if id in acc {
        var existing := acc[id];
        acc := acc[id := existing.(orderedQty := AddInt32(existing.orderedQty, p.orderedQty))];
      } else {
        acc := acc[id := p];
      }
      assert proList[..i + 1][..i] == proList[..i];
      i := i + 1;
    }
    assert proList[..i] == proList;
    GroupedConsolidates(proList);
    grouped := ValuesOf(acc);
    UniqueIdsCard(grouped);
    if UniqueIds(proList) {
      ConsolidationOfUnique(grouped, proList);
    }
  }

  /**
   * `new ArrayList<>(grouped.values())`: every value of the map once, in an
   * unspecified order. Each value is stored under its own product id.
   */
  method ValuesOf(m: map<string, Product>) returns (vs: seq<Product>)
    requires forall id :: id in m ==> m[id].id == id
    ensures UniqueIds(vs) && IdSet(vs) == m.Keys
    ensures forall k :: 0 <= k < |vs| ==> vs[k].id in m && vs[k] == m[vs[k].id]
  {
    vs := [];
    var rest := m.Keys;
    while rest != {}
      invariant rest <= m.Keys
      invariant UniqueIds(vs)
      invariant IdSet(vs) == m.Keys - rest
      invariant forall k :: 0 <= k < |vs| ==> vs[k].id in m && vs[k] == m[vs[k].id]
      decreases rest
    {
      var id :| id in rest;
      IdSetAppend(vs, m[id]);
      vs := vs + [m[id]];
      rest := rest - {id};
    }
  }

  /** The trolley's invariant: one line per product id, sorted by id. */
  ghost predicate TrolleyInvariant(t: seq<Product>)
  {
    UniqueIds(t) && SortedById(t)
  }

  /** Adding (merge, then sort) keeps the trolley's invariant. */
  lemma AddThenSortKeepsInvariant(t: seq<Product>, p: Product)
    requires TrolleyInvariant(t)
    ensures TrolleyInvariant(AddThenSort(t, p))
  {
    AddOrMergeUnique(t, p);
    SortByIdUnique(AddOrMerge(t, p));
    SortByIdSorted(AddOrMerge(t, p));
  }

  class CustomerModel {
    /** The product found by the last search, if it was in stock. */
    var theProduct: Option<Product>
    var trolley: seq<Product>
    var searchResult: SearchLabel
    var trolleyText: TrolleyText
    var receiptText: ReceiptText

    /** The trolley keeps one line per product id, sorted by id. */
    ghost predicate Valid()
      reads this
    {
      TrolleyInvariant(trolley)
    }

    constructor ()
      ensures Valid()
      ensures theProduct == None && trolley == []
      ensures searchResult == NothingSearched
      ensures trolleyText == Blank && receiptText == NoReceipt
    {
      theProduct := None;
      trolley := [];
      searchResult := NothingSearched;
      trolleyText := Blank;
      receiptText := NoReceipt;
    }

    /**
     * `search`: looks up the trimmed id typed by the customer and keeps the
     * product only if it was found with stock left. Returns whether the
     * lookup threw, in which case nothing changes.
     */
    method Search(typed: string, searchByProductId: SearchByProductId) returns (thrown: bool)
      modifies this`theProduct, this`searchResult
      ensures var id := Trim(typed);
        if id == [] then
          !thrown && theProduct == None && searchResult == TypeProductId
        else match searchByProductId(id)
          case SqlError =>
            thrown && theProduct == old(theProduct) && searchResult == old(searchResult)
          case Answer(found) =>
            !thrown &&
            if found.Some? && found.value.stock > 0 then
              theProduct == found &&
              searchResult == ProductDetails(id, found.value.description, found.value.unitPrice, found.value.stock)
            else
              theProduct == None && searchResult == NoProductFound(id)
    {
      thrown := false;
      var productId := Trim(typed);
      if productId != [] {
        var reply := searchByProductId(productId);
        if reply.SqlError? {
          thrown := true;
          return;
        }
        theProduct := reply.value;
        if theProduct.Some? && theProduct.value.stock > 0 {
          var p := theProduct.value;
          searchResult := ProductDetails(productId, p.description, p.unitPrice, p.stock);
        } else {
          theProduct := None;
          searchResult := NoProductFound(productId);
        }
      } else {
        theProduct := None;
        searchResult := TypeProductId;
      }
    }

    /**
     * `addToTrolley`: with a product selected, merges one unit of it into
     * the trolley and sorts; without one, only the label changes.
     */
    method AddToTrolley()
      requires Valid()
      modifies this`trolley, this`trolleyText, this`searchResult, this`receiptText
      ensures Valid()
      ensures theProduct == old(theProduct) && receiptText == NoReceipt
      ensures old(theProduct).None? ==>
        trolley == old(trolley) && trolleyText == old(trolleyText)
        && searchResult == SearchFirst
      ensures old(theProduct).Some? ==>
        trolley == AddThenSort(old(trolley), old(theProduct).value)
        && trolleyText == Listing(trolley) && searchResult == old(searchResult)
    {
      if theProduct.Some? {
        var p := theProduct.value;
        AddThenSortKeepsInvariant(trolley, p);
        AddOrMergeToTrolley(p);
        SortTrolleyById();
        trolleyText := Listing(trolley);
      } else {
        searchResult := SearchFirst;
      }
      receiptText := NoReceipt;
    }

    /**
     * `checkOut`: an empty trolley makes no stock call; otherwise the grouped
     * trolley is offered to the purchase call. No shortfall: an order is made
     * from the trolley, which is then cleared. Shortfalls: the trolley stays
     * as it was and the selection is dropped.
     */
    method CheckOut(purchaseStocks: PurchaseStocks) returns (outcome: Checkout, requested: Option<seq<Product>>)
      requires Valid()
      modifies this
      ensures Valid()
      ensures old(trolley) == [] ==>
        requested == None && outcome == EmptyTrolley
        && trolley == [] && trolleyText == TrolleyEmptyNotice
        && theProduct == old(theProduct) && searchResult == old(searchResult)
        && receiptText == old(receiptText)
      ensures old(trolley) != [] ==>
        requested.Some? && IsConsolidation(requested.value, old(trolley))
        && |requested.value| == |old(trolley)|
        && (forall k :: 0 <= k < |old(trolley)| ==> old(trolley)[k] in requested.value)
      ensures old(trolley) != [] && requested.Some? ==>
        match purchaseStocks(requested.value)
        case SqlError =>
          outcome == PurchaseFailed && trolley == old(trolley) && theProduct == old(theProduct)
          && searchResult == old(searchResult) && trolleyText == old(trolleyText)
          && receiptText == old(receiptText)
        case Answer(shortfalls) =>
          if shortfalls == [] then
            outcome == Committed(old(trolley)) && trolley == []
            && trolleyText == Blank && receiptText == Receipt(old(trolley))
            && theProduct == old(theProduct) && searchResult == old(searchResult)
          else
            outcome == Rejected(shortfalls) && trolley == old(trolley) && theProduct == None
            && searchResult == InsufficientStock(shortfalls)
            && trolleyText == old(trolleyText) && receiptText == old(receiptText)
    {
      if trolley != [] {
        var groupedTrolley := GroupProductsById(trolley);
        requested := Some(groupedTrolley);
        var reply := purchaseStocks(groupedTrolley);
        if reply.SqlError? {
          return PurchaseFailed, requested;
        }
        var insufficientProducts := reply.value;
        if insufficientProducts == [] {
          // The order hub receives the trolley itself, before it is cleared.
          var orderLines := trolley;
          outcome := Committed(orderLines);
          trolley := [];
          trolleyText := Blank;
          receiptText := Receipt(orderLines);
        } else {
          theProduct := None;
          searchResult := InsufficientStock(insufficientProducts);
          outcome := Rejected(insufficientProducts);
        }
      } else {
        trolleyText := TrolleyEmptyNotice;
        outcome, requested := EmptyTrolley, None;
      }
    }

    /** `cancel`: empties the trolley. */
    method Cancel()
      requires Valid()
      modifies this`trolley, this`trolleyText
      ensures Valid()
      ensures trolley == [] && trolleyText == Blank
    {
      trolley := [];
      trolleyText := Blank;
    }

    /** `closeReceipt`: clears the receipt text. */
    method CloseReceipt()
      modifies this`receiptText
      ensures receiptText == NoReceipt
    {
      receiptText := NoReceipt;
    }

    /**
     * `addOrMergeToTrolley`: bumps the quantity of the first line with the
     * product's id, or appends a copy of the product with quantity 1.
     */
    method AddOrMergeToTrolley(p: Product)
      modifies this`trolley
      ensures trolley == AddOrMerge(old(trolley), p)
    {
      var i := 0;
      while i < |trolley|
        invariant 0 <= i <= |trolley|
        invariant trolley == old(trolley)
        invariant forall j :: 0 <= j < i ==> trolley[j].id != p.id
      {
        if trolley[i].id == p.id {
          var newQty := AddInt32(Max(0, trolley[i].orderedQty), 1);
          trolley := trolley[i := trolley[i].(orderedQty := newQty)];
          return;
        }
        i := i + 1;
      }
      trolley := trolley + [p.(orderedQty := 1)];
    }

    /** `sortTrolleyById`: a stable sort of the trolley by product id. */
    method SortTrolleyById()
      modifies this`trolley
      ensures trolley == SortById(old(trolley))
      ensures SortedById(trolley) && multiset(trolley) == multiset(old(trolley))
    {
      SortByIdSorted(trolley);
      SortByIdPermutes(trolley);
      trolley := SortById(trolley);
    }
  }

}
