/**
 * Stock and its reservations: an auction holds one unit of its product from
 * the moment it goes live, recorded as a row and counted in a cached column.
 */
module Catalog {
  import opened Common

  datatype Product = Product(stock: int, reserved: int)

  /** A reservation row is held until it is released; rows are never deleted. */
  datatype Reservation = Reservation(product: ProductId, auction: AuctionId, quantity: int, held: bool)

  datatype Stock = Stock(products: map<ProductId, Product>, rows: seq<Reservation>)

  /** The auction's held row, if any. */
  function FindHeld(rows: seq<Reservation>, a: AuctionId): (r: Option<nat>)
    ensures r.Some? ==> r.value < |rows| && rows[r.value].held && rows[r.value].auction == a
    ensures r.None? ==> forall i :: 0 <= i < |rows| ==> !(rows[i].held && rows[i].auction == a)
  {
    if rows == [] then None
    else if rows[|rows| - 1].held && rows[|rows| - 1].auction == a then Some(|rows| - 1)
    else FindHeld(rows[..|rows| - 1], a)
  }

  predicate Holds(st: Stock, a: AuctionId) {
    FindHeld(st.rows, a).Some?
  }

  function Available(p: Product): int {
    p.stock - p.reserved
  }

  function Adjusted(products: map<ProductId, Product>, p: ProductId, delta: int): map<ProductId, Product>
    requires p in products
  {
    products[p := products[p].(reserved := products[p].reserved + delta)]
  }

  /** Reserve `quantity` units for an auction; an existing hold is returned as it is. */
  function Reserve(st: Stock, p: ProductId, a: AuctionId, quantity: int): Result<Stock> {
    if p !in st.products then Err(NotFound)
    else if Holds(st, a) then Ok(st)
    else if Available(st.products[p]) < quantity then Err(InsufficientInventory)
    else Ok(Stock(Adjusted(st.products, p, quantity), st.rows + [Reservation(p, a, quantity, true)]))
  }

  /** Return the auction's unit; nothing held is nothing to do. */
  function Release(st: Stock, a: AuctionId): Result<Stock> {
    var at := FindHeld(st.rows, a);
    if at.None? then Ok(st)
    else
      var row := st.rows[at.value];
      if row.product !in st.products then Err(NotFound)
      else Ok(Stock(Adjusted(st.products, row.product, -row.quantity), st.rows[at.value := row.(held := false)]))
  }

  /** `SUM(quantity)` of the held rows of a product. */
  function SumHeld(rows: seq<Reservation>, p: ProductId): int {
    if rows == [] then 0
    else
      var last := rows[|rows| - 1];
      SumHeld(rows[..|rows| - 1], p) + if last.held && last.product == p then last.quantity else 0
  }

  /** Set a product's stock, never below what its held rows promise. */
  function SetStock(st: Stock, p: ProductId, stock: int): Result<Stock> {
    if p !in st.products then Err(NotFound)
    else if stock < SumHeld(st.rows, p) then Err(InsufficientInventory)
    else Ok(st.(products := st.products[p := st.products[p].(stock := stock)]))
  }

  function AddProduct(st: Stock, p: ProductId, stock: nat): Result<Stock> {
    if p in st.products then Err(InvalidConfig)
    else Ok(st.(products := st.products[p := Product(stock, 0)]))
  }

  // -------------------------------------------------------------------------
  // The cached count always equals the held rows, and never exceeds stock
  // -------------------------------------------------------------------------

  predicate RowsSound(st: Stock) {
    && (forall i :: 0 <= i < |st.rows| ==> st.rows[i].quantity > 0 && st.rows[i].product in st.products)
    && (forall i, j :: 0 <= i < j < |st.rows| && st.rows[i].held && st.rows[j].held
          ==> st.rows[i].auction != st.rows[j].auction)
  }

  predicate CountsSound(st: Stock) {
    forall p :: p in st.products ==>
      && st.products[p].reserved == SumHeld(st.rows, p)
      && 0 <= st.products[p].reserved <= st.products[p].stock
  }

  predicate StockSound(st: Stock) {
    RowsSound(st) && CountsSound(st)
  }

  lemma SumHeldAppend(rows: seq<Reservation>, r: Reservation, p: ProductId)
    ensures SumHeld(rows + [r], p) == SumHeld(rows, p) + if r.held && r.product == p then r.quantity else 0
  {
    assert (rows + [r])[..|rows|] == rows;
  }

  lemma SumHeldRelease(rows: seq<Reservation>, i: nat, p: ProductId)
    requires i < |rows| && rows[i].held
    ensures SumHeld(rows[i := rows[i].(held := false)], p)
         == SumHeld(rows, p) - if rows[i].product == p then rows[i].quantity else 0
  {
    var after := rows[i := rows[i].(held := false)];
    if i < |rows| - 1 {
      SumHeldRelease(rows[..|rows| - 1], i, p);
      assert after[..|rows| - 1] == rows[..|rows| - 1][i := rows[i].(held := false)];
    } else {
      assert after[..|rows| - 1] == rows[..|rows| - 1];
    }
  }

  lemma SumHeldNonNegative(rows: seq<Reservation>, p: ProductId)
    requires forall i :: 0 <= i < |rows| ==> rows[i].quantity > 0
    ensures SumHeld(rows, p) >= 0
    ensures forall i :: 0 <= i < |rows| && rows[i].held && rows[i].product == p ==> rows[i].quantity <= SumHeld(rows, p)
  {
    if rows != [] {
      SumHeldNonNegative(rows[..|rows| - 1], p);
    }
  }

  /** With one held row an auction, a lookup finds it. */
  lemma HeldAt(rows: seq<Reservation>, a: AuctionId, i: nat)
    requires i < |rows| && rows[i].held && rows[i].auction == a
    requires forall j, k :: 0 <= j < k < |rows| && rows[j].held && rows[k].held ==> rows[j].auction != rows[k].auction
    ensures FindHeld(rows, a) == Some(i)
  {
  }

  lemma HoldsAppend(rows: seq<Reservation>, r: Reservation, b: AuctionId)
    ensures FindHeld(rows + [r], b).Some? <==> FindHeld(rows, b).Some? || (r.held && r.auction == b)
  {
    assert (rows + [r])[..|rows|] == rows;
  }

  /**
   * Units are refused exactly when neither held already nor free, and otherwise
   * the product's count moves by just that many and one row is added for them.
   */
  lemma ReservesExactly(st: Stock, p: ProductId, a: AuctionId, quantity: int)
    requires p in st.products
    ensures var r := Reserve(st, p, a, quantity);
      if exists i :: 0 <= i < |st.rows| && st.rows[i].held && st.rows[i].auction == a then r == Ok(st)
      else if st.products[p].stock - st.products[p].reserved < quantity then r == Err(InsufficientInventory)
      else r == Ok(Stock(st.products[p := Product(st.products[p].stock, st.products[p].reserved + quantity)],
                         st.rows + [Reservation(p, a, quantity, true)]))
  {
    if FindHeld(st.rows, a).Some? {
      assert st.rows[FindHeld(st.rows, a).value].held;
    }
  }

  /** Reserving keeps the books, and from then on the auction holds a unit. */
  lemma ReserveKeeps(st: Stock, p: ProductId, a: AuctionId, quantity: int)
    requires StockSound(st) && quantity > 0
    requires Reserve(st, p, a, quantity).Ok?
    ensures var st' := Reserve(st, p, a, quantity).value;
      && StockSound(st')
      && (forall b :: Holds(st', b) <==> Holds(st, b) || b == a)
      && st'.products.Keys == st.products.Keys
  {
    var st' := Reserve(st, p, a, quantity).value;
    if !Holds(st, a) {
      var row := Reservation(p, a, quantity, true);
      forall q | q in st'.products
        ensures st'.products[q].reserved == SumHeld(st'.rows, q)
      {
        SumHeldAppend(st.rows, row, q);
      }
      forall b ensures Holds(st', b) <==> Holds(st, b) || b == a {
        HoldsAppend(st.rows, row, b);
      }
    }
  }

  /** Releasing never fails, keeps the books, and frees exactly this auction's unit. */
  lemma ReleaseKeeps(st: Stock, a: AuctionId)
    requires StockSound(st)
    ensures Release(st, a).Ok?
    ensures var st' := Release(st, a).value;
      && StockSound(st')
      && (forall b :: Holds(st', b) <==> Holds(st, b) && b != a)
      && st'.products.Keys == st.products.Keys
      && (!Holds(st, a) ==> st' == st)
  {
    var st' := Release(st, a).value;
    if Holds(st, a) {
      var i := FindHeld(st.rows, a).value;
      forall q | q in st'.products
        ensures st'.products[q].reserved == SumHeld(st'.rows, q) >= 0
      {
        SumHeldRelease(st.rows, i, q);
        SumHeldNonNegative(st'.rows, q);
      }
      forall b ensures Holds(st', b) <==> Holds(st, b) && b != a {
        if Holds(st, b) && b != a {
          var j := FindHeld(st.rows, b).value;
          assert st'.rows[j] == st.rows[j];
        }
        if Holds(st', b) {
          HeldAt(st.rows, b, FindHeld(st'.rows, b).value);
        }
      }
    }
  }

  lemma SetStockKeeps(st: Stock, p: ProductId, stock: int)
    requires StockSound(st)
    requires SetStock(st, p, stock).Ok?
    ensures StockSound(SetStock(st, p, stock).value)
    ensures SetStock(st, p, stock).value.rows == st.rows
  {
  }

  lemma SumHeldAbsent(rows: seq<Reservation>, p: ProductId)
    requires forall i :: 0 <= i < |rows| ==> rows[i].product != p
    ensures SumHeld(rows, p) == 0
  {
  }

  lemma AddProductKeeps(st: Stock, p: ProductId, stock: nat)
    requires StockSound(st)
    requires AddProduct(st, p, stock).Ok?
    ensures StockSound(AddProduct(st, p, stock).value)
    ensures AddProduct(st, p, stock).value.rows == st.rows
  {
    SumHeldAbsent(st.rows, p);
  }

  // -------------------------------------------------------------------------
  // The writers
  // -------------------------------------------------------------------------

  class Inventory {
    var products: map<ProductId, Product>
    var rows: seq<Reservation>

    function State(): Stock
      reads this
    {
      Stock(products, rows)
    }

    constructor ()
      ensures State() == Stock(map[], [])
    {
      products := map[];
      rows := [];
    }

    /** Lock the product, replay, check availability, insert the row, move the cache. */
    method ReserveUnit(p: ProductId, a: AuctionId, quantity: int) returns (r: Result<bool>)
      modifies this
      ensures match Reserve(old(State()), p, a, quantity)
        case Err(e) => r == Err(e) && State() == old(State())
        case Ok(st) => r == Ok(!Holds(old(State()), a)) && State() == st
    {
      if p !in products {
        return Err(NotFound);
      }
      var existing := FindHeld(rows, a);
      if existing.Some? {
        return Ok(false);
      }
      var available := Available(products[p]);
      if available < quantity {
        return Err(InsufficientInventory);
      }
      rows := rows + [Reservation(p, a, quantity, true)];
      AdjustReservedQuantity(p, quantity);
      return Ok(true);
    }

    /** Find the held row, lock its product, mark it released, move the cache back. */
    method ReleaseUnit(a: AuctionId) returns (r: Result<bool>)
      modifies this
      ensures match Release(old(State()), a)
        case Err(e) => r == Err(e) && State() == old(State())
        case Ok(st) => r == Ok(Holds(old(State()), a)) && State() == st
    {
      var held := FindHeld(rows, a);
      if held.None? {
        return Ok(false);
      }
      var row := rows[held.value];
      if row.product !in products {
        return Err(NotFound);
      }
      rows := rows[held.value := row.(held := false)];
      AdjustReservedQuantity(row.product, -row.quantity);
      return Ok(true);
    }

    method AdjustReservedQuantity(p: ProductId, delta: int)
      requires p in products
      modifies this`products
      ensures products == Adjusted(old(products), p, delta)
    {
      products := products[p := products[p].(reserved := products[p].reserved + delta)];
    }

    method UpdateStock(p: ProductId, stock: int) returns (r: Result<bool>)
      modifies this
      ensures match SetStock(old(State()), p, stock)
        case Err(e) => r == Err(e) && State() == old(State())
        case Ok(st) => r == Ok(true) && State() == st
    {
      if p !in products {
        return Err(NotFound);
      }
      var held := SumHeld(rows, p);
      if stock < held {
        return Err(InsufficientInventory);
      }
      products := products[p := products[p].(stock := stock)];
      return Ok(true);
    }
  }
}
