/** Checkout at the till (`createTransaksi`): the cart is checked line by
    line against the product table, priced, reduced by the member and
    voucher discounts, paid for, and then stored together with its detail
    rows and the stock decrements as one all-or-nothing unit. */
module Transaksi {
  import opened Common
  import opened Schema

  /** One entry of the request's `items` array. */
  datatype Item = Item(id: int, quantity: int)

  /** The request body. `items` is `None` when the array is missing; the
      member, voucher and cashier ids are `None` when absent. */
  datatype CheckoutRequest = CheckoutRequest(
    items: Option<seq<Item>>, memberId: Option<int>, diskonId: Option<int>,
    bayar: real, kasirId: Option<int>)

  /** An entry of `detailData`: a validated line with the price it was sold at. */
  datatype Line = Line(produkId: int, qty: int, harga: real, subTotal: real)

  /** The tables the checkout reads and writes. `nextId` is the id the
      database assigns to the next stored sale. */
  datatype Db = Db(
    produk: map<int, Produk>, member: map<int, Member>, diskon: map<int, Diskon>,
    transaksi: seq<Transaksi>, detail: seq<DetailTransaksi>, nextId: int)

  const EmptyCart: string := "Gagal transaksi karena produk kosong"
  const NotFound: string := "Produk tidak ditemukan"
  const Underpaid: string := "Uang bayar tidak mencukupi"
  /** The handler's fixed 500 message, which the reply carries when the store
      rejects the sale row itself. */
  const Failed: string := "Transaksi Gagal dilakukan"

  function OutOfStock(nama: string): string {
    "Stok habis untuk produk " + nama
  }

  /** Reads an entry of `items`, a JSON object, through the keys the handler
      uses, `id` and `quantity`; `None` when either key is missing. */
  function ReadItem(obj: map<string, int>): (r: Option<Item>)
    ensures r.Some? <==> "id" in obj && "quantity" in obj
  {
    if "id" in obj && "quantity" in obj then Some(Item(obj["id"], obj["quantity"])) else None
  }

  /** JavaScript truthiness of a numeric id: present and not 0. */
  predicate Given(id: Option<int>) {
    id.Some? && id.value != 0
  }

  // ---------------------------------------------------------------------
  // Validation and pricing (no writes)

  /** A line passes validation when its product exists and the product's
      stock before the checkout covers the line's quantity on its own. */
  predicate Available(produk: map<int, Produk>, it: Item) {
    it.id in produk && produk[it.id].stok >= it.quantity
  }

  function LineFor(p: Produk, it: Item): Line {
    Line(p.id, it.quantity, p.harga, p.harga * it.quantity as real)
  }

  function LineError(produk: map<int, Produk>, it: Item): string
    requires !Available(produk, it)
  {
    if it.id !in produk then NotFound else OutOfStock(produk[it.id].nama)
  }

  /** The detail lines of a cart, or the message of the first line (in
      cart order) that fails validation. */
  function Lines(produk: map<int, Produk>, items: seq<Item>): (r: Result<seq<Line>>)
    ensures r.Ok? <==> forall i :: 0 <= i < |items| ==> Available(produk, items[i])
    ensures r.Ok? ==> |r.value| == |items|
    ensures r.Ok? ==> forall i :: 0 <= i < |items| ==>
      && r.value[i].harga == produk[items[i].id].harga
      && r.value[i].subTotal == produk[items[i].id].harga * items[i].quantity as real
      && r.value[i] == LineFor(produk[items[i].id], items[i])
    decreases |items|
  {
    if items == [] then Ok([])
    else
      var it := items[|items| - 1];
      var prefix := items[..|items| - 1];
      assert forall i :: 0 <= i < |prefix| ==> prefix[i] == items[i];
      match Lines(produk, prefix)
      case Err(m) => Err(m)
      case Ok(ls) =>
        if Available(produk, it) then Ok(ls + [LineFor(produk[it.id], it)])
        else Err(LineError(produk, it))
  }

  /** A validated cart is its validated prefix and one more priced line. */
  lemma LinesPrefix(produk: map<int, Produk>, items: seq<Item>)
    requires items != [] && Lines(produk, items).Ok?
    ensures Lines(produk, items[..|items| - 1]).Ok?
    ensures Lines(produk, items).value ==
      Lines(produk, items[..|items| - 1]).value + [LineFor(produk[items[|items| - 1].id], items[|items| - 1])]
  {
  }

  /** A failed validation reports the message of the first failing line,
      in cart order. */
  lemma {:induction false} LinesFirstFailure(produk: map<int, Produk>, items: seq<Item>) returns (i: nat)
    requires Lines(produk, items).Err?
    ensures i < |items| && !Available(produk, items[i])
    ensures Lines(produk, items).message == LineError(produk, items[i])
    ensures forall j :: 0 <= j < i ==> Available(produk, items[j])
    decreases |items|
  {
    var prefix := items[..|items| - 1];
    assert forall k :: 0 <= k < |prefix| ==> prefix[k] == items[k];
    if Lines(produk, prefix).Err? {
      i := LinesFirstFailure(produk, prefix);
    } else {
      i := |items| - 1;
    }
  }

  /** Once a prefix of the cart fails validation, the whole cart fails with
      the same message. */
  lemma {:induction false} LinesFailureExtends(produk: map<int, Produk>, items: seq<Item>, k: nat)
    requires k <= |items|
    requires Lines(produk, items[..k]).Err?
    ensures Lines(produk, items) == Lines(produk, items[..k])
    decreases |items| - k
  {
    if k < |items| {
      var n := |items|;
      var prefix := items[..n - 1];
      assert prefix[..k] == items[..k];
      LinesFailureExtends(produk, prefix, k);
      assert Lines(produk, items) == Lines(produk, prefix);
    } else {
      assert items[..k] == items;
    }
  }

  function LineSubTotal(l: Line): real { l.subTotal }

  /** `totalHarga`: the gross total, the sum of the lines' subtotals. */
  function Gross(lines: seq<Line>): real {
    SumBy(lines, LineSubTotal)
  }

  /** The detail lines are pushed in whatever order the product lookups
      finish; the gross total is the same for every such order. */
  lemma GrossOrderIndependent(lines: seq<Line>, pushed: seq<Line>)
    requires multiset(pushed) == multiset(lines)
    ensures Gross(pushed) == Gross(lines)
  {
    SumByPermutation(pushed, lines, LineSubTotal);
  }

  /** `totalHargaAkhir`: the gross total after 5% of the gross total is
      taken off for a member, and then, for a voucher whose minimum the
      gross total reaches, its percentage of what is left. */
  function FinalTotal(gross: real, memberFound: bool, voucher: Option<Diskon>): (total: real)
    ensures 0.0 <= gross && (voucher.Some? ==> 0 <= voucher.value.persen) ==> total <= gross
    ensures 0.0 <= gross && (voucher.Some? ==> voucher.value.persen <= 100) ==> 0.0 <= total
  {
    var afterMember := if memberFound then gross - gross * 0.05 else gross;
    if voucher.Some? && gross >= voucher.value.minTransaksi as real
    then Reduced(afterMember, voucher.value.persen)
    else afterMember
  }

  /** `amount` less `persen` percent of itself. */
  function Reduced(amount: real, persen: int): (r: real)
    ensures 0.0 <= amount && 0 <= persen ==> r <= amount
    ensures 0.0 <= amount && persen <= 100 ==> 0.0 <= r
  {
    var q := persen as real / 100.0;
    ScaledWithin(amount, q);
    amount - amount * q
  }

  /** Taking a fraction between 0 and 1 of a non-negative amount gives at
      most that amount and no less than zero. */
  lemma ScaledWithin(a: real, q: real)
    ensures 0.0 <= a && 0.0 <= q ==> 0.0 <= a * q
    ensures 0.0 <= a && q <= 1.0 ==> a * q <= a
  {
    if 0.0 <= a && q <= 1.0 {
      assert a * q <= a * 1.0;
    }
  }

  /** The member step applies when a truthy member id names a stored member. */
  predicate MemberFound(db: Db, req: CheckoutRequest) {
    Given(req.memberId) && req.memberId.value in db.member
  }

  /** The voucher named by a truthy voucher id, when it is stored. */
  function VoucherFor(db: Db, req: CheckoutRequest): Option<Diskon> {
    if Given(req.diskonId) && req.diskonId.value in db.diskon
    then Some(db.diskon[req.diskonId.value]) else None
  }

  /** The member step takes 5% of the gross total; the voucher step takes its
      percentage of what the member step left, and only when the gross total
      reaches the voucher's minimum. */
  lemma DiscountStacking(gross: real, memberFound: bool, voucher: Option<Diskon>)
    ensures voucher.None? ==> FinalTotal(gross, memberFound, voucher) == (if memberFound then gross * 0.95 else gross)
    ensures voucher.Some? && gross < voucher.value.minTransaksi as real ==>
      FinalTotal(gross, memberFound, voucher) == (if memberFound then gross * 0.95 else gross)
    ensures voucher.Some? && gross >= voucher.value.minTransaksi as real ==>
      FinalTotal(gross, memberFound, voucher) ==
        (if memberFound then gross * 0.95 else gross) * (1.0 - voucher.value.persen as real / 100.0)
  {
  }

  /** Gross 100000 with a member and a 10% voucher whose minimum is 50000
      comes to 85500; paying 90000 leaves 4500 change. A gross of 40000 does
      not reach that minimum and only the member step applies. */
  lemma WorkedExample(d: Diskon)
    requires d.persen == 10 && d.minTransaksi == 50000
    ensures FinalTotal(100000.0, true, Some(d)) == 85500.0
    ensures 90000.0 - FinalTotal(100000.0, true, Some(d)) == 4500.0
    ensures FinalTotal(40000.0, true, Some(d)) == 38000.0
    ensures FinalTotal(40000.0, false, Some(d)) == 40000.0
  {
  }

  // ---------------------------------------------------------------------
  // The commit

  /** The id stored for an optional member or voucher: the id when truthy. */
  function StoredId(id: Option<int>): Option<int> {
    if Given(id) then id else None
  }

  /** The rows `createMany` inserts for the sale `tid`, one per line. */
  function DetailRows(tid: int, lines: seq<Line>): (rows: seq<DetailTransaksi>)
    ensures |rows| == |lines|
    ensures forall i :: 0 <= i < |lines| ==>
      rows[i].transaksiId == tid && rows[i].produkId == lines[i].produkId &&
      rows[i].qty == lines[i].qty && rows[i].subTotal == lines[i].subTotal
    ensures SumBy(rows, SubTotalOf) == Gross(lines)
    decreases |lines|
  {
    if lines == [] then []
    else
      var l := lines[|lines| - 1];
      var rows := DetailRows(tid, lines[..|lines| - 1]) + [DetailTransaksi(tid, l.produkId, l.qty, l.subTotal)];
      assert rows[..|rows| - 1] == DetailRows(tid, lines[..|lines| - 1]);
      rows
  }

  /** The total quantity the cart lists for product `id`, over all its lines. */
  function QtyFor(items: seq<Item>, id: int): int
    decreases |items|
  {
    if items == [] then 0
    else QtyFor(items[..|items| - 1], id) + (if items[|items| - 1].id == id then items[|items| - 1].quantity else 0)
  }

  /** The product table after every line's quantity is taken off its
      product's stock, one line after another. */
  function Decrement(produk: map<int, Produk>, items: seq<Item>): (r: map<int, Produk>)
    ensures r.Keys == produk.Keys
    ensures forall id :: id in produk ==> r[id] == produk[id].(stok := produk[id].stok - QtyFor(items, id))
    decreases |items|
  {
    if items == [] then produk
    else
      var prev := Decrement(produk, items[..|items| - 1]);
      var it := items[|items| - 1];
      if it.id in prev then prev[it.id := prev[it.id].(stok := prev[it.id].stok - it.quantity)] else prev
  }

  /** All effects of a paid checkout, applied together. */
  function Commit(db: Db, t: Transaksi, lines: seq<Line>, items: seq<Item>): Db {
    db.(transaksi := db.transaksi + [t],
        detail := db.detail + DetailRows(t.id, lines),
        produk := Decrement(db.produk, items),
        nextId := db.nextId + 1)
  }

  /** The whole handler: the new tables and the reply. Every refusal leaves
      the tables as they were. */
  function Checkout(db: Db, req: CheckoutRequest, now: int): (out: (Db, Reply<Transaksi>))
    ensures out.1.Refused? ==> out.0 == db
    ensures req.items.None? || req.items.value == [] ==> out.1 == Refused(403, EmptyCart)
    ensures req.items.Some? && req.items.value != [] && Lines(db.produk, req.items.value).Ok? ==>
      var total := FinalTotal(Gross(Lines(db.produk, req.items.value).value), MemberFound(db, req), VoucherFor(db, req));
      && (req.bayar < total ==> out.1 == Refused(403, Underpaid))
      && (req.bayar >= total && req.kasirId.None? ==> out.1 == Refused(500, Failed))
    ensures out.1.Done? ==> (out.1.status == 201 && out.1.value.kembali >= 0.0 &&
      out.1.value.kembali == req.bayar - out.1.value.total && out.1.value.bayar == req.bayar)
  {
    if req.items.None? || req.items.value == [] then (db, Refused(403, EmptyCart))
    else
      var items := req.items.value;
      match Lines(db.produk, items)
      case Err(m) => (db, Refused(500, m))
      case Ok(lines) =>
        var total := FinalTotal(Gross(lines), MemberFound(db, req), VoucherFor(db, req));
        var kembali := req.bayar - total;
        if kembali < 0.0 then (db, Refused(403, Underpaid))
        else if req.kasirId.None? then (db, Refused(500, Failed))
        else
          var t := Transaksi(db.nextId, req.kasirId.value, StoredId(req.memberId), StoredId(req.diskonId),
                             total, req.bayar, kembali, now);
          (Commit(db, t, lines, items), Done(201, t))
  }

  // ---------------------------------------------------------------------
  // Properties of the checkout

  /** A missing product or a line its product's stock does not cover fails
      the checkout with 500 and the first such line's message. */
  lemma UnavailableLineRefused(db: Db, req: CheckoutRequest, now: int, i: nat)
    requires req.items.Some? && i < |req.items.value|
    requires !Available(db.produk, req.items.value[i])
    ensures Checkout(db, req, now).0 == db
    ensures Checkout(db, req, now).1.Refused? && Checkout(db, req, now).1.status == 500
  {
  }

  /** A checkout succeeds exactly when the cart is non-empty, every line
      passes validation, the payment covers the final total and the request
      names a cashier; it then
      stores one sale carrying that total, one detail row per line and the
      stock decrements, and nothing else. */
  lemma CheckoutSucceeds(db: Db, req: CheckoutRequest, now: int)
    ensures Checkout(db, req, now).1.Done? <==>
      && req.items.Some? && req.items.value != []
      && Lines(db.produk, req.items.value).Ok?
      && req.bayar >= FinalTotal(Gross(Lines(db.produk, req.items.value).value), MemberFound(db, req), VoucherFor(db, req))
      && req.kasirId.Some?
    ensures Checkout(db, req, now).1.Done? ==>
      var items := req.items.value;
      var lines := Lines(db.produk, items).value;
      var (db', reply) := Checkout(db, req, now);
      var t := reply.value;
      && t.id == db.nextId && t.tglTransaksi == now && t.kasirId == req.kasirId.value
      && t.total == FinalTotal(Gross(lines), MemberFound(db, req), VoucherFor(db, req))
      && db'.transaksi == db.transaksi + [t]
      && db'.detail == db.detail + DetailRows(t.id, lines)
      && |db'.detail| == |db.detail| + |items|
      && db'.produk.Keys == db.produk.Keys
      && (forall id :: id in db.produk ==> db'.produk[id].stok == db.produk[id].stok - QtyFor(items, id))
      && db'.member == db.member && db'.diskon == db.diskon
  {
  }

  /** The discount given over all stored sales: the summed detail subtotals
      less the summed sale totals (`total_diskon` of the admin dashboard). */
  function Ledger(db: Db): real {
    SumBy(db.detail, SubTotalOf) - SumBy(db.transaksi, TotalOf)
  }

  /** A paid checkout adds to the discount ledger exactly what its discounts
      took off its gross total. */
  lemma CheckoutLedger(db: Db, req: CheckoutRequest, now: int)
    requires Checkout(db, req, now).1.Done?
    ensures var lines := Lines(db.produk, req.items.value).value;
      Ledger(Checkout(db, req, now).0) == Ledger(db) + (Gross(lines) - Checkout(db, req, now).1.value.total)
  {
    var items := req.items.value;
    var lines := Lines(db.produk, items).value;
    var (db', reply) := Checkout(db, req, now);
    SumByAppend(db.detail, DetailRows(reply.value.id, lines), SubTotalOf);
    SumByAppend(db.transaksi, [reply.value], TotalOf);
    assert SumBy([reply.value], TotalOf) == TotalOf(reply.value) by {
      assert [reply.value][..0] == [];
    }
  }

  /** Lines with non-negative prices and quantities have a non-negative gross total. */
  lemma {:induction false} GrossNonNegative(lines: seq<Line>)
    requires forall i :: 0 <= i < |lines| ==> 0.0 <= lines[i].subTotal
    ensures 0.0 <= Gross(lines)
    decreases |lines|
  {
    if lines != [] {
      GrossNonNegative(lines[..|lines| - 1]);
    }
  }

  /** With non-negative prices, quantities and voucher percentages, no paid
      checkout can make the discount ledger shrink, so the dashboard's
      `total_diskon` stays non-negative. */
  lemma LedgerStaysNonNegative(db: Db, req: CheckoutRequest, now: int)
    requires 0.0 <= Ledger(db)
    requires forall id :: id in db.produk ==> 0.0 <= db.produk[id].harga
    requires forall id :: id in db.diskon ==> 0 <= db.diskon[id].persen
    requires req.items.Some? ==> forall i :: 0 <= i < |req.items.value| ==> 0 <= req.items.value[i].quantity
    ensures 0.0 <= Ledger(Checkout(db, req, now).0)
  {
    if Checkout(db, req, now).1.Done? {
      var lines := Lines(db.produk, req.items.value).value;
      LinesNonNegative(db.produk, req.items.value);
      GrossNonNegative(lines);
      CheckoutLedger(db, req, now);
    }
  }

  /** Non-negative prices and quantities give non-negative line subtotals. */
  lemma LinesNonNegative(produk: map<int, Produk>, items: seq<Item>)
    requires Lines(produk, items).Ok?
    requires forall id :: id in produk ==> 0.0 <= produk[id].harga
    requires forall i :: 0 <= i < |items| ==> 0 <= items[i].quantity
    ensures forall i :: 0 <= i < |items| ==> 0.0 <= Lines(produk, items).value[i].subTotal
  {
    forall i | 0 <= i < |items| ensures 0.0 <= Lines(produk, items).value[i].subTotal {
      ScaledWithin(produk[items[i].id].harga, items[i].quantity as real);
    }
  }

  /** When no two lines name the same product, every product's stock stays
      non-negative after a paid checkout, provided it was before. */
  lemma DistinctLinesKeepStock(db: Db, req: CheckoutRequest, now: int)
    requires Checkout(db, req, now).1.Done?
    requires forall i, j :: 0 <= i < j < |req.items.value| ==> req.items.value[i].id != req.items.value[j].id
    requires forall id :: id in db.produk ==> 0 <= db.produk[id].stok
    ensures forall id :: id in db.produk ==> 0 <= Checkout(db, req, now).0.produk[id].stok
  {
    var items := req.items.value;
    forall id | id in db.produk ensures QtyFor(items, id) <= db.produk[id].stok {
      QtyForDistinct(items, id, db.produk);
    }
  }

  /** With distinct product ids, the quantity listed for a product is that of
      its one line, which validation checked against its stock. */
  lemma {:induction false} QtyForDistinct(items: seq<Item>, id: int, produk: map<int, Produk>)
    requires forall i, j :: 0 <= i < j < |items| ==> items[i].id != items[j].id
    requires forall i :: 0 <= i < |items| ==> Available(produk, items[i])
    requires id in produk && 0 <= produk[id].stok
    ensures QtyFor(items, id) <= produk[id].stok
    ensures QtyFor(items, id) != 0 ==> exists i :: 0 <= i < |items| && items[i].id == id
    decreases |items|
  {
    if items != [] {
      var n := |items|;
      var prefix := items[..n - 1];
      assert forall i :: 0 <= i < |prefix| ==> prefix[i] == items[i];
      QtyForDistinct(prefix, id, produk);
    }
  }

  /** Validation compares each line with the stock before the checkout, so
      two lines for the same product can each pass while their sum exceeds
      the stock: one unit in stock, two lines of one unit, and the stock
      ends at -1. */
  lemma DuplicateLinesOverdraw(p: Produk, now: int)
    requires p.id == 1 && p.stok == 1 && p.harga == 1000.0
    ensures var db := Db(map[1 := p], map[], map[], [], [], 1);
      var req := CheckoutRequest(Some([Item(1, 1), Item(1, 1)]), None, None, 2000.0, Some(7));
      Checkout(db, req, now).1.Done? && Checkout(db, req, now).0.produk[1].stok == -1
  {
    var db := Db(map[1 := p], map[], map[], [], [], 1);
    var items := [Item(1, 1), Item(1, 1)];
    var req := CheckoutRequest(Some(items), None, None, 2000.0, Some(7));
    assert items[..1] == [Item(1, 1)];
    assert Lines(db.produk, items).Ok?;
    var lines := Lines(db.produk, items).value;
    assert lines == [LineFor(p, Item(1, 1)), LineFor(p, Item(1, 1))];
    assert lines[..1] == [LineFor(p, Item(1, 1))];
    assert lines[..1][..0] == [];
    assert LineSubTotal(lines[0]) == 1000.0 && LineSubTotal(lines[1]) == 1000.0;
    assert SumBy(lines[..1], LineSubTotal) == SumBy(lines[..1][..0], LineSubTotal) + LineSubTotal(lines[..1][0]);
    assert Gross(lines[..1]) == 1000.0;
    assert Gross(lines) == 2000.0;
    assert QtyFor(items, 1) == 2;
  }

  /** A negative quantity passes validation and adds to the stock. */
  lemma NegativeQuantityRestocks(db: Db, req: CheckoutRequest, now: int, i: nat)
    requires Checkout(db, req, now).1.Done?
    requires i < |req.items.value| && req.items.value[i].quantity < 0
    requires forall j :: 0 <= j < |req.items.value| && j != i ==> req.items.value[j].id != req.items.value[i].id
    ensures var id := req.items.value[i].id;
      Checkout(db, req, now).0.produk[id].stok > db.produk[id].stok
  {
    var items := req.items.value;
    var id := items[i].id;
    QtyForSingle(items, i);
  }

  /** When only line `i` names its product, that line's quantity is the
      product's whole quantity. */
  lemma {:induction false} QtyForSingle(items: seq<Item>, i: nat)
    requires i < |items|
    requires forall j :: 0 <= j < |items| && j != i ==> items[j].id != items[i].id
    ensures QtyFor(items, items[i].id) == items[i].quantity
    decreases |items|
  {
    var n := |items|;
    var prefix := items[..n - 1];
    if i < n - 1 {
      assert forall j :: 0 <= j < |prefix| ==> prefix[j] == items[j];
      QtyForSingle(prefix, i);
    } else {
      QtyForAbsent(prefix, items[i].id);
    }
  }

  lemma {:induction false} QtyForAbsent(items: seq<Item>, id: int)
    requires forall j :: 0 <= j < |items| ==> items[j].id != id
    ensures QtyFor(items, id) == 0
    decreases |items|
  {
    if items != [] {
      QtyForAbsent(items[..|items| - 1], id);
    }
  }

  // ---------------------------------------------------------------------
  // The handler, step by step on the stored tables

  class Store {
    var produk: map<int, Produk>
    var member: map<int, Member>
    var diskon: map<int, Diskon>
    var transaksi: seq<Transaksi>
    var detail: seq<DetailTransaksi>
    var nextId: int

    function State(): Db
      reads this
    {
      Db(produk, member, diskon, transaksi, detail, nextId)
    }

    constructor (db: Db)
      ensures State() == db
    {
      produk, member, diskon := db.produk, db.member, db.diskon;
      transaksi, detail, nextId := db.transaksi, db.detail, db.nextId;
    }

    /** `createTransaksi`, with the clock reading `now` as a parameter. */
    method CreateTransaksi(req: CheckoutRequest, now: int) returns (r: Reply<Transaksi>)
      modifies this
      ensures (State(), r) == Checkout(old(State()), req, now)
    {
      ghost var db := State();
      if req.items.None? || |req.items.value| == 0 {
        return Refused(403, EmptyCart);
      }
      var items := req.items.value;
      var validated := CollectLines(items);
      if validated.Err? {
        return Refused(500, validated.message);
      }
      var detailData := validated.value;

      var totalHarga := Gross(detailData);
      var totalHargaAkhir := ApplyDiscounts(totalHarga, req);
      var kembalian := req.bayar - totalHargaAkhir;
      if kembalian < 0.0 {
        return Refused(403, Underpaid);
      }
      if req.kasirId.None? {
        return Refused(500, Failed);
      }

      var t := Transaksi(nextId, req.kasirId.value, StoredId(req.memberId), StoredId(req.diskonId),
                         totalHargaAkhir, req.bayar, kembalian, now);
      CommitSale(t, detailData, items);
      r := Done(201, t);
    }

    /** The all-or-nothing unit of the commit: the sale, its detail rows and
        the stock decrements. */
    method CommitSale(t: Transaksi, lines: seq<Line>, items: seq<Item>)
      modifies this
      ensures State() == Commit(old(State()), t, lines, items)
    {
      transaksi := transaksi + [t];
      detail := detail + DetailRows(t.id, lines);
      nextId := nextId + 1;
      DecrementStock(items);
    }

    /** The two discount steps of the handler on the gross total: 5% for a
        stored member, then the voucher's percentage when the gross total
        reaches its minimum. */
    method ApplyDiscounts(totalHarga: real, req: CheckoutRequest) returns (totalHargaAkhir: real)
      ensures totalHargaAkhir == FinalTotal(totalHarga, MemberFound(State(), req), VoucherFor(State(), req))
    {
      totalHargaAkhir := totalHarga;
      if Given(req.memberId) && req.memberId.value in member {
        totalHargaAkhir := totalHargaAkhir - totalHarga * 0.05;
      }
      if Given(req.diskonId) && req.diskonId.value in diskon {
        var d := diskon[req.diskonId.value];
        if totalHarga >= d.minTransaksi as real {
          totalHargaAkhir := totalHargaAkhir - totalHargaAkhir * (d.persen as real / 100.0);
        }
      }
    }

    /** The validation loop: looks up each line's product, checks its stock
        and pushes the priced line, stopping at the first failing line. */
    method CollectLines(items: seq<Item>) returns (r: Result<seq<Line>>)
      ensures r == Lines(produk, items)
    {
      var detailData: seq<Line> := [];
      var i := 0;
      while i < |items|
        invariant 0 <= i <= |items|
        invariant Lines(produk, items[..i]) == Ok(detailData)
      {
        var item := items[i];
        assert items[..i + 1][..i] == items[..i];
        if item.id !in produk {
          LinesFailureExtends(produk, items, i + 1);
          return Err(NotFound);
        }
        var p := produk[item.id];
        if p.stok < item.quantity {
          LinesFailureExtends(produk, items, i + 1);
          return Err(OutOfStock(p.nama));
        }
        detailData := detailData + [LineFor(p, item)];
        i := i + 1;
      }
      assert items[..i] == items;
      r := Ok(detailData);
    }

    /** The stock updates of the commit: every line's quantity is taken off
        its product's stock. */
    method DecrementStock(items: seq<Item>)
      modifies this
      ensures produk == Decrement(old(produk), items)
      ensures member == old(member) && diskon == old(diskon)
      ensures transaksi == old(transaksi) && detail == old(detail) && nextId == old(nextId)
    {
      var j := 0;
      while j < |items|
        invariant 0 <= j <= |items|
        invariant produk == Decrement(old(produk), items[..j])
        invariant member == old(member) && diskon == old(diskon)
        invariant transaksi == old(transaksi) && detail == old(detail) && nextId == old(nextId)
      {
        var item := items[j];
        assert items[..j + 1][..j] == items[..j];
        if item.id in produk {
          produk := produk[item.id := produk[item.id].(stok := produk[item.id].stok - item.quantity)];
        }
        j := j + 1;
      }
      assert items[..j] == items;
    }
  }
}
