/** The reports: sales in a period, the stock list, and the figures of the
    admin dashboard. Each report is a value computed from the rows the
    tables hold when it is asked for. Timestamps are milliseconds. */
module Laporan {
  import opened Common
  import opened Schema
  import opened Sorting
  import Sales = Transaksi

  // ---------------------------------------------------------------------
  // Sales in a period

  /** The length of a day in milliseconds, less one: the last instant of a
      day is its first plus this. */
  const LastMsOfDay: int := 86399999

  /** The closed interval of instants a sales report covers. */
  datatype Period = Period(start: int, end: int)

  predicate InPeriod(t: Transaksi, p: Period) {
    p.start <= t.tglTransaksi <= p.end
  }

  /** The period of `getLaporanPenjualan`. With both query dates given it
      runs from the first instant of `tglMulai` to the last instant of
      `tglAkhir`, both in UTC; `utcMidnight` is the date parser, which gives
      the first instant of a `YYYY-MM-DD` day or fails. Otherwise it is
      `today`, the current local day. A date that does not parse has no
      period. */
  function SalesPeriod(tglMulai: Field, tglAkhir: Field, today: Period,
                       utcMidnight: string -> Option<int>): (r: Option<Period>)
    ensures !(Filled(tglMulai) && Filled(tglAkhir)) ==> r == Some(today)
    ensures Filled(tglMulai) && Filled(tglAkhir) ==>
      (r.Some? <==> utcMidnight(tglMulai.value).Some? && utcMidnight(tglAkhir.value).Some?)
  {
    if Filled(tglMulai) && Filled(tglAkhir) then
      match (utcMidnight(tglMulai.value), utcMidnight(tglAkhir.value))
      case (Some(s), Some(e)) => Some(Period(s, e + LastMsOfDay))
      case _ => None
    else Some(today)
  }

  /** With both dates given, a sale falls in the period exactly when it
      happened no earlier than the start of the first day and before the
      start of the day after the last. */
  lemma PeriodCoversWholeDays(tglMulai: Field, tglAkhir: Field, today: Period,
                              utcMidnight: string -> Option<int>, t: Transaksi)
    requires Filled(tglMulai) && Filled(tglAkhir)
    requires SalesPeriod(tglMulai, tglAkhir, today, utcMidnight).Some?
    ensures var p := SalesPeriod(tglMulai, tglAkhir, today, utcMidnight).value;
      InPeriod(t, p) <==>
        utcMidnight(tglMulai.value).value <= t.tglTransaksi < utcMidnight(tglAkhir.value).value + 86400000
  {
  }

  /** The summary and rows of a sales report. */
  datatype SalesReport = SalesReport(periode: Period, jumlahTransaksi: nat, totalOmset: real, data: seq<Transaksi>)

  const SalesFailed: string := "Gagal ambil laporan penjualan"

  function NewestFirst(t: Transaksi): real {
    -(t.tglTransaksi as real)
  }

  /** The sales of a period, in table order. */
  function SalesIn(transaksi: seq<Transaksi>, p: Period): (r: seq<Transaksi>)
    ensures forall t :: t in r <==> t in transaksi && InPeriod(t, p)
  {
    Where(transaksi, t => InPeriod(t, p))
  }

  /** `getLaporanPenjualan`: the sales of the period, newest first, with
      their number and the sum of their totals. A date that does not parse
      makes the query fail with 500. */
  function GetLaporanPenjualan(transaksi: seq<Transaksi>, tglMulai: Field, tglAkhir: Field, today: Period,
                               utcMidnight: string -> Option<int>): (r: Reply<SalesReport>)
    ensures SalesPeriod(tglMulai, tglAkhir, today, utcMidnight).None? <==> r == Refused(500, SalesFailed)
    ensures r.Done? ==>
      var p := SalesPeriod(tglMulai, tglAkhir, today, utcMidnight).value;
      && r.status == 200
      && r.value.periode == p
      && multiset(r.value.data) == multiset(SalesIn(transaksi, p))
      && (forall i, j :: 0 <= i < j < |r.value.data| ==>
            r.value.data[i].tglTransaksi >= r.value.data[j].tglTransaksi)
      && r.value.jumlahTransaksi == |SalesIn(transaksi, p)|
      && r.value.totalOmset == SumBy(SalesIn(transaksi, p), TotalOf)
  {
    match SalesPeriod(tglMulai, tglAkhir, today, utcMidnight)
    case None => Refused(500, SalesFailed)
    case Some(p) =>
      var rows := SalesIn(transaksi, p);
      var data := SortBy(rows, NewestFirst);
      assert forall i, j :: 0 <= i < j < |data| ==> data[i].tglTransaksi >= data[j].tglTransaksi by {
        forall i, j | 0 <= i < j < |data| ensures data[i].tglTransaksi >= data[j].tglTransaksi {
          assert NewestFirst(data[i]) <= NewestFirst(data[j]);
        }
      }
      SumByPermutation(data, rows, TotalOf);
      Done(200, SalesReport(p, |data|, SumBy(data, TotalOf), data))
  }

  /** A report listing the sales of the period lists every such sale and
      nothing else. */
  lemma SalesReportListsPeriod(transaksi: seq<Transaksi>, tglMulai: Field, tglAkhir: Field, today: Period,
                               utcMidnight: string -> Option<int>, t: Transaksi)
    requires GetLaporanPenjualan(transaksi, tglMulai, tglAkhir, today, utcMidnight).Done?
    ensures var r := GetLaporanPenjualan(transaksi, tglMulai, tglAkhir, today, utcMidnight).value;
      t in r.data <==> t in transaksi && InPeriod(t, r.periode)
  {
    var r := GetLaporanPenjualan(transaksi, tglMulai, tglAkhir, today, utcMidnight).value;
    assert t in r.data <==> t in multiset(r.data);
  }

  // ---------------------------------------------------------------------
  // The stock list

  /** A row of the stock report. */
  datatype StokRow = StokRow(id: int, namaBarang: string, kategori: string, harga: real, stokSaatIni: int, status: string)

  /** The stock level below which a product is reported as critical. */
  const CriticalBelow: int := 5

  function StatusOf(stok: int): (s: string)
    ensures s == "KRITIS" <==> stok < CriticalBelow
    ensures s == "KRITIS" || s == "Aman"
  {
    if stok < CriticalBelow then "KRITIS" else "Aman"
  }

  /** The category name shown for a product: the name of its category, or
      "Tanpa Kategori" when the category is missing or has an empty name. */
  function KategoriLabel(kategori: map<int, Kategori>, id: int): (s: string)
    ensures s != ""
    ensures id in kategori && kategori[id].nama != "" ==> s == kategori[id].nama
    ensures !(id in kategori && kategori[id].nama != "") ==> s == "Tanpa Kategori"
  {
    if id in kategori && kategori[id].nama != "" then kategori[id].nama else "Tanpa Kategori"
  }

  function StokRowOf(kategori: map<int, Kategori>, p: Produk): StokRow {
    StokRow(p.id, p.nama, KategoriLabel(kategori, p.kategoriId), p.harga, p.stok, StatusOf(p.stok))
  }

  function ByStok(p: Produk): real {
    p.stok as real
  }

  /** Rows sorted by `ByStok` are in ascending order of stock. */
  lemma StokOrdered(s: seq<Produk>)
    requires SortedBy(s, ByStok)
    ensures forall i, j :: 0 <= i < j < |s| ==> s[i].stok <= s[j].stok
  {
    forall i, j | 0 <= i < j < |s| ensures s[i].stok <= s[j].stok {
      assert ByStok(s[i]) <= ByStok(s[j]);
    }
  }

  /** The product table in ascending order of stock. */
  function StokAscending(produk: seq<Produk>): (r: seq<Produk>)
    ensures multiset(r) == multiset(produk) && |r| == |produk|
    ensures forall i, j :: 0 <= i < j < |r| ==> r[i].stok <= r[j].stok
  {
    var r := SortBy(produk, ByStok);
    StokOrdered(r);
    r
  }

  /** `getLaporanStok`: one row per product, in ascending order of stock,
      each row marked critical exactly when its stock is below 5. */
  function GetLaporanStok(produk: seq<Produk>, kategori: map<int, Kategori>): (r: seq<StokRow>)
    ensures |r| == |produk|
    ensures forall i, j :: 0 <= i < j < |r| ==> r[i].stokSaatIni <= r[j].stokSaatIni
    ensures forall i :: 0 <= i < |r| ==> (r[i].status == "KRITIS" <==> r[i].stokSaatIni < CriticalBelow)
  {
    var sorted := StokAscending(produk);
    seq(|sorted|, i requires 0 <= i < |sorted| => StokRowOf(kategori, sorted[i]))
  }

  /** Each row of the stock report describes a product of the table. */
  lemma StokRowDescribesProduk(produk: seq<Produk>, kategori: map<int, Kategori>, i: nat)
    requires i < |GetLaporanStok(produk, kategori)|
    ensures exists p :: p in produk && GetLaporanStok(produk, kategori)[i] == StokRowOf(kategori, p)
  {
    var sorted := StokAscending(produk);
    assert sorted[i] in multiset(produk);
    assert GetLaporanStok(produk, kategori)[i] == StokRowOf(kategori, sorted[i]);
  }

  /** Every product of the table has its row in the stock report. */
  lemma StokReportListsEveryProduk(produk: seq<Produk>, kategori: map<int, Kategori>, p: Produk)
    requires p in produk
    ensures StokRowOf(kategori, p) in GetLaporanStok(produk, kategori)
  {
    var sorted := StokAscending(produk);
    assert p in multiset(sorted);
    var i :| 0 <= i < |sorted| && sorted[i] == p;
    assert GetLaporanStok(produk, kategori)[i] == StokRowOf(kategori, p);
  }

  // ---------------------------------------------------------------------
  // The dashboard

  /** The sum of all sale totals; the sum over no rows is 0. */
  function TotalOmset(transaksi: seq<Transaksi>): real {
    SumBy(transaksi, TotalOf)
  }

  /** The sum of all detail subtotals, before any discount. */
  function TotalGross(detail: seq<DetailTransaksi>): real {
    SumBy(detail, SubTotalOf)
  }

  /** `total_diskon`: what the discounts took off, as gross less net. */
  function TotalDiskon(transaksi: seq<Transaksi>, detail: seq<DetailTransaksi>): real {
    TotalGross(detail) - TotalOmset(transaksi)
  }

  /** A sequence of checkouts, each request with the time it is made. */
  function RunCheckouts(db: Sales.Db, reqs: seq<(Sales.CheckoutRequest, int)>): Sales.Db
    decreases |reqs|
  {
    if reqs == [] then db
    else
      var (req, now) := reqs[|reqs| - 1];
      Sales.Checkout(RunCheckouts(db, reqs[..|reqs| - 1]), req, now).0
  }

  /** Prices and voucher percentages are not negative. */
  predicate SaneCatalogue(db: Sales.Db) {
    && (forall id :: id in db.produk ==> 0.0 <= db.produk[id].harga)
    && (forall id :: id in db.diskon ==> 0 <= db.diskon[id].persen)
  }

  predicate NoNegativeQuantities(req: Sales.CheckoutRequest) {
    req.items.Some? ==> forall i :: 0 <= i < |req.items.value| ==> 0 <= req.items.value[i].quantity
  }

  /** The dashboard's discount figure never goes negative: starting from
      tables where it is not negative, with prices and percentages not
      negative, any sequence of checkouts with quantities not negative
      keeps it so. */
  lemma {:induction false} TotalDiskonNeverNegative(db: Sales.Db, reqs: seq<(Sales.CheckoutRequest, int)>)
    requires 0.0 <= TotalDiskon(db.transaksi, db.detail)
    requires SaneCatalogue(db)
    requires forall k :: 0 <= k < |reqs| ==> NoNegativeQuantities(reqs[k].0)
    ensures SaneCatalogue(RunCheckouts(db, reqs))
    ensures 0.0 <= TotalDiskon(RunCheckouts(db, reqs).transaksi, RunCheckouts(db, reqs).detail)
    decreases |reqs|
  {
    if reqs != [] {
      var prefix := reqs[..|reqs| - 1];
      var (req, now) := reqs[|reqs| - 1];
      TotalDiskonNeverNegative(db, prefix);
      var before := RunCheckouts(db, prefix);
      assert NoNegativeQuantities(req);
      Sales.LedgerStaysNonNegative(before, req, now);
    }
  }

  /** One group of the best-seller query: a product id and the summed
      subtotal of its detail rows. */
  datatype Group = Group(produkId: int, terjual: real)

  function Terjual(g: Group): real {
    g.terjual
  }

  /** The product ids of the groups, in order. */
  function IdsOf(groups: seq<Group>): (ids: seq<int>)
    ensures |ids| == |groups|
    ensures forall i :: 0 <= i < |groups| ==> ids[i] == groups[i].produkId
  {
    seq(|groups|, i requires 0 <= i < |groups| => groups[i].produkId)
  }

  predicate DistinctIds(groups: seq<Group>) {
    forall i, j :: 0 <= i < j < |groups| ==> groups[i].produkId != groups[j].produkId
  }

  /** Adds one detail row to the groups: its subtotal goes to its product's
      group when there is one, else it opens a new group at the end. */
  function AddRow(groups: seq<Group>, d: DetailTransaksi): (r: seq<Group>)
    decreases |groups|
  {
    if groups == [] then [Group(d.produkId, d.subTotal)]
    else if groups[0].produkId == d.produkId then
      [groups[0].(terjual := groups[0].terjual + d.subTotal)] + groups[1..]
    else [groups[0]] + AddRow(groups[1..], d)
  }

  /** `groupBy ProdukId` with the sum of `subTotal`: the groups in order of
      each product's first detail row. */
  function Groups(detail: seq<DetailTransaksi>): seq<Group>
    decreases |detail|
  {
    if detail == [] then []
    else AddRow(Groups(detail[..|detail| - 1]), detail[|detail| - 1])
  }

  /** Adding a row adds its subtotal to the sum of the groups. */
  lemma {:induction false} AddRowSum(groups: seq<Group>, d: DetailTransaksi)
    ensures SumBy(AddRow(groups, d), Terjual) == SumBy(groups, Terjual) + d.subTotal
    decreases |groups|
  {
    if groups == [] {
      SumByCons(Group(d.produkId, d.subTotal), [], Terjual);
      assert [Group(d.produkId, d.subTotal)] + [] == [Group(d.produkId, d.subTotal)];
    } else {
      assert groups == [groups[0]] + groups[1..];
      SumByCons(groups[0], groups[1..], Terjual);
      if groups[0].produkId == d.produkId {
        SumByCons(groups[0].(terjual := groups[0].terjual + d.subTotal), groups[1..], Terjual);
      } else {
        AddRowSum(groups[1..], d);
        SumByCons(groups[0], AddRow(groups[1..], d), Terjual);
      }
    }
  }

  /** Grouping loses no sale: the group sums add up to the sum of all
      detail subtotals. */
  lemma {:induction false} GroupsAddUp(detail: seq<DetailTransaksi>)
    ensures SumBy(Groups(detail), Terjual) == SumBy(detail, SubTotalOf)
    decreases |detail|
  {
    if detail != [] {
      var prefix := detail[..|detail| - 1];
      GroupsAddUp(prefix);
      AddRowSum(Groups(prefix), detail[|detail| - 1]);
    }
  }

  /** Adding a row adds a group exactly when its product has none. */
  lemma {:induction false} AddRowLength(groups: seq<Group>, d: DetailTransaksi)
    ensures |AddRow(groups, d)| == if d.produkId in IdsOf(groups) then |groups| else |groups| + 1
    decreases |groups|
  {
    if groups != [] {
      assert IdsOf(groups) == [groups[0].produkId] + IdsOf(groups[1..]);
      AddRowLength(groups[1..], d);
    }
  }

  /** Adding a row to groups of distinct products: every group keeps its
      product and place, and gains the row's subtotal if it is the row's
      product. */
  lemma {:induction false} AddRowKeeps(groups: seq<Group>, d: DetailTransaksi)
    requires DistinctIds(groups)
    ensures forall i :: 0 <= i < |groups| ==>
      && i < |AddRow(groups, d)|
      && AddRow(groups, d)[i].produkId == groups[i].produkId
      && AddRow(groups, d)[i].terjual ==
           groups[i].terjual + (if groups[i].produkId == d.produkId then d.subTotal else 0.0)
    decreases |groups|
  {
    if groups != [] {
      var rest := groups[1..];
      assert DistinctIds(rest) by {
        forall i, j | 0 <= i < j < |rest| ensures rest[i].produkId != rest[j].produkId {
          assert rest[i] == groups[i + 1] && rest[j] == groups[j + 1];
        }
      }
      AddRowLength(groups, d);
      if groups[0].produkId != d.produkId {
        AddRowKeeps(rest, d);
      } else {
        forall i | 1 <= i < |groups| ensures groups[i].produkId != d.produkId {
        }
      }
    }
  }

  /** A row of a product without a group opens one at the end. */
  lemma {:induction false} AddRowNew(groups: seq<Group>, d: DetailTransaksi)
    requires d.produkId !in IdsOf(groups)
    ensures |AddRow(groups, d)| == |groups| + 1
    ensures AddRow(groups, d)[|groups|] == Group(d.produkId, d.subTotal)
    decreases |groups|
  {
    AddRowLength(groups, d);
    if groups != [] {
      assert IdsOf(groups) == [groups[0].produkId] + IdsOf(groups[1..]);
      AddRowNew(groups[1..], d);
    }
  }

  /** Adding a row keeps the products of the groups distinct. */
  lemma AddRowDistinct(groups: seq<Group>, d: DetailTransaksi)
    requires DistinctIds(groups)
    ensures DistinctIds(AddRow(groups, d))
  {
    var r := AddRow(groups, d);
    AddRowLength(groups, d);
    AddRowKeeps(groups, d);
    if d.produkId !in IdsOf(groups) {
      AddRowNew(groups, d);
      forall i | 0 <= i < |groups| ensures r[i].produkId != r[|groups|].produkId {
        assert IdsOf(groups)[i] == groups[i].produkId;
      }
    }
  }

  /** What the grouping computes: one group per product with detail rows,
      no product twice, each group holding its product's summed subtotal. */
  lemma {:induction false} GroupsAreSums(detail: seq<DetailTransaksi>)
    ensures DistinctIds(Groups(detail))
    ensures forall i :: 0 <= i < |detail| ==> detail[i].produkId in IdsOf(Groups(detail))
    ensures forall j :: 0 <= j < |Groups(detail)| ==> Groups(detail)[j].terjual == Sold(detail, Groups(detail)[j].produkId)
    decreases |detail|
  {
    if detail != [] {
      var prefix := detail[..|detail| - 1];
      var last := detail[|detail| - 1];
      assert detail == prefix + [last];
      GroupsAreSums(prefix);
      var g := Groups(prefix);
      AddRowDistinct(g, last);
      GroupsCoverRows(prefix, last);
      GroupsHoldSums(prefix, last);
    }
  }

  /** After one more row, every row's product still has a group. */
  lemma GroupsCoverRows(prefix: seq<DetailTransaksi>, last: DetailTransaksi)
    requires DistinctIds(Groups(prefix))
    requires forall i :: 0 <= i < |prefix| ==> prefix[i].produkId in IdsOf(Groups(prefix))
    ensures forall i :: 0 <= i < |prefix + [last]| ==> (prefix + [last])[i].produkId in IdsOf(Groups(prefix + [last]))
  {
    var detail := prefix + [last];
    assert detail[..|detail| - 1] == prefix;
    var g := Groups(prefix);
    var r := Groups(detail);
    assert r == AddRow(g, last);
    AddRowLength(g, last);
    AddRowKeeps(g, last);
    forall i | 0 <= i < |detail| ensures detail[i].produkId in IdsOf(r) {
      var id := detail[i].produkId;
      if id in IdsOf(g) {
        var j :| 0 <= j < |g| && IdsOf(g)[j] == id;
        assert IdsOf(r)[j] == id;
      } else {
        assert i == |prefix|;
        AddRowNew(g, last);
        assert IdsOf(r)[|g|] == id;
      }
    }
  }

  /** After one more row, every group still holds its product's sum. */
  lemma GroupsHoldSums(prefix: seq<DetailTransaksi>, last: DetailTransaksi)
    requires DistinctIds(Groups(prefix))
    requires forall i :: 0 <= i < |prefix| ==> prefix[i].produkId in IdsOf(Groups(prefix))
    requires forall j :: 0 <= j < |Groups(prefix)| ==> Groups(prefix)[j].terjual == Sold(prefix, Groups(prefix)[j].produkId)
    ensures var r := Groups(prefix + [last]);
      forall j :: 0 <= j < |r| ==> r[j].terjual == Sold(prefix + [last], r[j].produkId)
  {
    var detail := prefix + [last];
    assert detail[..|detail| - 1] == prefix;
    var g := Groups(prefix);
    var r := Groups(detail);
    assert r == AddRow(g, last);
    AddRowLength(g, last);
    AddRowKeeps(g, last);
    forall j | 0 <= j < |r| ensures r[j].terjual == Sold(detail, r[j].produkId) {
      SoldStep(prefix, last, r[j].produkId);
      if j == |g| {
        AddRowNew(g, last);
        forall i | 0 <= i < |prefix| ensures prefix[i].produkId != last.produkId {
        }
        SoldNothing(prefix, last.produkId);
      }
    }
  }

  /** The summed subtotal of the detail rows of one product. */
  function Sold(detail: seq<DetailTransaksi>, produkId: int): real
    decreases |detail|
  {
    if detail == [] then 0.0
    else
      var last := detail[|detail| - 1];
      Sold(detail[..|detail| - 1], produkId) + (if last.produkId == produkId then last.subTotal else 0.0)
  }

  /** One more detail row adds its subtotal to its own product's sum only. */
  lemma SoldStep(prefix: seq<DetailTransaksi>, last: DetailTransaksi, produkId: int)
    ensures Sold(prefix + [last], produkId) ==
      Sold(prefix, produkId) + (if last.produkId == produkId then last.subTotal else 0.0)
  {
    var s := prefix + [last];
    assert s[..|s| - 1] == prefix;
  }

  /** A product with no detail rows has sold nothing. */
  lemma {:induction false} SoldNothing(detail: seq<DetailTransaksi>, produkId: int)
    requires forall i :: 0 <= i < |detail| ==> detail[i].produkId != produkId
    ensures Sold(detail, produkId) == 0.0
    decreases |detail|
  {
    if detail != [] {
      SoldNothing(detail[..|detail| - 1], produkId);
    }
  }

  function MostSold(g: Group): real {
    -g.terjual
  }

  /** The five groups of largest sum out of `groups`, largest first. */
  function TopFive(groups: seq<Group>): (r: seq<Group>)
    ensures |r| == if |groups| <= 5 then |groups| else 5
    ensures forall i, j :: 0 <= i < j < |r| ==> r[i].terjual >= r[j].terjual
    ensures multiset(r) <= multiset(groups)
  {
    var r := Lowest(groups, MostSold, 5);
    forall i, j | 0 <= i < j < |r| ensures r[i].terjual >= r[j].terjual {
      assert MostSold(r[i]) <= MostSold(r[j]);
    }
    r
  }

  /** No group left out of the five sold more than a group taken. */
  lemma TopFiveTakesLargest(groups: seq<Group>, g: Group)
    requires g in groups && g !in TopFive(groups)
    ensures forall i :: 0 <= i < |TopFive(groups)| ==> g.terjual <= TopFive(groups)[i].terjual
  {
    var r := TopFive(groups);
    LowestLeavesLarger(groups, MostSold, 5, g);
    forall i | 0 <= i < |r| ensures g.terjual <= r[i].terjual {
      assert MostSold(r[i]) <= MostSold(g);
    }
  }

  /** The best-seller query: `groupBy`, `orderBy` the sum descending, `take: 5`. */
  function BestSellers(detail: seq<DetailTransaksi>): (r: seq<Group>)
    ensures |r| == if |Groups(detail)| <= 5 then |Groups(detail)| else 5
    ensures forall i, j :: 0 <= i < j < |r| ==> r[i].terjual >= r[j].terjual
    ensures multiset(r) <= multiset(Groups(detail))
  {
    TopFive(Groups(detail))
  }

  /** A best-seller row: the product's name and its summed subtotal. */
  datatype TopRow = TopRow(nama: string, terjual: real)

  /** `findUnique` on the product table listing. */
  function FindProduk(produk: seq<Produk>, id: int): (r: Option<Produk>)
    ensures r.Some? ==> r.value in produk && r.value.id == id
    ensures r.None? <==> forall p :: p in produk ==> p.id != id
    decreases |produk|
  {
    if produk == [] then None
    else if produk[0].id == id then Some(produk[0])
    else FindProduk(produk[1..], id)
  }

  /** The name shown for a best seller: the product's name, or
      "Produk Dihapus" when the product is gone or has an empty name. */
  function NamaTerlaris(produk: seq<Produk>, id: int): (s: string)
    ensures s != ""
    ensures FindProduk(produk, id).None? ==> s == "Produk Dihapus"
    ensures FindProduk(produk, id).Some? && FindProduk(produk, id).value.nama != "" ==>
      s == FindProduk(produk, id).value.nama
  {
    match FindProduk(produk, id)
    case Some(p) => if p.nama != "" then p.nama else "Produk Dihapus"
    case None => "Produk Dihapus"
  }

  /** A low-stock row: the product's name and stock. */
  datatype LowRow = LowRow(nama: string, stok: int)

  /** The five products with the least stock, least first. */
  function LowestStok(produk: seq<Produk>): (r: seq<Produk>)
    ensures |r| == if |produk| <= 5 then |produk| else 5
    ensures forall i, j :: 0 <= i < j < |r| ==> r[i].stok <= r[j].stok
    ensures multiset(r) <= multiset(produk)
  {
    var r := Lowest(produk, ByStok, 5);
    StokOrdered(r);
    r
  }

  /** No product left out of the five has less stock than a product taken. */
  lemma LowestStokTakesLeast(produk: seq<Produk>, p: Produk)
    requires p in produk && p !in LowestStok(produk)
    ensures forall i :: 0 <= i < |LowestStok(produk)| ==> LowestStok(produk)[i].stok <= p.stok
  {
    var r := LowestStok(produk);
    LowestLeavesLarger(produk, ByStok, 5, p);
    forall i | 0 <= i < |r| ensures r[i].stok <= p.stok {
      assert ByStok(r[i]) <= ByStok(p);
    }
  }

  /** `stok_menipis`: the name and stock of the five products with the
      least stock, least first. */
  function LowStock(produk: seq<Produk>): (r: seq<LowRow>)
    ensures |r| == if |produk| <= 5 then |produk| else 5
    ensures forall i, j :: 0 <= i < j < |r| ==> r[i].stok <= r[j].stok
  {
    var low := LowestStok(produk);
    seq(|low|, i requires 0 <= i < |low| => LowRow(low[i].nama, low[i].stok))
  }

  /** Each low-stock row names a product of the table and its stock. */
  lemma LowRowDescribesProduk(produk: seq<Produk>, i: nat)
    requires i < |LowStock(produk)|
    ensures exists p :: p in produk && LowStock(produk)[i] == LowRow(p.nama, p.stok)
  {
    var low := LowestStok(produk);
    assert low[i] in multiset(produk);
    assert LowStock(produk)[i] == LowRow(low[i].nama, low[i].stok);
  }

  datatype Dashboard = Dashboard(
    totalPenjualan: nat, totalOmset: real, totalDiskon: real,
    produkTerlaris: seq<TopRow>, stokMenipis: seq<LowRow>)

  /** `getDashboardAdmin`. */
  function GetDashboardAdmin(transaksi: seq<Transaksi>, detail: seq<DetailTransaksi>, produk: seq<Produk>): (r: Dashboard)
    ensures r.totalPenjualan == |transaksi|
    ensures r.totalOmset == SumBy(transaksi, TotalOf)
    ensures r.totalDiskon == SumBy(detail, SubTotalOf) - SumBy(transaksi, TotalOf)
    ensures |r.produkTerlaris| == |BestSellers(detail)| <= 5
    ensures forall i :: 0 <= i < |r.produkTerlaris| ==>
      r.produkTerlaris[i] == TopRow(NamaTerlaris(produk, BestSellers(detail)[i].produkId), BestSellers(detail)[i].terjual)
    ensures r.stokMenipis == LowStock(produk)
  {
    var best := BestSellers(detail);
    var top := seq(|best|, i requires 0 <= i < |best| => TopRow(NamaTerlaris(produk, best[i].produkId), best[i].terjual));
    Dashboard(|transaksi|, TotalOmset(transaksi), TotalDiskon(transaksi, detail), top, LowStock(produk))
  }
}
