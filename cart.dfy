/** The till page of the dashboard: the cart a cashier fills from the
    catalogue, the total it estimates, the request it sends at checkout and
    the catalogue filter. Every operation returns a new cart, as the page's
    state setters do. */
module Cart {
  import opened Common
  import opened Schema
  import Transaksi
  import opened Sorting

  /** A cart line: a copy of the product as it was when first added, and a
      quantity. */
  datatype CartItem = CartItem(product: Produk, qty: int)

  predicate UniqueIds(cart: seq<CartItem>) {
    forall i, j :: 0 <= i < j < |cart| ==> cart[i].product.id != cart[j].product.id
  }

  predicate PositiveQty(cart: seq<CartItem>) {
    forall i :: 0 <= i < |cart| ==> cart[i].qty >= 1
  }

  /** The invariant of the cart: one line per product, each with at least one unit. */
  predicate WellFormed(cart: seq<CartItem>) {
    UniqueIds(cart) && PositiveQty(cart)
  }

  /** `find`: the index of the first line for product `id`. */
  function Find(cart: seq<CartItem>, id: int): (r: Option<nat>)
    ensures r.Some? ==> r.value < |cart| && cart[r.value].product.id == id
    ensures r.Some? ==> forall j :: 0 <= j < r.value ==> cart[j].product.id != id
    ensures r.None? <==> forall j :: 0 <= j < |cart| ==> cart[j].product.id != id
    decreases |cart|
  {
    if cart == [] then None
    else if cart[0].product.id == id then Some(0)
    else match Find(cart[1..], id)
      case None => None
      case Some(k) => Some(k + 1)
  }

  /** The `map` that adds one unit to every line for product `id`. */
  function Bump(cart: seq<CartItem>, id: int): (r: seq<CartItem>)
    ensures |r| == |cart|
    ensures forall i :: 0 <= i < |cart| ==>
      r[i] == if cart[i].product.id == id then cart[i].(qty := cart[i].qty + 1) else cart[i]
  {
    seq(|cart|, i requires 0 <= i < |cart| =>
      if cart[i].product.id == id then cart[i].(qty := cart[i].qty + 1) else cart[i])
  }

  /** `addToCart`: a product out of stock is refused; a product already in
      the cart gets one more unit unless its line already holds the
      product's whole stock; any other product is appended with one unit. */
  function AddToCart(cart: seq<CartItem>, p: Produk): (r: seq<CartItem>)
    ensures p.stok <= 0 ==> r == cart
    ensures p.stok > 0 && Find(cart, p.id).None? ==> r == cart + [CartItem(p, 1)]
    ensures p.stok > 0 && Find(cart, p.id).Some? ==>
      var k := Find(cart, p.id).value;
      && |r| == |cart|
      && (cart[k].qty >= p.stok ==> r == cart)
      && (cart[k].qty < p.stok && UniqueIds(cart) ==>
            r == cart[k := cart[k].(qty := cart[k].qty + 1)])
  {
    if p.stok <= 0 then cart
    else match Find(cart, p.id)
      case Some(k) =>
        if cart[k].qty >= p.stok then cart
        else
          var r := Bump(cart, p.id);
          assert UniqueIds(cart) ==> r == cart[k := cart[k].(qty := cart[k].qty + 1)];
          r
      case None => cart + [CartItem(p, 1)]
  }

  /** Adding keeps the cart's invariant: the line added has a product no
      other line has and one unit, and a bumped line only gains a unit. */
  lemma AddPreservesWellFormed(cart: seq<CartItem>, p: Produk)
    requires WellFormed(cart)
    ensures WellFormed(AddToCart(cart, p))
  {
    var r := AddToCart(cart, p);
    if p.stok > 0 {
      match Find(cart, p.id)
      case None =>
        assert r == cart + [CartItem(p, 1)];
        forall i, j | 0 <= i < j < |r| ensures r[i].product.id != r[j].product.id {
          assert r[i] == cart[i];
        }
      case Some(k) =>
        if cart[k].qty < p.stok {
          assert r == Bump(cart, p.id);
          forall i | 0 <= i < |r| ensures r[i].product == cart[i].product && r[i].qty >= cart[i].qty {
          }
        }
    }
  }

  /** `updateQty`: the lines for product `id` move by `delta` when the new
      quantity stays between 1 and the stock copied into the line; every
      other line, and every move outside those bounds, is left as it was. */
  function UpdateQty(cart: seq<CartItem>, id: int, delta: int): (r: seq<CartItem>)
    ensures |r| == |cart|
    ensures forall i :: 0 <= i < |cart| && cart[i].product.id != id ==> r[i] == cart[i]
    ensures forall i :: 0 <= i < |cart| && cart[i].product.id == id ==>
      && r[i].product == cart[i].product
      && r[i].qty == (if 1 <= cart[i].qty + delta <= cart[i].product.stok then cart[i].qty + delta else cart[i].qty)
    ensures WellFormed(cart) ==> WellFormed(r)
  {
    seq(|cart|, i requires 0 <= i < |cart| =>
      var item := cart[i];
      if item.product.id == id then
        var newQty := item.qty + delta;
        if newQty > item.product.stok then item
        else if newQty < 1 then item
        else item.(qty := newQty)
      else item)
  }

  /** `removeItem`: the `filter` that drops the lines for product `id`. */
  function RemoveItem(cart: seq<CartItem>, id: int): (r: seq<CartItem>)
    ensures |r| <= |cart|
    decreases |cart|
  {
    if cart == [] then []
    else
      var rest := RemoveItem(cart[..|cart| - 1], id);
      var last := cart[|cart| - 1];
      if last.product.id == id then rest else rest + [last]
  }

  /** The lines kept are exactly the lines of the other products. */
  lemma {:induction false} RemoveItemMembers(cart: seq<CartItem>, id: int)
    ensures forall x :: x in RemoveItem(cart, id) <==> x in cart && x.product.id != id
    decreases |cart|
  {
    if cart != [] {
      var prefix := cart[..|cart| - 1];
      RemoveItemMembers(prefix, id);
      assert cart == prefix + [cart[|cart| - 1]];
    }
  }

  /** Removing keeps the cart's invariant. */
  lemma {:induction false} RemovePreservesWellFormed(cart: seq<CartItem>, id: int)
    requires WellFormed(cart)
    ensures WellFormed(RemoveItem(cart, id))
    decreases |cart|
  {
    if cart != [] {
      var prefix := cart[..|cart| - 1];
      var last := cart[|cart| - 1];
      assert WellFormed(prefix) by {
        forall i, j | 0 <= i < j < |prefix| ensures prefix[i].product.id != prefix[j].product.id {
          assert prefix[i] == cart[i] && prefix[j] == cart[j];
        }
      }
      RemovePreservesWellFormed(prefix, id);
      RemoveItemMembers(prefix, id);
      var rest := RemoveItem(prefix, id);
      if last.product.id != id {
        forall x | x in rest ensures x.product.id != last.product.id {
          var j :| 0 <= j < |prefix| && prefix[j] == x;
          assert cart[j] == x;
        }
        forall i, j | 0 <= i < j < |rest + [last]|
          ensures (rest + [last])[i].product.id != (rest + [last])[j].product.id
        {
          if j == |rest| {
            assert (rest + [last])[i] in rest;
          }
        }
      }
    }
  }

  /** Removing keeps the surviving lines in their order: removing from a
      concatenation concatenates what survives of each part. */
  lemma {:induction false} RemoveItemAppend(a: seq<CartItem>, b: seq<CartItem>, id: int)
    ensures RemoveItem(a + b, id) == RemoveItem(a, id) + RemoveItem(b, id)
    decreases |b|
  {
    if b == [] {
      assert a + b == a;
    } else {
      var b' := b[..|b| - 1];
      assert (a + b)[..|a + b| - 1] == a + b';
      RemoveItemAppend(a, b', id);
    }
  }

  /** Removing a product the cart does not hold changes nothing. */
  lemma {:induction false} RemoveAbsent(cart: seq<CartItem>, id: int)
    requires forall j :: 0 <= j < |cart| ==> cart[j].product.id != id
    ensures RemoveItem(cart, id) == cart
    decreases |cart|
  {
    if cart != [] {
      var prefix := cart[..|cart| - 1];
      var last := cart[|cart| - 1];
      assert forall j :: 0 <= j < |prefix| ==> prefix[j] == cart[j];
      RemoveAbsent(prefix, id);
      assert last.product.id != id;
      assert RemoveItem(cart, id) == RemoveItem(prefix, id) + [last];
      assert prefix + [last] == cart;
    }
  }

  /** In a cart with one line per product, removing a product drops exactly
      its line. */
  lemma {:induction false} RemoveSingle(cart: seq<CartItem>, k: nat)
    requires UniqueIds(cart) && k < |cart|
    ensures RemoveItem(cart, cart[k].product.id) == cart[..k] + cart[k + 1..]
    decreases |cart|
  {
    var n := |cart|;
    var prefix := cart[..n - 1];
    var last := cart[n - 1];
    PrefixUnique(cart);
    if k == n - 1 {
      RemoveAbsent(prefix, cart[k].product.id);
      assert cart[k + 1..] == [];
    } else {
      assert prefix[k] == cart[k];
      RemoveSingle(prefix, k);
      assert last.product.id != cart[k].product.id;
      assert RemoveItem(cart, cart[k].product.id) == RemoveItem(prefix, cart[k].product.id) + [last];
      assert prefix[..k] == cart[..k];
      assert prefix[k + 1..] + [last] == cart[k + 1..];
    }
  }

  /** Dropping the last line keeps the ids unique, and no remaining line
      shares the last line's id. */
  lemma PrefixUnique(cart: seq<CartItem>)
    requires UniqueIds(cart) && cart != []
    ensures UniqueIds(cart[..|cart| - 1])
    ensures forall j :: 0 <= j < |cart| - 1 ==> cart[j].product.id != cart[|cart| - 1].product.id
  {
    var prefix := cart[..|cart| - 1];
    forall i, j | 0 <= i < j < |prefix| ensures prefix[i].product.id != prefix[j].product.id {
      assert prefix[i] == cart[i] && prefix[j] == cart[j];
    }
  }

  // ---------------------------------------------------------------------
  // The estimate

  function LineTotal(c: CartItem): real {
    c.product.harga * c.qty as real
  }

  /** `subtotal`: the sum of price times quantity over the lines. */
  function Subtotal(cart: seq<CartItem>): real {
    SumBy(cart, LineTotal)
  }

  /** Adding to the cart raises the subtotal by one unit's price: the new
      product's price for a new line, the price copied into the line for an
      existing one. */
  lemma SubtotalAfterAdd(cart: seq<CartItem>, p: Produk)
    requires WellFormed(cart)
    ensures AddToCart(cart, p) != cart ==>
      Subtotal(AddToCart(cart, p)) == Subtotal(cart) +
        (match Find(cart, p.id) case None => p.harga case Some(k) => cart[k].product.harga)
  {
    var r := AddToCart(cart, p);
    if r != cart {
      assert p.stok > 0;
      match Find(cart, p.id)
      case None =>
        assert r == cart + [CartItem(p, 1)];
        SubtotalAppend(cart, CartItem(p, 1));
      case Some(k) =>
        assert r == cart[k := cart[k].(qty := cart[k].qty + 1)];
        SubtotalBump(cart, k);
    }
  }

  /** A new line adds its total to the subtotal. */
  lemma SubtotalAppend(cart: seq<CartItem>, c: CartItem)
    ensures Subtotal(cart + [c]) == Subtotal(cart) + LineTotal(c)
  {
    SumByAppend(cart, [c], LineTotal);
    SumBySingle(c, LineTotal);
  }

  /** One more unit on line `k` adds that line's price to the subtotal. */
  lemma SubtotalBump(cart: seq<CartItem>, k: nat)
    requires k < |cart|
    ensures Subtotal(cart[k := cart[k].(qty := cart[k].qty + 1)]) == Subtotal(cart) + cart[k].product.harga
  {
    SumByUpdate(cart, k, cart[k].(qty := cart[k].qty + 1), LineTotal);
    assert LineTotal(cart[k].(qty := cart[k].qty + 1)) == LineTotal(cart[k]) + cart[k].product.harga;
  }

  /** Removing a product takes its line's total off the subtotal. */
  lemma SubtotalAfterRemove(cart: seq<CartItem>, k: nat)
    requires WellFormed(cart) && k < |cart|
    ensures Subtotal(RemoveItem(cart, cart[k].product.id)) == Subtotal(cart) - LineTotal(cart[k])
  {
    RemoveSingle(cart, k);
    SumByRemove(cart, k, LineTotal);
  }

  /** `diskons.find`: the first voucher with the given id. */
  function FindDiskon(diskons: seq<Diskon>, id: int): (r: Option<Diskon>)
    ensures r.Some? ==> r.value in diskons && r.value.id == id
    ensures r.None? <==> forall j :: 0 <= j < |diskons| ==> diskons[j].id != id
    decreases |diskons|
  {
    if diskons == [] then None
    else if diskons[0].id == id then Some(diskons[0])
    else FindDiskon(diskons[1..], id)
  }

  /** `diskonVal`: the selected voucher's percentage of the subtotal, or 0
      when no voucher is selected or the selected one is not listed. */
  function DiskonVal(subtotal: real, diskons: seq<Diskon>, selected: Option<int>): real {
    if selected.None? then 0.0
    else match FindDiskon(diskons, selected.value)
      case None => 0.0
      case Some(d) => (subtotal * d.persen as real) / 100.0
  }

  /** `grandTotal`: the subtotal less the voucher estimate, never below 0. */
  function GrandTotal(cart: seq<CartItem>, diskons: seq<Diskon>, selected: Option<int>): (r: real)
    ensures 0.0 <= r
    ensures r >= Subtotal(cart) - DiskonVal(Subtotal(cart), diskons, selected)
    ensures r == 0.0 || r == Subtotal(cart) - DiskonVal(Subtotal(cart), diskons, selected)
    ensures selected.None? && 0.0 <= Subtotal(cart) ==> r == Subtotal(cart)
  {
    var s := Subtotal(cart);
    var g := s - DiskonVal(s, diskons, selected);
    if g < 0.0 then 0.0 else g
  }

  /** Without a member and with the voucher's minimum reached, the estimate
      is the total the back end computes. */
  lemma EstimateAgreesWhenMinimumMet(cart: seq<CartItem>, diskons: seq<Diskon>, id: int)
    requires FindDiskon(diskons, id).Some?
    requires 0.0 <= Subtotal(cart)
    requires var d := FindDiskon(diskons, id).value;
      0 <= d.persen <= 100 && Subtotal(cart) >= d.minTransaksi as real
    ensures GrandTotal(cart, diskons, Some(id)) ==
      Transaksi.FinalTotal(Subtotal(cart), false, FindDiskon(diskons, id))
  {
    var s := Subtotal(cart);
    var d := FindDiskon(diskons, id).value;
    PercentOf(s, d.persen);
    assert DiskonVal(s, diskons, Some(id)) == s * (d.persen as real / 100.0);
    assert Transaksi.FinalTotal(s, false, Some(d)) == s - s * (d.persen as real / 100.0);
  }

  /** `persen`% of a non-negative amount, computed either way round, lies
      between 0 and the amount. */
  lemma PercentOf(s: real, persen: int)
    requires 0.0 <= s && 0 <= persen <= 100
    ensures (s * persen as real) / 100.0 == s * (persen as real / 100.0)
    ensures 0.0 <= s * (persen as real / 100.0) <= s
  {
    Transaksi.ScaledWithin(s, persen as real / 100.0);
  }

  /** The estimate ignores the voucher's minimum: below it, with a positive
      percentage, the back end charges the whole subtotal, more than the
      estimate the page sends as payment, so the checkout is refused for
      underpayment. */
  lemma EstimateIgnoresMinimum(cart: seq<CartItem>, diskons: seq<Diskon>, id: int)
    requires FindDiskon(diskons, id).Some?
    requires 0.0 < Subtotal(cart)
    requires var d := FindDiskon(diskons, id).value;
      0 < d.persen && Subtotal(cart) < d.minTransaksi as real
    ensures GrandTotal(cart, diskons, Some(id)) <
      Transaksi.FinalTotal(Subtotal(cart), false, FindDiskon(diskons, id))
  {
    var s := Subtotal(cart);
    var d := FindDiskon(diskons, id).value;
    PositivePercent(s, d.persen);
    assert DiskonVal(s, diskons, Some(id)) == (s * d.persen as real) / 100.0;
    assert GrandTotal(cart, diskons, Some(id)) < s;
    assert Transaksi.FinalTotal(s, false, Some(d)) == s;
  }

  /** A positive percentage of a positive amount is positive. */
  lemma PositivePercent(s: real, persen: int)
    requires 0.0 < s && 0 < persen
    ensures 0.0 < (s * persen as real) / 100.0
  {
    assert 0.0 < s * persen as real;
  }

  /** The estimate ignores the member discount: with a member, a voucher
      whose minimum is met and a percentage of at most 100, paying the
      estimate leaves exactly 5% of it as change. */
  lemma EstimateIgnoresMember(cart: seq<CartItem>, diskons: seq<Diskon>, id: int)
    requires FindDiskon(diskons, id).Some?
    requires 0.0 <= Subtotal(cart)
    requires var d := FindDiskon(diskons, id).value;
      0 <= d.persen <= 100 && Subtotal(cart) >= d.minTransaksi as real
    ensures var estimate := GrandTotal(cart, diskons, Some(id));
      estimate - Transaksi.FinalTotal(Subtotal(cart), true, FindDiskon(diskons, id)) == estimate * 0.05
  {
    var s := Subtotal(cart);
    var d := FindDiskon(diskons, id).value;
    var q := d.persen as real / 100.0;
    PercentOf(s, d.persen);
    assert DiskonVal(s, diskons, Some(id)) == s * q;
    MemberThenVoucher(s, q);
    assert Transaksi.FinalTotal(s, true, Some(d)) == (s - s * 0.05) - (s - s * 0.05) * q;
  }

  /** Taking 5% and then a fraction `q` of the rest is taking `q` and then
      5% of the rest. */
  lemma MemberThenVoucher(s: real, q: real)
    ensures (s - s * 0.05) - (s - s * 0.05) * q == (s - s * q) * 0.95
  {
  }

  /** When the back end prices the cart's lines at the prices copied into
      the cart, its gross total is the page's subtotal. */
  lemma {:induction false} SubtotalIsGross(cart: seq<CartItem>, produk: map<int, Produk>)
    requires Transaksi.Lines(produk, ItemsOf(cart)).Ok?
    requires forall i :: 0 <= i < |cart| ==> produk[cart[i].product.id].harga == cart[i].product.harga
    ensures Transaksi.Gross(Transaksi.Lines(produk, ItemsOf(cart)).value) == Subtotal(cart)
    decreases |cart|
  {
    var items := ItemsOf(cart);
    if cart != [] {
      var n := |cart|;
      var prefix := cart[..n - 1];
      assert ItemsOf(prefix) == items[..n - 1];
      Transaksi.LinesPrefix(produk, items);
      SubtotalIsGross(prefix, produk);
      var lines := Transaksi.Lines(produk, items).value;
      assert lines[..n - 1] == Transaksi.Lines(produk, items[..n - 1]).value;
      assert Transaksi.LineSubTotal(lines[n - 1]) == LineTotal(cart[n - 1]);
    }
  }

  // ---------------------------------------------------------------------
  // The checkout request

  /** The items the back end would need for this cart: product id and quantity. */
  function ItemsOf(cart: seq<CartItem>): (items: seq<Transaksi.Item>)
    ensures |items| == |cart|
    ensures forall i :: 0 <= i < |cart| ==> items[i] == Transaksi.Item(cart[i].product.id, cart[i].qty)
  {
    seq(|cart|, i requires 0 <= i < |cart| => Transaksi.Item(cart[i].product.id, cart[i].qty))
  }

  /** The request body `handleCheckout` posts. Each line is a JSON object. */
  datatype Payload = Payload(memberId: Option<int>, diskonId: Option<int>, items: seq<map<string, int>>, bayar: real)

  function PayloadLine(c: CartItem): map<string, int> {
    map["produkId" := c.product.id, "qty" := c.qty]
  }

  /** `handleCheckout`: nothing is sent for an empty cart; otherwise the
      lines go as `{produkId, qty}` objects and the estimate as payment. */
  function CheckoutPayload(cart: seq<CartItem>, selectedMember: Option<int>, selectedDiskon: Option<int>,
                           diskons: seq<Diskon>): (r: Option<Payload>)
    ensures r.None? <==> cart == []
    ensures r.Some? ==> r.value.memberId == selectedMember && r.value.diskonId == selectedDiskon
    ensures r.Some? ==> |r.value.items| == |cart| && r.value.bayar == GrandTotal(cart, diskons, selectedDiskon)
    ensures r.Some? ==> forall i :: 0 <= i < |cart| ==>
      r.value.items[i] == map["produkId" := cart[i].product.id, "qty" := cart[i].qty]
  {
    if cart == [] then None
    else Some(Payload(selectedMember, selectedDiskon,
                      seq(|cart|, i requires 0 <= i < |cart| => PayloadLine(cart[i])),
                      GrandTotal(cart, diskons, selectedDiskon)))
  }

  /** The page names the keys `produkId` and `qty` where the back end reads
      `id` and `quantity`: the back end finds neither key in any line sent. */
  lemma PayloadKeysMismatch(cart: seq<CartItem>, selectedMember: Option<int>, selectedDiskon: Option<int>,
                            diskons: seq<Diskon>)
    requires cart != []
    ensures var p := CheckoutPayload(cart, selectedMember, selectedDiskon, diskons).value;
      forall i :: 0 <= i < |p.items| ==> Transaksi.ReadItem(p.items[i]).None?
  {
    var p := CheckoutPayload(cart, selectedMember, selectedDiskon, diskons).value;
    forall i | 0 <= i < |p.items| ensures Transaksi.ReadItem(p.items[i]).None? {
      assert p.items[i] == PayloadLine(cart[i]);
      assert p.items[i].Keys == {"produkId", "qty"};
      assert "id" != "produkId" && "id" != "qty";
    }
  }

  /** The request body the back end reads from a payload of the page, with
      `items` being however its lines are read: the payload has no
      `kasirId`, so that field is absent. */
  function RequestOf(p: Payload, items: seq<Transaksi.Item>): (req: Transaksi.CheckoutRequest)
    ensures req.kasirId.None?
    ensures req.items == Some(items) && req.bayar == p.bayar
    ensures req.memberId == p.memberId && req.diskonId == p.diskonId
  {
    Transaksi.CheckoutRequest(Some(items), p.memberId, p.diskonId, p.bayar, None)
  }

  /** No checkout sent by the page succeeds: whatever its lines are read as,
      the request carries no cashier, so it is refused and no table changes. */
  lemma TillCheckoutRefused(cart: seq<CartItem>, selectedMember: Option<int>, selectedDiskon: Option<int>,
                            diskons: seq<Diskon>, items: seq<Transaksi.Item>, db: Transaksi.Db, now: int)
    requires cart != []
    ensures var req := RequestOf(CheckoutPayload(cart, selectedMember, selectedDiskon, diskons).value, items);
      Transaksi.Checkout(db, req, now).1.Refused? && Transaksi.Checkout(db, req, now).0 == db
  {
    var req := RequestOf(CheckoutPayload(cart, selectedMember, selectedDiskon, diskons).value, items);
    Transaksi.CheckoutSucceeds(db, req, now);
  }

  // ---------------------------------------------------------------------
  // The catalogue filter

  function LowerChar(c: char): char {
    if 'A' <= c <= 'Z' then (c as int + 32) as char else c
  }

  /** `toLowerCase`, for the letters A to Z only; other characters are
      kept as they are. */
  function Lower(s: string): (r: string)
    ensures |r| == |s|
    ensures forall i :: 0 <= i < |s| ==> r[i] == LowerChar(s[i])
  {
    seq(|s|, i requires 0 <= i < |s| => LowerChar(s[i]))
  }

  /** `includes`: `needle` occurs somewhere in `hay`. */
  predicate Contains(hay: string, needle: string)
    decreases |hay|
  {
    needle <= hay || (hay != [] && Contains(hay[1..], needle))
  }

  /** Every text contains the empty text, so an empty search hides nothing. */
  lemma ContainsEmpty(hay: string)
    ensures Contains(hay, "")
  {
  }

  /** `needle` occurs in `hay` starting at position `i`. */
  predicate OccursAt(hay: string, needle: string, i: int) {
    0 <= i <= |hay| - |needle| && needle <= hay[i..]
  }

  /** An occurrence in the text after the first character is an occurrence
      one position later in the whole text. */
  lemma OccursShift(hay: string, needle: string, i: int)
    requires hay != [] && 0 <= i
    ensures OccursAt(hay[1..], needle, i) <==> OccursAt(hay, needle, i + 1)
  {
    if 0 <= i <= |hay| - 1 {
      assert hay[1..][i..] == hay[i + 1..];
    }
  }

  /** `includes` finds exactly the texts that occur at some position. */
  lemma {:induction false} ContainsAt(hay: string, needle: string)
    ensures Contains(hay, needle) <==> exists i :: OccursAt(hay, needle, i)
    decreases |hay|
  {
    if needle <= hay {
      assert hay[0..] == hay;
      assert OccursAt(hay, needle, 0);
    } else if hay != [] {
      ContainsAt(hay[1..], needle);
      if i :| OccursAt(hay, needle, i) {
        assert i != 0;
        OccursShift(hay, needle, i - 1);
      }
      if i :| OccursAt(hay[1..], needle, i) {
        OccursShift(hay, needle, i);
      }
    } else {
      assert forall i :: !OccursAt(hay, needle, i);
    }
  }

  /** A product is shown when its lowercased name contains the lowercased
      search text and it is in the selected category (0 selects all). */
  predicate Shown(p: Produk, search: string, kategori: int) {
    Contains(Lower(p.nama), Lower(search)) && (kategori == 0 || p.kategoriId == kategori)
  }

  /** `filteredProducts`: the catalogue rows shown, in catalogue order. */
  function FilteredProducts(products: seq<Produk>, search: string, kategori: int): (r: seq<Produk>)
    ensures forall x :: x in r <==> x in products && Shown(x, search, kategori)
    ensures forall i :: 0 <= i < |r| ==> Shown(r[i], search, kategori)
    ensures |r| <= |products|
  {
    Where(products, p => Shown(p, search, kategori))
  }

  /** An empty search with no category selected shows the whole catalogue. */
  lemma {:induction false} EmptyFilterShowsAll(products: seq<Produk>)
    ensures FilteredProducts(products, "", 0) == products
    decreases |products|
  {
    if products != [] {
      var prefix := products[..|products| - 1];
      EmptyFilterShowsAll(prefix);
      ContainsEmpty(Lower(products[|products| - 1].nama));
      assert products == prefix + [products[|products| - 1]];
    }
  }
}
