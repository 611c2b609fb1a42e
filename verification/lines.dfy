/** Cart lines: merging an added item into a cart, the quantity a cart asks of
    each product, and the cart total computed from current catalogue prices. */
module Lines {
  import opened Entities
  import opened Catalog

  predicate HasLine(lines: seq<CartItem>, id: int) {
    exists i :: 0 <= i < |lines| && lines[i].productId == id
  }

  /** At most one line per product id. */
  predicate DistinctLines(lines: seq<CartItem>) {
    forall i, j :: 0 <= i < j < |lines| ==> lines[i].productId != lines[j].productId
  }

  /** Every line names a product the catalogue holds, so the cart can be priced. */
  predicate AllPriced(ps: seq<Product>, lines: seq<CartItem>) {
    forall i :: 0 <= i < |lines| ==> HasProduct(ps, lines[i].productId)
  }

  /** Total quantity the lines request of product `id`. */
  function Qty(lines: seq<CartItem>, id: int): int {
    if |lines| == 0 then 0
    else (if lines[0].productId == id then lines[0].quantity else 0) + Qty(lines[1..], id)
  }

  /** One pass over the lines adding `item`'s quantity to each line of the same
      product; the pass does not stop at the first match. */
  function Bump(lines: seq<CartItem>, item: CartItem): (r: seq<CartItem>)
    ensures |r| == |lines|
    ensures forall i :: 0 <= i < |lines| ==>
              r[i] == (if lines[i].productId == item.productId
                       then CartItem(item.productId, lines[i].quantity + item.quantity)
                       else lines[i])
  {
    if |lines| == 0 then []
    else
      var head := if lines[0].productId == item.productId
                  then CartItem(item.productId, lines[0].quantity + item.quantity)
                  else lines[0];
      [head] + Bump(lines[1..], item)
  }

  /** Adds `item` to a cart's lines: a line already holding the product keeps
      its place and grows by the added quantity; otherwise the item goes last. */
  function Merge(lines: seq<CartItem>, item: CartItem): (r: seq<CartItem>)
    ensures HasLine(lines, item.productId) ==> |r| == |lines|
    ensures !HasLine(lines, item.productId) ==> |r| == |lines| + 1 && r[|lines|] == item
    ensures forall i :: 0 <= i < |lines| ==>
              r[i] == (if lines[i].productId == item.productId
                       then CartItem(item.productId, lines[i].quantity + item.quantity)
                       else lines[i])
  {
    if HasLine(lines, item.productId) then Bump(lines, item) else lines + [item]
  }

  /** The cached cart total: the sum over the lines of the current price of the
      first product with the line's id times the line's quantity. It is None
      exactly when some line names no product (the source's bare `next` raises). */
  function CartTotal(ps: seq<Product>, lines: seq<CartItem>): (r: Option<Cents>)
    ensures r.Some? <==> AllPriced(ps, lines)
  {
    if |lines| == 0 then Some(0)
    else
      match FindProduct(ps, lines[0].productId)
      case None => None
      case Some(j) =>
        assert forall i :: 1 <= i < |lines| ==> lines[i] == lines[1..][i - 1];
        match CartTotal(ps, lines[1..])
        case None => None
        case Some(t) => Some(ps[j].price * lines[0].quantity + t)
  }

  /** The catalogue-side value of some lines: each product's price times the
      quantity the lines request of it. An independent reading of a cart total. */
  function Valuation(ps: seq<Product>, lines: seq<CartItem>): int {
    if |ps| == 0 then 0
    else ps[0].price * Qty(lines, ps[0].id) + Valuation(ps[1..], lines)
  }

  lemma {:induction false} QtyAppend(a: seq<CartItem>, b: seq<CartItem>, id: int)
    ensures Qty(a + b, id) == Qty(a, id) + Qty(b, id)
    decreases |a|
  {
    if |a| > 0 {
      assert (a + b)[1..] == a[1..] + b;
      QtyAppend(a[1..], b, id);
    } else {
      assert a + b == b;
    }
  }

  lemma {:induction false} QtyAbsent(lines: seq<CartItem>, id: int)
    requires !HasLine(lines, id)
    ensures Qty(lines, id) == 0
    decreases |lines|
  {
    if |lines| > 0 {
      assert !HasLine(lines[1..], id);
      QtyAbsent(lines[1..], id);
    }
  }

  /** With one line per product, bumping adds the item's quantity to that
      product's requested quantity when it has a line, and changes nothing else. */
  lemma {:induction false} QtyBump(lines: seq<CartItem>, item: CartItem, id: int)
    requires DistinctLines(lines)
    ensures Qty(Bump(lines, item), id)
            == Qty(lines, id) + (if id == item.productId && HasLine(lines, id) then item.quantity else 0)
    decreases |lines|
  {
    if |lines| > 0 {
      var t := lines[1..];
      assert Bump(lines, item)[1..] == Bump(t, item);
      assert DistinctLines(t) by {
        forall i, j | 0 <= i < j < |t| ensures t[i].productId != t[j].productId {
          assert t[i] == lines[i + 1] && t[j] == lines[j + 1];
        }
      }
      QtyBump(t, item, id);
      assert HasLine(lines, id) <==> lines[0].productId == id || HasLine(t, id) by {
        if HasLine(lines, id) && lines[0].productId != id {
          var i :| 0 <= i < |lines| && lines[i].productId == id;
          assert t[i - 1].productId == id;
        }
        if HasLine(t, id) {
          var i :| 0 <= i < |t| && t[i].productId == id;
          assert lines[i + 1].productId == id;
        }
      }
      if lines[0].productId == item.productId {
        assert !HasLine(t, item.productId);
      }
    }
  }

  /** Merging conserves quantity: the added product's requested quantity grows
      by exactly the added amount and every other product's stays the same. */
  lemma MergeConservesQuantity(lines: seq<CartItem>, item: CartItem, id: int)
    requires DistinctLines(lines)
    ensures Qty(Merge(lines, item), id)
            == Qty(lines, id) + (if id == item.productId then item.quantity else 0)
  {
    if HasLine(lines, item.productId) {
      QtyBump(lines, item, id);
    } else {
      QtyAppend(lines, [item], id);
      assert [item][1..] == [];
    }
  }

  /** Merging keeps one line per product, and leaves exactly one line for the added product. */
  lemma MergeKeepsLinesDistinct(lines: seq<CartItem>, item: CartItem)
    requires DistinctLines(lines)
    ensures DistinctLines(Merge(lines, item))
    ensures HasLine(Merge(lines, item), item.productId)
  {
    var r := Merge(lines, item);
    if !HasLine(lines, item.productId) {
      assert r[|lines|].productId == item.productId;
    } else {
      var i :| 0 <= i < |lines| && lines[i].productId == item.productId;
      assert r[i].productId == item.productId;
    }
  }

  /** Adding a product twice to a cart that lacks it yields one line with the summed quantity. */
  lemma MergeTwice(lines: seq<CartItem>, id: int, q1: int, q2: int)
    requires !HasLine(lines, id)
    ensures Merge(Merge(lines, CartItem(id, q1)), CartItem(id, q2)) == lines + [CartItem(id, q1 + q2)]
  {
    var once := Merge(lines, CartItem(id, q1));
    assert once[|lines|].productId == id;
    var twice := Merge(once, CartItem(id, q2));
    assert |twice| == |lines + [CartItem(id, q1 + q2)]|;
    forall i | 0 <= i < |twice| ensures twice[i] == (lines + [CartItem(id, q1 + q2)])[i] {
      if i < |lines| {
        assert lines[i].productId != id;
      }
    }
  }

  /** Valuation is linear in the requested quantities. */
  lemma {:induction false} ValuationLinear(ps: seq<Product>, a: seq<CartItem>, b: seq<CartItem>, c: seq<CartItem>)
    requires forall id :: Qty(a, id) == Qty(b, id) + Qty(c, id)
    ensures Valuation(ps, a) == Valuation(ps, b) + Valuation(ps, c)
    decreases |ps|
  {
    if |ps| > 0 {
      var p := ps[0];
      assert p.price * Qty(a, p.id) == p.price * Qty(b, p.id) + p.price * Qty(c, p.id) by {
        assert Qty(a, p.id) == Qty(b, p.id) + Qty(c, p.id);
      }
      ValuationLinear(ps[1..], a, b, c);
    }
  }

  lemma {:induction false} ValuationAbsent(ps: seq<Product>, l: CartItem)
    requires !HasProduct(ps, l.productId)
    ensures Valuation(ps, [l]) == 0
    decreases |ps|
  {
    if |ps| > 0 {
      assert ps[0].id != l.productId;
      assert [l][1..] == [];
      assert Qty([l], ps[0].id) == 0;
      assert !HasProduct(ps[1..], l.productId);
      ValuationAbsent(ps[1..], l);
    }
  }

  /** With distinct ids, a single line is valued at its product's price times its quantity. */
  lemma {:induction false} ValuationSingle(ps: seq<Product>, l: CartItem, j: nat)
    requires DistinctIds(ps)
    requires FindProduct(ps, l.productId) == Some(j)
    ensures Valuation(ps, [l]) == ps[j].price * l.quantity
    decreases |ps|
  {
    assert [l][1..] == [];
    var t := ps[1..];
    assert DistinctIds(t) by {
      forall i, k | 0 <= i < k < |t| ensures t[i].id != t[k].id {
        assert t[i] == ps[i + 1] && t[k] == ps[k + 1];
      }
    }
    if j == 0 {
      assert Qty([l], ps[0].id) == l.quantity;
      assert !HasProduct(t, l.productId);
      ValuationAbsent(t, l);
    } else {
      assert Qty([l], ps[0].id) == 0;
      assert t[j - 1] == ps[j];
      assert IsFirstWithId(t, j - 1) by {
        forall k | 0 <= k < j - 1 ensures t[k].id != t[j - 1].id {
          assert t[k] == ps[k + 1];
        }
      }
      FindProductUnique(t, l.productId, j - 1);
      ValuationSingle(t, l, j - 1);
    }
  }

  /** The cart total computed line by line equals the catalogue-side valuation,
      whenever product ids are distinct and every line can be priced. */
  lemma {:induction false} TotalIsValuation(ps: seq<Product>, lines: seq<CartItem>)
    requires DistinctIds(ps) && AllPriced(ps, lines)
    ensures CartTotal(ps, lines) == Some(Valuation(ps, lines))
    decreases |lines|
  {
    if |lines| == 0 {
      ValuationZero(ps, lines);
    } else {
      var h, t := lines[0], lines[1..];
      assert AllPriced(ps, t) by {
        forall i | 0 <= i < |t| ensures HasProduct(ps, t[i].productId) {
          assert t[i] == lines[i + 1];
        }
      }
      TotalIsValuation(ps, t);
      var j := FindProduct(ps, h.productId).value;
      ValuationSingle(ps, h, j);
      assert [h][1..] == [];
      assert forall id :: Qty(lines, id) == Qty([h], id) + Qty(t, id);
      ValuationLinear(ps, lines, [h], t);
    }
  }

  lemma {:induction false} ValuationZero(ps: seq<Product>, lines: seq<CartItem>)
    requires |lines| == 0
    ensures Valuation(ps, lines) == 0
    decreases |ps|
  {
    if |ps| > 0 {
      ValuationZero(ps[1..], lines);
    }
  }

  /** Adding an item raises the cart total by the item's current price times its quantity. */
  lemma MergeAddsItemValue(ps: seq<Product>, lines: seq<CartItem>, item: CartItem, j: nat)
    requires DistinctIds(ps) && DistinctLines(lines) && AllPriced(ps, lines)
    requires FindProduct(ps, item.productId) == Some(j)
    ensures CartTotal(ps, Merge(lines, item)) == Some(CartTotal(ps, lines).value + ps[j].price * item.quantity)
  {
    MergeStaysPriced(ps, lines, item);
    MergeSplitsQuantity(lines, item);
    TotalAddsItemValue(ps, lines, Merge(lines, item), item, j);
  }

  /** Lines that request what `lines` do plus one item are worth that item's value more. */
  lemma TotalAddsItemValue(ps: seq<Product>, lines: seq<CartItem>, m: seq<CartItem>, item: CartItem, j: nat)
    requires DistinctIds(ps) && AllPriced(ps, lines) && AllPriced(ps, m)
    requires FindProduct(ps, item.productId) == Some(j)
    requires forall id :: Qty(m, id) == Qty(lines, id) + Qty([item], id)
    ensures CartTotal(ps, m) == Some(CartTotal(ps, lines).value + ps[j].price * item.quantity)
  {
    TotalIsValuation(ps, lines);
    TotalIsValuation(ps, m);
    ValuationLinear(ps, m, lines, [item]);
    ValuationSingle(ps, item, j);
  }

  lemma MergeSplitsQuantity(lines: seq<CartItem>, item: CartItem)
    requires DistinctLines(lines)
    ensures forall id :: Qty(Merge(lines, item), id) == Qty(lines, id) + Qty([item], id)
  {
    assert [item][1..] == [];
    forall id ensures Qty(Merge(lines, item), id) == Qty(lines, id) + Qty([item], id) {
      MergeConservesQuantity(lines, item, id);
    }
  }

  lemma MergeStaysPriced(ps: seq<Product>, lines: seq<CartItem>, item: CartItem)
    requires AllPriced(ps, lines) && HasProduct(ps, item.productId)
    ensures AllPriced(ps, Merge(lines, item))
  {
    var m := Merge(lines, item);
    forall i | 0 <= i < |m| ensures HasProduct(ps, m[i].productId) {
      if i < |lines| {
        assert m[i].productId == lines[i].productId;
      }
    }
  }

  /** Prices, not stock, determine a total: catalogues with the same listing price every cart alike. */
  lemma {:induction false} CartTotalSameListing(ps: seq<Product>, qs: seq<Product>, lines: seq<CartItem>)
    requires SameListing(ps, qs)
    ensures CartTotal(ps, lines) == CartTotal(qs, lines)
    decreases |lines|
  {
    if |lines| > 0 {
      FindProductSameListing(ps, qs, lines[0].productId);
      CartTotalSameListing(ps, qs, lines[1..]);
    }
  }

  /** Appending a product to the catalogue does not change the total of a cart it could already price. */
  lemma {:induction false} CartTotalAppend(ps: seq<Product>, p: Product, lines: seq<CartItem>)
    requires AllPriced(ps, lines)
    ensures CartTotal(ps + [p], lines) == CartTotal(ps, lines)
    decreases |lines|
  {
    if |lines| > 0 {
      FindProductAppend(ps, p, lines[0].productId);
      var t := lines[1..];
      assert AllPriced(ps, t) by {
        forall i | 0 <= i < |t| ensures HasProduct(ps, t[i].productId) {
          assert t[i] == lines[i + 1];
        }
      }
      CartTotalAppend(ps, p, t);
      var j := FindProduct(ps, lines[0].productId).value;
      assert (ps + [p])[j] == ps[j];
    }
  }
}
