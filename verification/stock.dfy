/** Checkout's stock step: each cart line takes its quantity off the first
    product with the line's id, one line after another, over a copy of the
    catalogue that replaces the old one in a single step. */
module Stock {
  import opened Entities
  import opened Catalog
  import opened Lines

  /** One cart line: the first product with the line's id loses the line's
      quantity; a line naming no product changes nothing. */
  function DeductLine(ps: seq<Product>, line: CartItem): (r: seq<Product>)
    ensures SameListing(ps, r)
  {
    match FindProduct(ps, line.productId)
    case None => ps
    case Some(j) => ps[j := ps[j].(stock := ps[j].stock - line.quantity)]
  }

  /** All cart lines, in cart order. Stock may go below zero: nothing checks it. */
  function Deduct(ps: seq<Product>, lines: seq<CartItem>): (r: seq<Product>)
    ensures SameListing(ps, r)
    decreases |lines|
  {
    if |lines| == 0 then ps else Deduct(DeductLine(ps, lines[0]), lines[1..])
  }

  /** Stock that checkout of `lines` takes from product `j`: all the quantity
      requested of its id if lookups resolve to it, none otherwise. */
  function Consumed(ps: seq<Product>, lines: seq<CartItem>, j: int): int
    requires 0 <= j < |ps|
  {
    if IsFirstWithId(ps, j) then Qty(lines, ps[j].id) else 0
  }

  lemma DeductLineStock(ps: seq<Product>, line: CartItem, j: nat)
    requires j < |ps|
    ensures DeductLine(ps, line)[j].stock
            == ps[j].stock - (if ps[j].id == line.productId && IsFirstWithId(ps, j) then line.quantity else 0)
  {
    if ps[j].id == line.productId && IsFirstWithId(ps, j) {
      FindProductUnique(ps, line.productId, j);
    }
  }

  /** Stock conservation: after the deduction each product holds its old stock
      minus what the lines consumed of it, and nothing else about it changes. */
  lemma {:induction false} StockConservation(ps: seq<Product>, lines: seq<CartItem>)
    ensures |Deduct(ps, lines)| == |ps|
    ensures forall j :: 0 <= j < |ps| ==>
              Deduct(ps, lines)[j] == ps[j].(stock := ps[j].stock - Consumed(ps, lines, j))
    decreases |lines|
  {
    if |lines| > 0 {
      var h, t := lines[0], lines[1..];
      var ps1 := DeductLine(ps, h);
      StockConservation(ps1, t);
      forall j | 0 <= j < |ps|
        ensures Deduct(ps, lines)[j] == ps[j].(stock := ps[j].stock - Consumed(ps, lines, j))
      {
        DeductLineStock(ps, h, j);
        assert IsFirstWithId(ps1, j) == IsFirstWithId(ps, j);
      }
    }
  }

  /** With distinct ids every product loses exactly the quantity the lines request of it. */
  lemma DistinctStockConservation(ps: seq<Product>, lines: seq<CartItem>)
    requires DistinctIds(ps)
    ensures |Deduct(ps, lines)| == |ps|
    ensures forall j :: 0 <= j < |ps| ==>
              Deduct(ps, lines)[j].stock == ps[j].stock - Qty(lines, ps[j].id)
  {
    StockConservation(ps, lines);
    forall j | 0 <= j < |ps| ensures IsFirstWithId(ps, j) {
      DistinctIdsResolve(ps, j);
    }
  }

  /** Stock stays non-negative when no product is asked for more than it holds. */
  lemma DeductKeepsStockNonNegative(ps: seq<Product>, lines: seq<CartItem>)
    requires forall j :: 0 <= j < |ps| ==> 0 <= ps[j].stock && Qty(lines, ps[j].id) <= ps[j].stock
    ensures forall j :: 0 <= j < |Deduct(ps, lines)| ==> Deduct(ps, lines)[j].stock >= 0
  {
    StockConservation(ps, lines);
  }
}
