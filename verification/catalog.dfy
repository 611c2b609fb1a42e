/** Lookups over the product list. Every lookup in the store takes the FIRST
    product whose id matches, as a generator passed to `next` does. */
module Catalog {
  import opened Entities

  predicate HasProduct(ps: seq<Product>, id: int) {
    exists k :: 0 <= k < |ps| && ps[k].id == id
  }

  /** No two products share an id. */
  predicate DistinctIds(ps: seq<Product>) {
    forall i, j :: 0 <= i < j < |ps| ==> ps[i].id != ps[j].id
  }

  /** Product `j` is the one a lookup of its own id resolves to. */
  predicate IsFirstWithId(ps: seq<Product>, j: int)
    requires 0 <= j < |ps|
  {
    forall k :: 0 <= k < j ==> ps[k].id != ps[j].id
  }

  /** Two catalogues agree on everything but stock: same length, ids, names and prices, in order. */
  predicate SameListing(ps: seq<Product>, qs: seq<Product>) {
    && |ps| == |qs|
    && forall j :: 0 <= j < |ps| ==>
         ps[j].id == qs[j].id && ps[j].name == qs[j].name && ps[j].price == qs[j].price
  }

  /** Index of the first product with id `id`, or None when there is none. */
  function FindProduct(ps: seq<Product>, id: int): (r: Option<nat>)
    ensures r.None? <==> !HasProduct(ps, id)
    ensures r.Some? ==> r.value < |ps| && ps[r.value].id == id && IsFirstWithId(ps, r.value)
  {
    if |ps| == 0 then None
    else if ps[0].id == id then Some(0)
    else
      match FindProduct(ps[1..], id)
      case None =>
        assert forall k :: 1 <= k < |ps| ==> ps[k] == ps[1..][k - 1];
        None
      case Some(k) =>
        assert forall m :: 1 <= m <= k ==> ps[m] == ps[1..][m - 1];
        Some(k + 1)
  }

  /** The first-match index is characterised by its two properties, so any
      index with them is the one FindProduct returns. */
  lemma FindProductUnique(ps: seq<Product>, id: int, j: nat)
    requires j < |ps| && ps[j].id == id && IsFirstWithId(ps, j)
    ensures FindProduct(ps, id) == Some(j)
  {
    assert HasProduct(ps, id);
  }

  /** When all ids are distinct, every product is the one its id resolves to. */
  lemma DistinctIdsResolve(ps: seq<Product>, j: nat)
    requires DistinctIds(ps) && j < |ps|
    ensures FindProduct(ps, ps[j].id) == Some(j)
  {
    FindProductUnique(ps, ps[j].id, j);
  }

  /** Appending a product does not change where an id already present resolves. */
  lemma FindProductAppend(ps: seq<Product>, p: Product, id: int)
    requires HasProduct(ps, id)
    ensures FindProduct(ps + [p], id) == FindProduct(ps, id)
  {
    var j := FindProduct(ps, id).value;
    assert forall k :: 0 <= k <= j ==> (ps + [p])[k] == ps[k];
    FindProductUnique(ps + [p], id, j);
  }

  /** Catalogues with the same listing resolve every id to the same index. */
  lemma FindProductSameListing(ps: seq<Product>, qs: seq<Product>, id: int)
    requires SameListing(ps, qs)
    ensures FindProduct(ps, id) == FindProduct(qs, id)
  {
    match FindProduct(ps, id)
    case None =>
      assert !HasProduct(qs, id);
    case Some(j) =>
      FindProductUnique(qs, id, j);
  }
}
