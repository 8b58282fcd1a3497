/**
 * The cart store: the list of cart lines, the operations that replace it,
 * its derived total, and its load from and save to the durable slot.
 * Lines are keyed by product id alone; colour and size take no part.
 */
module CartStore {
  import opened Wrappers
  import opened Types
  import Seqs

  /** What the loader finds in the durable slot. */
  datatype Stored =
    | Absent                        // no entry, or an empty string
    | Unparseable                   // the entry does not parse
    | Parsed(lines: seq<CartLine>)  // the entry parses to a list of lines

  /** The initial lines: the stored list, or the empty list when there is none or it is corrupt. */
  function Load(slot: Stored): (r: seq<CartLine>)
    ensures slot.Parsed? ==> r == slot.lines
    ensures !slot.Parsed? ==> r == []
  {
    match slot
    case Parsed(lines) => lines
    case _ => []
  }

  /** What the save effect writes after every change. */
  function Save(lines: seq<CartLine>): (slot: Stored)
    ensures Load(slot) == lines
  {
    Parsed(lines)
  }

  predicate HasId(lines: seq<CartLine>, id: ProductId) {
    exists i :: 0 <= i < |lines| && lines[i].product.id == id
  }

  /** At most one line per product id. */
  predicate UniqueIds(lines: seq<CartLine>) {
    forall i, j :: 0 <= i < j < |lines| ==> lines[i].product.id != lines[j].product.id
  }

  /** Every line has a positive quantity. */
  predicate PositiveQtys(lines: seq<CartLine>) {
    forall i :: 0 <= i < |lines| ==> lines[i].qty > 0
  }

  /** `findIndex` by product id: the first line with that id, if any. */
  function FirstIndex(lines: seq<CartLine>, id: ProductId): (r: Option<nat>)
    ensures r.None? <==> !HasId(lines, id)
    ensures r.Some? ==> r.value < |lines| && lines[r.value].product.id == id &&
                        forall j :: 0 <= j < r.value ==> lines[j].product.id != id
    decreases |lines|
  {
    if lines == [] then None
    else if lines[0].product.id == id then Some(0)
    else match FirstIndex(lines[1..], id)
      case None =>
        assert forall i :: 1 <= i < |lines| ==> lines[i] == lines[1..][i - 1];
        None
      case Some(k) => Some(k + 1)
  }

  /** The loop `findIndex` runs: the index of the first line with the id, or -1. */
  method FindLine(lines: seq<CartLine>, id: ProductId) returns (idx: int)
    ensures idx == match FirstIndex(lines, id) case Some(k) => k case None => -1
  {
    idx := 0;
    while idx < |lines|
      invariant 0 <= idx <= |lines|
      invariant forall j :: 0 <= j < idx ==> lines[j].product.id != id
    {
      if lines[idx].product.id == id {
        return;
      }
      idx := idx + 1;
    }
    idx := -1;
  }

  /** `addToCart(product, qty)` on the list of lines. */
  function Added(lines: seq<CartLine>, product: Product, qty: int): (r: seq<CartLine>)
    ensures HasId(r, product.id)
    ensures |r| == if HasId(lines, product.id) then |lines| else |lines| + 1
  {
    match FirstIndex(lines, product.id)
    case Some(k) =>
      assert lines[k := lines[k].(qty := lines[k].qty + qty)][k].product.id == product.id;
      lines[k := lines[k].(qty := lines[k].qty + qty)]
    case None =>
      assert (lines + [CartLine(product, qty, None, None)])[|lines|].product.id == product.id;
      lines + [CartLine(product, qty, None, None)]
  }

  /** `removeFromCart(id)`: the lines with another product id, in order. */
  function Removed(lines: seq<CartLine>, id: ProductId): (r: seq<CartLine>)
    ensures |r| <= |lines|
    ensures !HasId(r, id)
  {
    var r := Seqs.Filter(OtherId(id), lines);
    assert forall i :: 0 <= i < |r| ==> r[i] in r;
    r
  }

  function OtherId(id: ProductId): CartLine -> bool {
    (l: CartLine) => l.product.id != id
  }

  /** The `map` in `updateQty`: every line with the id gets quantity `qty`. */
  function WithQty(lines: seq<CartLine>, id: ProductId, qty: int): (r: seq<CartLine>)
    ensures |r| == |lines|
    decreases |lines|
  {
    if lines == [] then []
    else
      var l := lines[0];
      [if l.product.id == id then l.(qty := qty) else l] + WithQty(lines[1..], id, qty)
  }

  /** `updateQty(id, qty)`: a missing, zero or negative quantity removes the lines. */
  function Updated(lines: seq<CartLine>, id: ProductId, qty: Option<int>): (r: seq<CartLine>)
    ensures |r| <= |lines|
    ensures qty.Some? && qty.value > 0 ==> |r| == |lines|
    ensures qty.None? || qty.value <= 0 ==> !HasId(r, id)
  {
    if qty.None? || qty.value <= 0 then Removed(lines, id) else WithQty(lines, id, qty.value)
  }

  /** One line's contribution to the total. */
  function Amount(l: CartLine): int {
    l.product.price * l.qty
  }

  /** `lines.reduce((s, l) => s + l.product.price * l.qty, 0)`. */
  function Total(lines: seq<CartLine>): int {
    Seqs.Sum(Amount, lines)
  }

  // ---------------------------------------------------------------- addToCart

  /** An existing line absorbs the added quantity; nothing else changes. */
  lemma AddMerges(lines: seq<CartLine>, product: Product, qty: int, k: nat)
    requires k < |lines| && lines[k].product.id == product.id
    requires forall j :: 0 <= j < k ==> lines[j].product.id != product.id
    ensures var r := Added(lines, product, qty);
      && |r| == |lines|
      && r[k] == CartLine(lines[k].product, lines[k].qty + qty, lines[k].color, lines[k].size)
      && forall j :: 0 <= j < |lines| && j != k ==> r[j] == lines[j]
  {
    assert HasId(lines, product.id);
  }

  /** A product not yet in the cart gets a new line at the end, without colour or size. */
  lemma AddAppends(lines: seq<CartLine>, product: Product, qty: int)
    requires forall j :: 0 <= j < |lines| ==> lines[j].product.id != product.id
    ensures Added(lines, product, qty) == lines + [CartLine(product, qty, None, None)]
  {
  }

  /** After `addToCart` the product has exactly one line when the cart had at most one. */
  lemma {:induction false} AddKeepsUniqueIds(lines: seq<CartLine>, product: Product, qty: int)
    requires UniqueIds(lines)
    ensures UniqueIds(Added(lines, product, qty))
    ensures HasId(Added(lines, product, qty), product.id)
  {
    var r := Added(lines, product, qty);
    match FirstIndex(lines, product.id)
    case Some(k) =>
      assert forall j :: 0 <= j < |r| ==> r[j].product.id == lines[j].product.id;
      assert r[k].product.id == product.id;
    case None =>
      assert r[|lines|].product.id == product.id;
  }

  /** Adding the same product twice merges into one line holding both quantities. */
  lemma {:induction false} AddTwiceMerges(lines: seq<CartLine>, product: Product, q1: int, q2: int)
    ensures Added(Added(lines, product, q1), product, q2) ==
            match FirstIndex(lines, product.id)
            case Some(k) => lines[k := lines[k].(qty := lines[k].qty + q1 + q2)]
            case None => lines + [CartLine(product, q1 + q2, None, None)]
  {
    var once := Added(lines, product, q1);
    match FirstIndex(lines, product.id)
    case Some(k) =>
      assert forall j :: 0 <= j < |once| ==> once[j].product.id == lines[j].product.id;
      assert FirstIndex(once, product.id) == Some(k);
    case None =>
      assert forall j :: 0 <= j < |lines| ==> once[j] == lines[j];
      assert once[|lines|].product.id == product.id;
      assert HasId(once, product.id);
  }

  /** A positive addition keeps every quantity positive. */
  lemma AddKeepsPositive(lines: seq<CartLine>, product: Product, qty: int)
    requires PositiveQtys(lines) && qty > 0
    ensures PositiveQtys(Added(lines, product, qty))
  {
  }

  // ---------------------------------------------------------- removeFromCart

  /** `removeFromCart` drops exactly the lines with that id and keeps the others in order. */
  lemma RemoveDropsExactly(lines: seq<CartLine>, id: ProductId)
    ensures forall l :: l in Removed(lines, id) <==> l in lines && l.product.id != id
    ensures Seqs.IsSubseq(Removed(lines, id), lines)
    ensures !HasId(Removed(lines, id), id)
    ensures multiset(Removed(lines, id)) + multiset(Seqs.Filter(SameId(id), lines)) == multiset(lines)
    ensures |Removed(lines, id)| == |lines| - Seqs.Count(SameId(id), lines)
  {
    Seqs.FilterIsSubseq(OtherId(id), lines);
    Seqs.FilterPartition(OtherId(id), SameId(id), lines);
    var r := Removed(lines, id);
    forall i | 0 <= i < |r| ensures r[i].product.id != id {
      assert r[i] in r;
    }
  }

  /** Removing an id the cart does not hold changes nothing. */
  lemma RemoveAbsentIsNoop(lines: seq<CartLine>, id: ProductId)
    requires !HasId(lines, id)
    ensures Removed(lines, id) == lines
  {
    forall l | l in lines ensures OtherId(id)(l) {
      var i :| 0 <= i < |lines| && lines[i] == l;
    }
    Seqs.FilterAllPass(OtherId(id), lines);
  }

  lemma {:induction false} RemoveKeepsUniqueIds(lines: seq<CartLine>, id: ProductId)
    requires UniqueIds(lines)
    ensures UniqueIds(Removed(lines, id))
    decreases |lines|
  {
    if lines != [] {
      var rest := lines[1..];
      assert UniqueIds(rest) by {
        forall i, j | 0 <= i < j < |rest| ensures rest[i].product.id != rest[j].product.id {
          assert rest[i] == lines[i + 1] && rest[j] == lines[j + 1];
        }
      }
      RemoveKeepsUniqueIds(rest, id);
      Seqs.FilterCons(OtherId(id), lines[0], rest);
      assert [lines[0]] + rest == lines;
      var tail := Removed(rest, id);
      forall j | 0 <= j < |tail| ensures tail[j].product.id != lines[0].product.id {
        assert tail[j] in tail;
        var i :| 0 <= i < |rest| && rest[i] == tail[j];
        assert lines[i + 1] == tail[j];
      }
    }
  }

  lemma RemoveKeepsPositive(lines: seq<CartLine>, id: ProductId)
    requires PositiveQtys(lines)
    ensures PositiveQtys(Removed(lines, id))
  {
    var r := Removed(lines, id);
    forall i | 0 <= i < |r| ensures r[i].qty > 0 {
      assert r[i] in r;
    }
  }

  // --------------------------------------------------------------- updateQty

  /** With a positive quantity, matching lines take it; length, order and other lines stay. */
  lemma {:induction false} WithQtyAt(lines: seq<CartLine>, id: ProductId, qty: int, i: nat)
    requires i < |lines|
    ensures |WithQty(lines, id, qty)| == |lines|
    ensures WithQty(lines, id, qty)[i] ==
            if lines[i].product.id == id then lines[i].(qty := qty) else lines[i]
    decreases |lines|
  {
    if i > 0 {
      WithQtyAt(lines[1..], id, qty, i - 1);
    }
  }

  /** `updateQty` with a missing, zero or negative quantity is `removeFromCart`. */
  lemma UpdateNonPositiveRemoves(lines: seq<CartLine>, id: ProductId, qty: Option<int>)
    requires qty.None? || qty.value <= 0
    ensures Updated(lines, id, qty) == Removed(lines, id)
    ensures !HasId(Updated(lines, id, qty), id)
  {
    RemoveDropsExactly(lines, id);
  }

  /** `updateQty` never creates a non-positive quantity, whatever it is given. */
  lemma UpdateKeepsPositive(lines: seq<CartLine>, id: ProductId, qty: Option<int>)
    requires PositiveQtys(lines)
    ensures PositiveQtys(Updated(lines, id, qty))
  {
    if qty.None? || qty.value <= 0 {
      RemoveKeepsPositive(lines, id);
    } else {
      forall i | 0 <= i < |lines| ensures WithQty(lines, id, qty.value)[i].qty > 0 {
        WithQtyAt(lines, id, qty.value, i);
      }
    }
  }

  lemma UpdateKeepsUniqueIds(lines: seq<CartLine>, id: ProductId, qty: Option<int>)
    requires UniqueIds(lines)
    ensures UniqueIds(Updated(lines, id, qty))
  {
    if qty.None? || qty.value <= 0 {
      RemoveKeepsUniqueIds(lines, id);
    } else {
      forall i | 0 <= i < |lines|
        ensures WithQty(lines, id, qty.value)[i].product == lines[i].product
      {
        WithQtyAt(lines, id, qty.value, i);
      }
    }
  }

  // ------------------------------------------------------------------ total

  /** `addToCart(p, q)` raises the total by `q` times the price of the line it grows. */
  lemma TotalAfterAdd(lines: seq<CartLine>, product: Product, qty: int)
    ensures Total(Added(lines, product, qty)) == Total(lines) +
            match FirstIndex(lines, product.id)
            case Some(k) => lines[k].product.price * qty
            case None => product.price * qty
  {
    match FirstIndex(lines, product.id)
    case Some(k) =>
      var l := lines[k];
      Seqs.SumReplace(Amount, lines, k, l.(qty := l.qty + qty));
      assert l.product.price * (l.qty + qty) == l.product.price * l.qty + l.product.price * qty;
    case None =>
      Seqs.SumAppend(Amount, lines, [CartLine(product, qty, None, None)]);
  }

  /** `removeFromCart(id)` lowers the total by the amounts of the lines it drops. */
  lemma TotalAfterRemove(lines: seq<CartLine>, id: ProductId)
    ensures Total(Removed(lines, id)) == Total(lines) - Total(Seqs.Filter(SameId(id), lines))
  {
    Seqs.SumPartition(Amount, OtherId(id), SameId(id), lines);
  }

  /**
   * `updateQty(id, q)` with a positive `q` sets every line with the id to `q`,
   * so the total becomes that of the other lines plus `q` times the prices of
   * the lines with the id.
   */
  lemma {:induction false} TotalAfterSetQty(lines: seq<CartLine>, id: ProductId, q: int)
    ensures Total(WithQty(lines, id, q)) ==
            Total(Removed(lines, id)) + q * Seqs.Sum(Price, Seqs.Filter(SameId(id), lines))
    decreases |lines|
  {
    if lines == [] {
      assert Removed(lines, id) == [];
      assert Seqs.Filter(SameId(id), lines) == [];
    } else {
      assert lines == [lines[0]] + lines[1..];
      TotalAfterSetQty(lines[1..], id, q);
      SetQtyStep(lines[0], lines[1..], id, q);
    }
  }

  /** One line in front of a list for which the total after setting the quantity is known. */
  lemma SetQtyStep(x: CartLine, rest: seq<CartLine>, id: ProductId, q: int)
    requires Total(WithQty(rest, id, q)) ==
             Total(Removed(rest, id)) + q * Seqs.Sum(Price, Seqs.Filter(SameId(id), rest))
    ensures Total(WithQty([x] + rest, id, q)) ==
            Total(Removed([x] + rest, id)) + q * Seqs.Sum(Price, Seqs.Filter(SameId(id), [x] + rest))
  {
    var x' := if x.product.id == id then x.(qty := q) else x;
    var kept := Removed(rest, id);
    var same := Seqs.Filter(SameId(id), rest);
    assert ([x] + rest)[1..] == rest;
    assert WithQty([x] + rest, id, q) == [x'] + WithQty(rest, id, q);
    var qs := q * Seqs.Sum(Price, same);
    Seqs.SumCons(Amount, x', WithQty(rest, id, q));
    assert Total(WithQty([x] + rest, id, q)) == Amount(x') + Total(kept) + qs;
    Seqs.FilterCons(OtherId(id), x, rest);
    Seqs.FilterCons(SameId(id), x, rest);
    if x.product.id == id {
      assert Removed([x] + rest, id) == kept;
      assert Seqs.Filter(SameId(id), [x] + rest) == [x] + same;
      Seqs.SumCons(Price, x, same);
      assert Amount(x') == Price(x) * q;
      Scale(q, Price(x), Seqs.Sum(Price, same));
    } else {
      assert Removed([x] + rest, id) == [x] + kept;
      assert Seqs.Filter(SameId(id), [x] + rest) == same;
      Seqs.SumCons(Amount, x, kept);
    }
  }

  lemma Scale(q: int, a: int, b: int)
    ensures q * (a + b) == a * q + q * b
  {
  }

  function Price(l: CartLine): int {
    l.product.price
  }

  function SameId(id: ProductId): CartLine -> bool {
    (l: CartLine) => l.product.id == id
  }

  // ------------------------------------------------------------------ store

  /**
   * The provider's state: the lines, and the durable slot that the save
   * effect rewrites with the whole list after every change.
   */
  class Cart {
    var lines: seq<CartLine>
    var slot: Stored

    /** The slot always holds the current lines. */
    predicate Valid()
      reads this
    {
      slot == Save(lines)
    }

    /** Mount: load from the slot (falling back to empty), then write back. */
    constructor (stored: Stored)
      ensures Valid()
      ensures lines == Load(stored)
    {
      lines := Load(stored);
      slot := Save(Load(stored));
    }

    method AddToCart(product: Product, qty: int := 1)
      requires Valid()
      modifies this
      ensures Valid()
      ensures lines == Added(old(lines), product, qty)
    {
      var idx := FindLine(lines, product.id);
      if idx >= 0 {
        var copy := lines;
        copy := copy[idx := copy[idx].(qty := copy[idx].qty + qty)];
        lines := copy;
      } else {
        lines := lines + [CartLine(product, qty, None, None)];
      }
      slot := Save(lines);
    }

    method RemoveFromCart(id: ProductId)
      requires Valid()
      modifies this
      ensures Valid()
      ensures lines == Removed(old(lines), id)
    {
      lines := Removed(lines, id);
      slot := Save(lines);
    }

    method UpdateQty(id: ProductId, qty: Option<int>)
      requires Valid()
      modifies this
      ensures Valid()
      ensures lines == Updated(old(lines), id, qty)
    {
      if qty.None? || qty.value <= 0 {
        RemoveFromCart(id);
        return;
      }
      lines := WithQty(lines, id, qty.value);
      slot := Save(lines);
    }

    method Clear()
      requires Valid()
      modifies this
      ensures Valid()
      ensures lines == [] && Total(lines) == 0
    {
      lines := [];
      slot := Save(lines);
    }
  }

  /** A reload after any change restores the same lines, in the same order. */
  lemma ReloadRestores(c: Cart)
    requires c.Valid()
    ensures Load(c.slot) == c.lines
  {
  }
}
