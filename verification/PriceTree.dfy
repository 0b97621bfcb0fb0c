/**
 The search tree over price levels. Its balancing is that of an external library, so callers may
 rely on the search order and the contents only, never on the shape.
 */
module PriceTree {

  datatype Tree = Leaf | Node(left: Tree, price: nat, slot: nat, right: Tree)

  function Contents(t: Tree): map<nat, nat> {
    match t
    case Leaf => map[]
    case Node(l, p, x, r) => Join(Contents(l), p, x, Contents(r))
  }

  function Join(l: map<nat, nat>, p: nat, x: nat, r: map<nat, nat>): map<nat, nat> { (l + r)[p := x] }

  ghost predicate Split(l: map<nat, nat>, p: nat, r: map<nat, nat>) {
    (forall q :: q in l ==> q < p) && (forall q :: q in r ==> p < q)
  }

  ghost predicate Bst(t: Tree) {
    match t
    case Leaf => true
    case Node(l, p, _, r) => Bst(l) && Bst(r) && Split(Contents(l), p, Contents(r))
  }

  lemma JoinInsert(l: map<nat, nat>, p: nat, x: nat, r: map<nat, nat>, q: nat, y: nat)
    requires Split(l, p, r) && q != p && q !in l && q !in r
    ensures q < p ==> Split(l[q := y], p, r) && Join(l[q := y], p, x, r) == Join(l, p, x, r)[q := y]
    ensures q > p ==> Split(l, p, r[q := y]) && Join(l, p, x, r[q := y]) == Join(l, p, x, r)[q := y]
  {
  }

  lemma JoinErase(l: map<nat, nat>, p: nat, x: nat, r: map<nat, nat>, q: nat)
    requires Split(l, p, r)
    ensures q < p ==> Split(l - {q}, p, r) && Join(l - {q}, p, x, r) == Join(l, p, x, r) - {q}
    ensures q > p ==> Split(l, p, r - {q}) && Join(l, p, x, r - {q}) == Join(l, p, x, r) - {q}
  {
    if q < p {
      assert (l - {q}) + r == (l + r) - {q};
    } else if q > p {
      assert l + (r - {q}) == (l + r) - {q};
    }
  }

  lemma JoinEraseRoot(l: map<nat, nat>, p: nat, x: nat, r: map<nat, nat>)
    requires Split(l, p, r)
    ensures r == map[] ==> l == Join(l, p, x, r) - {p}
    ensures l == map[] ==> r == Join(l, p, x, r) - {p}
  {
  }

  lemma JoinReplace(l: map<nat, nat>, p: nat, x: nat, r: map<nat, nat>, q: nat)
    requires Split(l, p, r) && q in r && forall z :: z in r ==> q <= z
    ensures Split(l, q, r - {q}) && Join(l, q, r[q], r - {q}) == Join(l, p, x, r) - {p}
  {
  }

  lemma JoinAt(l: map<nat, nat>, p: nat, x: nat, r: map<nat, nat>, q: nat)
    requires Split(l, p, r)
    ensures q in Join(l, p, x, r) <==> q == p || (if q < p then q in l else q in r)
    ensures q in Join(l, p, x, r) ==> Join(l, p, x, r)[q] == if q == p then x else if q < p then l[q] else r[q]
  {
  }

  method Insert(t: Tree, price: nat, slot: nat) returns (r: Tree)
    requires Bst(t) && price !in Contents(t)
    ensures Bst(r) && Contents(r) == Contents(t)[price := slot]
    decreases t
  {
    hide Split, Join;
    match t
    case Leaf =>
      r := Node(Leaf, price, slot, Leaf);
      Single(price, slot);
    case Node(left, p, x, right) =>
      JoinAt(Contents(left), p, x, Contents(right), price);
      NotBoth(Contents(left), p, x, Contents(right), price);
      JoinInsert(Contents(left), p, x, Contents(right), price, slot);
      if price < p {
        var l := Insert(left, price, slot);
        r := Node(l, p, x, right);
      } else {
        var g := Insert(right, price, slot);
        r := Node(left, p, x, g);
      }
  }

  lemma Single(p: nat, x: nat)
    ensures Join(map[], p, x, map[]) == map[p := x] && Split(map[], p, map[])
  {
  }

  lemma NotBoth(l: map<nat, nat>, p: nat, x: nat, r: map<nat, nat>, q: nat)
    requires Split(l, p, r) && q !in Join(l, p, x, r)
    ensures q != p && q !in l && q !in r
  {
  }

  /** Take the least price out of a tree. */
  method TakeMin(t: Tree) returns (price: nat, slot: nat, r: Tree)
    requires Bst(t) && t.Node?
    ensures price in Contents(t) && Contents(t)[price] == slot
    ensures forall q :: q in Contents(t) ==> price <= q
    ensures Bst(r) && Contents(r) == Contents(t) - {price}
    decreases t
  {
    hide Join;
    var cl, cr := Contents(t.left), Contents(t.right);
    forall q: nat ensures q in Contents(t) <==> q == t.price || (if q < t.price then q in cl else q in cr) {
      JoinAt(cl, t.price, t.slot, cr, q);
    }
    JoinAt(cl, t.price, t.slot, cr, t.price);
    if t.left.Leaf? {
      price, slot, r := t.price, t.slot, t.right;
      JoinEraseRoot(cl, t.price, t.slot, cr);
    } else {
      var l;
      price, slot, l := TakeMin(t.left);
      r := Node(l, t.price, t.slot, t.right);
      JoinErase(cl, t.price, t.slot, cr, price);
      JoinAt(cl, t.price, t.slot, cr, price);
    }
  }

  /** Erasing a price that is not there leaves the contents alone. */
  method Erase(t: Tree, price: nat) returns (r: Tree)
    requires Bst(t)
    ensures Bst(r) && Contents(r) == Contents(t) - {price}
    decreases t
  {
    hide Split, Join;
    match t
    case Leaf => r := Leaf;
    case Node(left, p, x, right) =>
      JoinErase(Contents(left), p, x, Contents(right), price);
      if price < p {
        var l := Erase(left, price);
        r := Node(l, p, x, right);
      } else if price > p {
        var g := Erase(right, price);
        r := Node(left, p, x, g);
      } else if right.Leaf? {
        r := left;
        JoinEraseRoot(Contents(left), p, x, Contents(right));
      } else {
        var q, y, g := TakeMin(right);
        r := Node(left, q, y, g);
        JoinReplace(Contents(left), p, x, Contents(right), q);
      }
  }
}
