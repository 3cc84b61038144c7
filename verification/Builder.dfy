/**
 The collections that the IR builder fills: a vector that owns the items, and a map
 from file offsets to them.
 */
module Builder {

  /** An item by identity. */
  type Item = nat

  ghost predicate Distinct<T>(xs: seq<T>) {
    forall i, j :: 0 <= i < j < |xs| ==> xs[i] != xs[j]
  }

  /** The map is one-to-one from offsets to the items of the vector. */
  ghost predicate InStep(vector: seq<Item>, byOffset: map<nat, Item>) {
    && Distinct(vector)
    && (forall o :: o in byOffset ==> byOffset[o] in vector)
    && (forall x :: x in vector ==> exists o :: o in byOffset && byOffset[o] == x)
    && (forall o, p :: o in byOffset && p in byOffset && byOffset[o] == byOffset[p] ==> o == p)
    && |byOffset| == |vector|
  }

  lemma InStepMore(vector: seq<Item>, byOffset: map<nat, Item>, offset: nat, item: Item)
    requires InStep(vector, byOffset) && offset !in byOffset && item !in vector
    ensures InStep(vector + [item], byOffset[offset := item])
  {
    var byOffset' := byOffset[offset := item];
    forall x | x in vector + [item] ensures exists o :: o in byOffset' && byOffset'[o] == x {
      if x in vector {
        var o :| o in byOffset && byOffset[o] == x;
        assert o in byOffset' && byOffset'[o] == x;
      } else {
        assert offset in byOffset' && byOffset'[offset] == x;
      }
    }
    assert forall o :: o in byOffset ==> byOffset'[o] == byOffset[o];
  }

  ghost predicate Ascending(keys: seq<nat>) {
    forall i, j :: 0 <= i < j < |keys| ==> keys[i] < keys[j]
  }

  /** The items of the vector, in the order of their offsets. */
  ghost predicate InMapOrder(vector: seq<Item>, byOffset: map<nat, Item>, keys: seq<nat>) {
    && |vector| == |keys| && Ascending(keys) && (forall k :: k in keys <==> k in byOffset)
    && forall i :: 0 <= i < |keys| ==> vector[i] == byOffset[keys[i]]
  }

  method LeastOf(keys: set<nat>) returns (least: nat)
    requires keys != {}
    ensures least in keys && forall k :: k in keys ==> least <= k
  {
    least :| least in keys;
    var rest := keys - {least};
    while rest != {}
      invariant rest <= keys && least in keys && forall k :: k in keys && k !in rest ==> least <= k
    {
      var k :| k in rest;
      if k < least { least := k; }
      rest := rest - {k};
    }
  }

  class Collection {
    var vector: seq<Item>
    var byOffset: map<nat, Item>
    /** Items that exist have smaller numbers. */
    var next: Item

    ghost predicate Valid()
      reads this
    {
      InStep(vector, byOffset) && forall x :: x in vector ==> x < next
    }

    constructor ()
      ensures Valid() && vector == [] && byOffset == map[]
    {
      vector, byOffset, next := [], map[], 0;
    }

    /** CreateAndAddItem. */
    method Create(offset: nat) returns (item: Item)
      requires Valid() && offset !in byOffset
      modifies this
      ensures Valid() && item !in old(vector) && vector == old(vector) + [item]
      ensures byOffset == old(byOffset)[offset := item]
    {
      item := next;
      next := next + 1;
      InStepMore(vector, byOffset, offset, item);
      vector := vector + [item];
      byOffset := byOffset[offset := item];
    }

    /** What every reader of a shared item does: take the one at this offset, or make it. */
    method GetOrCreate(offset: nat) returns (item: Item)
      requires Valid()
      modifies this
      ensures Valid() && offset in byOffset && byOffset[offset] == item
      ensures forall o :: o in old(byOffset) ==> o in byOffset && byOffset[o] == old(byOffset)[o]
      ensures byOffset.Keys == old(byOffset).Keys + {offset}
    {
      if offset in byOffset {
        item := byOffset[offset];
      } else {
        item := Create(offset);
      }
    }

    method SortByMapOrder() returns (ghost keys: seq<nat>)
      requires Valid()
      modifies this
      ensures Valid() && byOffset == old(byOffset) && InMapOrder(vector, byOffset, keys)
      ensures multiset(vector) == multiset(old(vector))
    {
      StepSize(vector, byOffset);
      hide InStep, Partly, InMapOrder;
      var rest, i := byOffset.Keys, 0;
      keys := [];
      NothingSorted(vector, byOffset);
      while i < |vector|
        invariant i <= |vector| == |old(vector)| && byOffset == old(byOffset) && next == old(next)
        invariant |rest| == |vector| - i && Partly(vector, i, byOffset, rest, keys)
      {
        var k := LeastOf(rest);
        PartlyStep(vector, i, byOffset, rest, keys, k);
        vector := vector[i := byOffset[k]];
        rest := rest - {k};
        keys := keys + [k];
        i := i + 1;
      }
      AllSorted(vector, byOffset, rest, keys);
      SortedIsPermutation(old(vector), vector, byOffset, keys);
    }
  }

  /** The first i places hold the items of the i least offsets; the others are in `rest`. */
  ghost predicate Partly(vector: seq<Item>, i: nat, byOffset: map<nat, Item>, rest: set<nat>, keys: seq<nat>) {
    && rest <= byOffset.Keys && |keys| == i <= |vector| && Ascending(keys)
    && (forall k :: k in keys <==> k in byOffset && k !in rest)
    && (forall j, k :: 0 <= j < i && k in rest ==> keys[j] < k)
    && (forall j :: 0 <= j < i ==> vector[j] == byOffset[keys[j]])
  }

  lemma NothingSorted(vector: seq<Item>, byOffset: map<nat, Item>)
    ensures Partly(vector, 0, byOffset, byOffset.Keys, [])
  {
  }

  lemma PartlyStep(vector: seq<Item>, i: nat, byOffset: map<nat, Item>, rest: set<nat>, keys: seq<nat>, k: nat)
    requires Partly(vector, i, byOffset, rest, keys) && i < |vector| && k in rest && forall r :: r in rest ==> k <= r
    ensures k in byOffset && Partly(vector[i := byOffset[k]], i + 1, byOffset, rest - {k}, keys + [k])
  {
  }

  lemma AllSorted(vector: seq<Item>, byOffset: map<nat, Item>, rest: set<nat>, keys: seq<nat>)
    requires Partly(vector, |vector|, byOffset, rest, keys) && |rest| == 0
    ensures InMapOrder(vector, byOffset, keys)
  {
    assert rest == {};
  }

  lemma StepSize(vector: seq<Item>, byOffset: map<nat, Item>)
    requires InStep(vector, byOffset)
    ensures |byOffset.Keys| == |vector|
  {
    assert |byOffset.Keys| == |byOffset|;
  }

  lemma {:induction false} SortedIsPermutation(vector: seq<Item>, sorted: seq<Item>, byOffset: map<nat, Item>,
                                               keys: seq<nat>)
    requires InStep(vector, byOffset) && InMapOrder(sorted, byOffset, keys)
    ensures Distinct(sorted) && (forall x :: x in sorted <==> x in vector) && multiset(sorted) == multiset(vector)
    ensures InStep(sorted, byOffset)
  {
    forall x | x in vector ensures x in sorted {
      var o :| o in byOffset && byOffset[o] == x;
      assert o in keys;
      var i :| 0 <= i < |keys| && keys[i] == o;
      assert sorted[i] == x;
    }
    forall i, j | 0 <= i < j < |sorted| ensures sorted[i] != sorted[j] {
      assert keys[i] in keys && keys[j] in keys;
    }
    SameElements(sorted, vector);
    assert |sorted| == |multiset(sorted)| == |multiset(vector)| == |vector|;
  }

  lemma {:induction false} DistinctCounts<T>(xs: seq<T>, x: T)
    requires Distinct(xs)
    ensures multiset(xs)[x] == if x in xs then 1 else 0
  {
    if xs != [] {
      var n := |xs| - 1;
      DistinctCounts(xs[..n], x);
      assert xs == xs[..n] + [xs[n]];
    }
  }

  lemma SameElements<T>(xs: seq<T>, ys: seq<T>)
    requires Distinct(xs) && Distinct(ys) && forall x :: x in xs <==> x in ys
    ensures multiset(xs) == multiset(ys)
  {
    forall x ensures multiset(xs)[x] == multiset(ys)[x] {
      DistinctCounts(xs, x);
      DistinctCounts(ys, x);
    }
  }

  /** Over any sequence of reads: one object for each offset, and in the end the vector
      holds each of them once, in the order of the file. */
  method ReadAll(offsets: seq<nat>) returns (items: seq<Item>, vector: seq<Item>, ghost keys: seq<nat>)
    ensures |items| == |offsets|
    ensures forall i, j :: 0 <= i < |offsets| && 0 <= j < |offsets| ==>
            (items[i] == items[j] <==> offsets[i] == offsets[j])
    ensures Distinct(vector) && forall x :: x in vector <==> x in items
    ensures Ascending(keys) && (forall k :: k in keys <==> k in offsets) && |keys| == |vector|
    ensures forall i, j :: 0 <= i < |offsets| && 0 <= j < |keys| && offsets[i] == keys[j] ==> vector[j] == items[i]
  {
    hide InStep, InMapOrder;
    var c := new Collection();
    items := [];
    for n := 0 to |offsets|
      invariant c.Valid() && fresh(c) && |items| == n
      invariant forall i :: 0 <= i < n ==> offsets[i] in c.byOffset && c.byOffset[offsets[i]] == items[i]
      invariant forall o :: o in c.byOffset <==> o in offsets[..n]
    {
      var item := c.GetOrCreate(offsets[n]);
      items := items + [item];
      assert offsets[..n + 1] == offsets[..n] + [offsets[n]];
      assert forall o :: o in c.byOffset.Keys <==> o in offsets[..n + 1];
    }
    assert offsets[..|offsets|] == offsets;
    keys := c.SortByMapOrder();
    vector := c.vector;
    AllRead(offsets, items, vector, c.byOffset, keys);
  }

  lemma {:induction false} AllRead(offsets: seq<nat>, items: seq<Item>, vector: seq<Item>, byOffset: map<nat, Item>,
                                   keys: seq<nat>)
    requires InStep(vector, byOffset) && InMapOrder(vector, byOffset, keys) && |items| == |offsets|
    requires forall i :: 0 <= i < |offsets| ==> offsets[i] in byOffset && byOffset[offsets[i]] == items[i]
    requires forall o :: o in byOffset <==> o in offsets
    ensures forall i, j :: 0 <= i < |offsets| && 0 <= j < |offsets| ==>
            (items[i] == items[j] <==> offsets[i] == offsets[j])
    ensures Distinct(vector) && forall x :: x in vector <==> x in items
    ensures Ascending(keys) && (forall k :: k in keys <==> k in offsets) && |keys| == |vector|
    ensures forall i, j :: 0 <= i < |offsets| && 0 <= j < |keys| && offsets[i] == keys[j] ==> vector[j] == items[i]
  {
    forall x ensures x in vector <==> x in items {
      if x in vector {
        var o :| o in byOffset && byOffset[o] == x;
        assert o in offsets;
      }
    }
  }
}
