/**
 The layout step: class datas, string datas and code items are put into a new order
 by writing over the vectors that own them.
 */
module Layout {
  import opened Bytes
  import opened Builder
  import DexIr
  import Marks = StringMarks

  // ---- class datas

  datatype ClassDef = ClassDef(inProfile: bool, data: Option<Item>)

  /** The classes that are in the profile, or those that are not, in order. */
  ghost function Those(defs: seq<ClassDef>, inProfile: bool): (r: seq<ClassDef>) {
    if defs == [] then []
    else
      var last := defs[|defs| - 1];
      Those(defs[..|defs| - 1], inProfile) + if last.inProfile == inProfile then [last] else []
  }

  ghost function NewOrder(defs: seq<ClassDef>): (r: seq<ClassDef>) {
    Those(defs, true) + Those(defs, false)
  }

  /** The class datas of classes in order of first use. */
  ghost function FirstUses(defs: seq<ClassDef>): (r: seq<Item>) {
    if defs == [] then []
    else
      var before, data := FirstUses(defs[..|defs| - 1]), defs[|defs| - 1].data;
      if data.Some? && data.value !in before then before + [data.value] else before
  }

  ghost predicate Uses(defs: seq<ClassDef>, x: Item) {
    exists i :: 0 <= i < |defs| && defs[i].data == Some(x)
  }

  lemma {:induction false} FirstUsesRight(defs: seq<ClassDef>)
    ensures Distinct(FirstUses(defs)) && forall x :: x in FirstUses(defs) <==> Uses(defs, x)
  {
    if defs != [] {
      var n := |defs| - 1;
      FirstUsesRight(defs[..n]);
      forall x: Item ensures Uses(defs, x) <==> Uses(defs[..n], x) || defs[n].data == Some(x) {
        if i :| 0 <= i < n && defs[i].data == Some(x) {
          assert defs[..n][i].data == Some(x);
        }
      }
    }
  }

  lemma {:induction false} ThoseUse(defs: seq<ClassDef>, inProfile: bool, d: ClassDef)
    ensures d in Those(defs, inProfile) <==> d in defs && d.inProfile == inProfile
  {
    if defs != [] {
      var n := |defs| - 1;
      ThoseUse(defs[..n], inProfile, d);
      assert defs == defs[..n] + [defs[n]];
    }
  }

  lemma {:induction false} NewOrderUses(defs: seq<ClassDef>, x: Item)
    ensures Uses(NewOrder(defs), x) <==> Uses(defs, x)
  {
    var order := NewOrder(defs);
    if i :| 0 <= i < |defs| && defs[i].data == Some(x) {
      ThoseUse(defs, defs[i].inProfile, defs[i]);
      assert defs[i] in order;
    }
    if i :| 0 <= i < |order| && order[i].data == Some(x) {
      ThoseUse(defs, order[i].inProfile, order[i]);
      ThoseUse(defs, true, order[i]);
      ThoseUse(defs, false, order[i]);
      assert order[i] in defs;
    }
  }

  lemma DistinctFits<T>(xs: seq<T>, ys: seq<T>)
    requires Distinct(xs) && Distinct(ys) && forall x :: x in xs ==> x in ys
    ensures |xs| <= |ys|
  {
    forall x ensures multiset(xs)[x] <= multiset(ys)[x] {
      DistinctCounts(xs, x);
      DistinctCounts(ys, x);
    }
    assert multiset(ys) == multiset(xs) + (multiset(ys) - multiset(xs));
    assert |multiset(xs)| == |xs| && |multiset(ys)| == |ys|;
  }

  method ClassOrder(defs: seq<ClassDef>) returns (order: seq<ClassDef>)
    ensures order == NewOrder(defs)
  {
    order := [];
    for pass := 0 to 2
      invariant order == if pass == 0 then [] else if pass == 1 then Those(defs, true) else NewOrder(defs)
    {
      ghost var before := order;
      for i := 0 to |defs|
        invariant order == before + Those(defs[..i], pass == 0)
      {
        assert defs[..i + 1][..i] == defs[..i];
        if defs[i].inProfile == (pass == 0) {
          order := order + [defs[i]];
        }
      }
      assert defs[..|defs|] == defs;
    }
  }

  /** LayoutClassDefsAndClassData, provided the class datas are those of the classes. */
  method LayoutClassData(defs: seq<ClassDef>, classDatas: array<Item>)
    requires Distinct(classDatas[..]) && forall x :: x in classDatas[..] <==> Uses(defs, x)
    modifies classDatas
    ensures classDatas[..] == FirstUses(NewOrder(defs))
    ensures multiset(classDatas[..]) == multiset(old(classDatas[..]))
  {
    hide Uses, Distinct, FirstUses;
    ghost var before := classDatas[..];
    var order := ClassOrder(defs);
    OrderFits(defs, before);
    var visited: set<Item>, index: nat := {}, 0;
    NoUses(order);
    for k := 0 to |order|
      invariant index == |FirstUses(order[..k])| <= classDatas.Length && classDatas[..index] == FirstUses(order[..k])
      invariant forall x :: x in visited <==> x in FirstUses(order[..k])
    {
      NextUse(order, k);
      FirstUsesFit(order, k + 1);
      var data := order[k].data;
      if data.Some? && data.value !in visited {
        visited := visited + {data.value};
        classDatas[index] := data.value;
        index := index + 1;
      }
    }
    assert order[..|order|] == order;
    assert index == classDatas.Length;
    assert classDatas[..index] == classDatas[..];
  }

  lemma NoUses(order: seq<ClassDef>)
    ensures FirstUses(order[..0]) == []
  {
  }

  lemma NextUse(order: seq<ClassDef>, k: nat)
    requires k < |order|
    ensures var before, data := FirstUses(order[..k]), order[k].data;
            FirstUses(order[..k + 1]) == if data.Some? && data.value !in before then before + [data.value] else before
  {
    assert order[..k + 1][..k] == order[..k];
  }

  lemma {:induction false} OrderFits(defs: seq<ClassDef>, before: seq<Item>)
    requires Distinct(before) && forall x :: x in before <==> Uses(defs, x)
    ensures |FirstUses(NewOrder(defs))| == |before| && multiset(FirstUses(NewOrder(defs))) == multiset(before)
  {
    hide Uses, FirstUses, NewOrder;
    FirstUsesRight(NewOrder(defs));
    forall x ensures x in FirstUses(NewOrder(defs)) <==> x in before { NewOrderUses(defs, x); }
    SameElements(FirstUses(NewOrder(defs)), before);
    assert |multiset(FirstUses(NewOrder(defs)))| == |multiset(before)|;
  }

  lemma {:induction false} FirstUsesFit(order: seq<ClassDef>, k: nat)
    requires k <= |order|
    ensures |FirstUses(order[..k])| <= |FirstUses(order)|
    decreases |order| - k
  {
    if k < |order| {
      FirstUsesFit(order, k + 1);
      assert order[..k + 1][..k] == order[..k];
    } else {
      assert order[..k] == order;
    }
  }

  // ---- sorting

  /** `sorted` is `xs` taken at `from`, each place once, by rank and then by place. */
  ghost predicate StablySorted(xs: seq<Item>, rank: map<Item, nat>, sorted: seq<Item>, from: seq<nat>) {
    && |sorted| == |from| == |xs| && Distinct(from)
    && (forall i :: 0 <= i < |from| ==> from[i] < |xs| && sorted[i] == xs[from[i]] && sorted[i] in rank)
    && (forall i, j :: 0 <= i < j < |sorted| ==>
          rank[sorted[i]] < rank[sorted[j]] || (rank[sorted[i]] == rank[sorted[j]] && from[i] < from[j]))
  }

  /** Behind everything of at most this rank. */
  method PlaceFor(sorted: seq<Item>, rank: map<Item, nat>, x: Item) returns (p: nat)
    requires x in rank && forall i :: 0 <= i < |sorted| ==> sorted[i] in rank
    requires forall i, j :: 0 <= i < j < |sorted| ==> rank[sorted[i]] <= rank[sorted[j]]
    ensures p <= |sorted|
    ensures forall i :: 0 <= i < p ==> rank[sorted[i]] <= rank[x]
    ensures forall i :: p <= i < |sorted| ==> rank[x] < rank[sorted[i]]
  {
    p := |sorted|;
    while p > 0 && rank[x] < rank[sorted[p - 1]]
      invariant p <= |sorted| && forall i :: p <= i < |sorted| ==> rank[x] < rank[sorted[i]]
    {
      p := p - 1;
    }
  }

  lemma {:induction false} Inserted(xs: seq<Item>, x: Item, rank: map<Item, nat>, sorted: seq<Item>, from: seq<nat>,
                                    p: nat)
    requires StablySorted(xs, rank, sorted, from) && x in rank && p <= |sorted|
    requires forall i :: 0 <= i < p ==> rank[sorted[i]] <= rank[x]
    requires forall i :: p <= i < |sorted| ==> rank[x] < rank[sorted[i]]
    ensures StablySorted(xs + [x], rank, sorted[..p] + [x] + sorted[p..], from[..p] + [|xs|] + from[p..])
  {
    hide AtOrBefore, Distinct;
    InsertedAt(sorted, p, x);
    InsertedAt(from, p, |xs|);
    InsertionSorts(xs, x, rank, sorted, from, p, sorted[..p] + [x] + sorted[p..], from[..p] + [|xs|] + from[p..]);
  }

  /** The element that is at i once something is inserted at p. */
  function AtOrBefore<T>(s: seq<T>, p: nat, x: T, i: nat): (r: T)
    requires p <= |s| && i <= |s|
  {
    if i < p then s[i] else if i == p then x else s[i - 1]
  }

  lemma InsertedAt<T>(s: seq<T>, p: nat, x: T)
    requires p <= |s|
    ensures var s' := s[..p] + [x] + s[p..];
            |s'| == |s| + 1 && forall i :: 0 <= i <= |s| ==> s'[i] == AtOrBefore(s, p, x, i)
  {
  }

  lemma {:induction false} InsertionSorts(xs: seq<Item>, x: Item, rank: map<Item, nat>, sorted: seq<Item>,
                                          from: seq<nat>, p: nat, sorted': seq<Item>, from': seq<nat>)
    requires StablySorted(xs, rank, sorted, from) && x in rank && p <= |sorted|
    requires forall i :: 0 <= i < p ==> rank[sorted[i]] <= rank[x]
    requires forall i :: p <= i < |sorted| ==> rank[x] < rank[sorted[i]]
    requires |sorted'| == |from'| == |sorted| + 1
    requires forall i :: 0 <= i <= |sorted| ==> sorted'[i] == AtOrBefore(sorted, p, x, i)
    requires forall i :: 0 <= i <= |from| ==> from'[i] == AtOrBefore(from, p, |xs|, i)
    ensures StablySorted(xs + [x], rank, sorted', from')
  {
  }

  method StableSort(xs: seq<Item>, rank: map<Item, nat>) returns (sorted: seq<Item>, from: seq<nat>)
    requires forall x :: x in xs ==> x in rank
    ensures StablySorted(xs, rank, sorted, from)
  {
    sorted, from := [], [];
    for n := 0 to |xs|
      invariant StablySorted(xs[..n], rank, sorted, from)
    {
      var p := PlaceFor(sorted, rank, xs[n]);
      Inserted(xs[..n], xs[n], rank, sorted, from, p);
      assert xs[..n] + [xs[n]] == xs[..n + 1];
      sorted, from := sorted[..p] + [xs[n]] + sorted[p..], from[..p] + [n] + from[p..];
    }
    assert xs[..|xs|] == xs;
  }

  /** A sorted sequence has the same elements as often. */
  lemma {:induction false} SortedHasAll(xs: seq<Item>, rank: map<Item, nat>, sorted: seq<Item>, from: seq<nat>)
    requires StablySorted(xs, rank, sorted, from)
    ensures forall i :: 0 <= i < |xs| ==> i in from
    ensures Distinct(xs) ==> Distinct(sorted) && multiset(sorted) == multiset(xs)
  {
    AllPlaces(from, |xs|);
    if Distinct(xs) {
      forall x ensures x in sorted <==> x in xs {
        if i :| 0 <= i < |xs| && xs[i] == x {
          assert i in from;
          var k :| 0 <= k < |from| && from[k] == i;
          assert sorted[k] == x;
        }
      }
      SameElements(sorted, xs);
    }
  }

  /** As many different places as there are are all of them. */
  lemma {:induction false} AllPlaces(from: seq<nat>, n: nat)
    requires Distinct(from) && |from| == n && forall i :: 0 <= i < |from| ==> from[i] < n
    ensures forall i :: 0 <= i < n ==> i in from
  {
    var places := seq(n, i => i);
    forall i | 0 <= i < n ensures i in from {
      if i !in from {
        var without := from + [i];
        assert Distinct(without) && forall x :: x in without ==> x in places by {
          forall x | x in without ensures x in places { assert places[x] == x; }
        }
        DistinctFits(without, places);
      }
    }
  }

  // ---- string datas

  /** Cold strings before hot ones, among them shorties last, then by index. */
  predicate Before(hot: seq<bool>, shorty: seq<bool>, a: nat, b: nat)
    requires a < |hot| == |shorty| && b < |hot|
  {
    if hot[a] != hot[b] then !hot[a]
    else if shorty[a] != shorty[b] then !shorty[a]
    else a < b
  }

  function StringRank(hot: bool, shorty: bool): (r: nat) {
    (if hot then 2 else 0) + if shorty then 1 else 0
  }

  method StringOrder(hot: seq<bool>, shorty: seq<bool>) returns (order: seq<nat>)
    requires |hot| == |shorty|
    ensures |order| == |hot| && Distinct(order) && forall i :: 0 <= i < |order| ==> order[i] < |hot|
    ensures forall i :: 0 <= i < |hot| ==> i in order
    ensures forall i, j :: 0 <= i < j < |order| ==> Before(hot, shorty, order[i], order[j])
  {
    var ids: seq<Item> := seq(|hot|, i => i);
    var rank := map i: Item | i < |hot| :: StringRank(hot[i], shorty[i]);
    var from;
    order, from := StableSort(ids, rank);
    SortedHasAll(ids, rank, order, from);
    assert order == from;
  }

  /** The order of two strings, by what makes them hot or a shorty. */
  ghost predicate GoesBefore(ir: DexIr.Ir, p: Marks.Profile, a: nat, b: nat) {
    if Marks.Hot(ir, p, a) != Marks.Hot(ir, p, b) then !Marks.Hot(ir, p, a)
    else if Marks.Shorty(ir, p, a) != Marks.Shorty(ir, p, b) then !Marks.Shorty(ir, p, a)
    else a < b
  }

  function DataOfStrings(ir: DexIr.Ir): (xs: seq<Item>)
    ensures |xs| == |ir.stringIds| && forall i :: 0 <= i < |xs| ==> xs[i] == ir.stringIds[i].data
  {
    seq(|ir.stringIds|, i requires 0 <= i < |ir.stringIds| => ir.stringIds[i].data)
  }

  /** LayoutStringData; every string has its own data. */
  method LayoutStringData(ir: DexIr.Ir, p: Marks.Profile, stringDatas: array<Item>) returns (ghost order: seq<nat>)
    requires Marks.Linked(ir, p) && stringDatas.Length == |ir.stringIds|
    requires Distinct(DataOfStrings(ir)) && Distinct(stringDatas[..])
    requires forall x :: x in DataOfStrings(ir) <==> x in stringDatas[..]
    modifies stringDatas
    ensures |order| == |ir.stringIds| && Distinct(order) && forall i :: 0 <= i < |order| ==> order[i] < |ir.stringIds|
    ensures forall i, j :: 0 <= i < j < |order| ==> GoesBefore(ir, p, order[i], order[j])
    ensures forall i :: 0 <= i < |order| ==> stringDatas[i] == ir.stringIds[order[i]].data
    ensures multiset(stringDatas[..]) == multiset(old(stringDatas[..]))
  {
    hide Marks.Hot, Marks.Shorty, Marks.Linked;
    ghost var before := stringDatas[..];
    var hot, shorty := Marks.MarkStrings(ir, p);
    var ids := StringOrder(hot, shorty);
    var dataOf := DataOfStrings(ir);
    order := ids;
    for i := 0 to |ids|
      invariant forall k :: 0 <= k < i ==> stringDatas[k] == dataOf[ids[k]]
    {
      stringDatas[i] := dataOf[ids[i]];
    }
    Reordered(dataOf, ids, stringDatas[..]);
    SameElements(dataOf, before);
    forall i, j | 0 <= i < j < |order| ensures GoesBefore(ir, p, order[i], order[j]) {
      assert Before(hot, shorty, order[i], order[j]);
    }
  }

  lemma {:induction false} Reordered(xs: seq<Item>, order: seq<nat>, ys: seq<Item>)
    requires |xs| == |order| == |ys| && Distinct(xs) && Distinct(order)
    requires forall i :: 0 <= i < |order| ==> order[i] < |xs| && ys[i] == xs[order[i]]
    ensures multiset(ys) == multiset(xs)
  {
    AllPlaces(order, |xs|);
    forall x ensures x in ys <==> x in xs {
      if i :| 0 <= i < |xs| && xs[i] == x {
        assert i in order;
        var k :| 0 <= k < |order| && order[k] == i;
        assert ys[k] == x;
      }
    }
    SameElements(ys, xs);
  }

  // ---- code items

  /** What the profile and the flags say of a method that has code. */
  datatype Method =
    Method(code: Item, isHot: bool, startupOnly: bool, inProfile: bool, isClinit: bool, profileClass: bool)

  const HOT := 0
  const SOMETIMES_USED := 1
  const STARTUP_ONLY := 2
  const USED_ONCE := 3
  const UNUSED := 4

  function LayoutType(m: Method): (t: nat) {
    if m.isHot then HOT
    else if (m.profileClass && m.isClinit) || m.startupOnly then STARTUP_ONLY
    else if m.isClinit then USED_ONCE
    else if m.inProfile then SOMETIMES_USED
    else UNUSED
  }

  /** Code has the least of the types of its methods. */
  ghost predicate Merged(methods: seq<Method>, layout: map<Item, nat>) {
    && (forall i :: 0 <= i < |methods| ==>
          methods[i].code in layout && layout[methods[i].code] <= LayoutType(methods[i]))
    && (forall c :: c in layout ==> HasType(methods, c, layout[c]))
  }

  ghost predicate HasType(methods: seq<Method>, c: Item, t: nat) {
    exists i :: 0 <= i < |methods| && methods[i].code == c && LayoutType(methods[i]) == t
  }

  lemma MergedMore(methods: seq<Method>, m: Method, layout: map<Item, nat>)
    requires Merged(methods, layout)
    ensures var t := LayoutType(m);
            var merged := if m.code in layout && layout[m.code] < t then layout[m.code] else t;
            Merged(methods + [m], layout[m.code := merged])
  {
    hide LayoutType;
    var t := LayoutType(m);
    var merged := if m.code in layout && layout[m.code] < t then layout[m.code] else t;
    var layout' := layout[m.code := merged];
    forall c | c in layout' ensures HasType(methods + [m], c, layout'[c]) {
      if c == m.code && merged == t {
        assert (methods + [m])[|methods|] == m;
      } else {
        assert HasType(methods, c, layout[c]);
        var i :| 0 <= i < |methods| && methods[i].code == c && LayoutType(methods[i]) == layout[c];
        assert (methods + [m])[i] == methods[i];
      }
    }
  }

  /** LayoutCodeItems; the methods are those with code, direct ones of all classes first. */
  method LayoutCodeItems(methods: seq<Method>, codeItems: seq<Item>)
    returns (sorted: seq<Item>, layout: map<Item, nat>, from: seq<nat>)
    requires forall c :: c in codeItems ==> exists i :: 0 <= i < |methods| && methods[i].code == c
    ensures Merged(methods, layout) && StablySorted(codeItems, layout, sorted, from)
    ensures Distinct(codeItems) ==> multiset(sorted) == multiset(codeItems)
  {
    hide LayoutType, Merged, StablySorted;
    layout := map[];
    NothingMerged();
    for i := 0 to |methods|
      invariant Merged(methods[..i], layout)
      invariant forall k :: 0 <= k < i ==> methods[k].code in layout
    {
      MergedMore(methods[..i], methods[i], layout);
      assert methods[..i] + [methods[i]] == methods[..i + 1];
      var m, t := methods[i], LayoutType(methods[i]);
      if m.code !in layout {
        layout := layout[m.code := t];
      } else {
        // Already there: merge.
        layout := layout[m.code := if layout[m.code] < t then layout[m.code] else t];
      }
    }
    assert methods[..|methods|] == methods;
    sorted, from := StableSort(codeItems, layout);
    SortedHasAll(codeItems, layout, sorted, from);
  }

  lemma NothingMerged()
    ensures Merged([], map[])
  {
  }
}
