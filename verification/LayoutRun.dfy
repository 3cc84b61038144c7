/**
 LayoutOutputFile and the writing of its result: the profile decides the three
 orders, and the file still says what the IR said.
 */
module LayoutRun {
  import opened Bytes
  import opened ByteStream
  import opened Builder
  import opened DexIr
  import opened DexFile
  import opened DexTree
  import opened DexReader
  import opened StringMarks
  import opened LayoutMeaning
  import Header = ReadBackHeader
  import Layout

  /** Every item of the three vectors belongs to something: strings have data of their own, class datas
      have a class, and code has a method. */
  ghost predicate Owned(ir: Ir) {
    && IsOrder(Layout.DataOfStrings(ir), |ir.stringDatas|)
    && (forall x: nat :: x < |ir.classDatas| <==> Layout.Uses(ClassesOf(ir, {}), x))
    && (forall c: nat :: c < |ir.codeItems| ==> HasMethod(ir, c))
  }

  ghost predicate HasMethod(ir: Ir, c: nat) {
    exists d, m :: d in ir.classDefs && m in MethodsOfClass(ir, d) && m.code == Some(c)
  }

  function ClassesOf(ir: Ir, profile: set<nat>): (r: seq<Layout.ClassDef>)
    ensures |r| == |ir.classDefs|
    ensures forall i :: 0 <= i < |r| ==>
              r[i] == Layout.ClassDef(ir.classDefs[i].classType in profile, ir.classDefs[i].classData)
  {
    seq(|ir.classDefs|, i requires 0 <= i < |ir.classDefs| =>
          Layout.ClassDef(ir.classDefs[i].classType in profile, ir.classDefs[i].classData))
  }

  lemma SameUses(ir: Ir, a: set<nat>, b: set<nat>, x: nat)
    ensures Layout.Uses(ClassesOf(ir, a), x) <==> Layout.Uses(ClassesOf(ir, b), x)
  {
    var (p, q) := (ClassesOf(ir, a), ClassesOf(ir, b));
    if i :| 0 <= i < |p| && p[i].data == Some(x) { assert q[i].data == Some(x); }
    if i :| 0 <= i < |q| && q[i].data == Some(x) { assert p[i].data == Some(x); }
  }

  // ---- the methods whose code is laid out

  function ForLayout(p: Profile, d: ClassDef, m: MethodItem): (r: Layout.Method)
    requires m.code.Some?
  {
    Layout.Method(m.code.value, m.index in p.hot, m.index in p.startupOnly, m.index in p.methods, InitializesClass(m),
                  d.classType in p.classes)
  }

  ghost predicate LaidOut(ir: Ir, p: Profile, x: Layout.Method) {
    exists d, m :: d in ir.classDefs && m in MethodsOfClass(ir, d) && m.code.Some? && x == ForLayout(p, d, m)
  }

  ghost predicate LaidOutIn(p: Profile, d: ClassDef, ms: seq<MethodItem>, x: Layout.Method) {
    exists m :: m in ms && m.code.Some? && x == ForLayout(p, d, m)
  }

  method CodeOfMethods(p: Profile, d: ClassDef, ms: seq<MethodItem>) returns (r: seq<Layout.Method>)
    ensures forall x :: x in r <==> LaidOutIn(p, d, ms, x)
  {
    r := [];
    ghost var done: seq<MethodItem> := [];
    for i := 0 to |ms|
      invariant done == ms[..i] && forall x :: x in r <==> LaidOutIn(p, d, done, x)
    {
      ghost var before := r;
      if ms[i].code.Some? {
        r := r + [ForLayout(p, d, ms[i])];
      }
      MoreMethods(p, d, done, ms[i]);
      done := done + [ms[i]];
    }
    assert ms[..|ms|] == ms;
  }

  lemma MoreMethods(p: Profile, d: ClassDef, ms: seq<MethodItem>, m: MethodItem)
    ensures forall x ::
              LaidOutIn(p, d, ms + [m], x) <==> LaidOutIn(p, d, ms, x) || (m.code.Some? && x == ForLayout(p, d, m))
  {
    hide ForLayout;
    assert m in ms + [m];
    forall x
      ensures LaidOutIn(p, d, ms + [m], x) <==> LaidOutIn(p, d, ms, x) || (m.code.Some? && x == ForLayout(p, d, m))
    {
      if y :| y in ms && y.code.Some? && x == ForLayout(p, d, y) { assert y in ms + [m]; }
    }
  }

  function PassOf(ir: Ir, d: ClassDef, virtual: bool): (ms: seq<MethodItem>) {
    var data := ClassDataOf(ir, d);
    if data.None? then [] else if virtual then data.value.virtualMethods else data.value.directMethods
  }

  ghost predicate LaidOutBy(ir: Ir, p: Profile, ds: seq<ClassDef>, virtual: bool, x: Layout.Method) {
    exists d :: d in ds && LaidOutIn(p, d, PassOf(ir, d, virtual), x)
  }

  lemma MoreClasses(ir: Ir, p: Profile, ds: seq<ClassDef>, d: ClassDef, virtual: bool)
    ensures forall x :: LaidOutBy(ir, p, ds + [d], virtual, x) <==>
                        LaidOutBy(ir, p, ds, virtual, x) || LaidOutIn(p, d, PassOf(ir, d, virtual), x)
  {
    hide LaidOutIn, PassOf;
    assert d in ds + [d];
    forall x ensures LaidOutBy(ir, p, ds + [d], virtual, x) <==>
                     LaidOutBy(ir, p, ds, virtual, x) || LaidOutIn(p, d, PassOf(ir, d, virtual), x)
    {
      if y :| y in ds && LaidOutIn(p, y, PassOf(ir, y, virtual), x) { assert y in ds + [d]; }
    }
  }

  /** Direct methods of all classes first, then the virtual ones. */
  method MethodsToLayOut(ir: Ir, p: Profile) returns (ms: seq<Layout.Method>)
    ensures forall x :: x in ms <==> LaidOut(ir, p, x)
  {
    hide LaidOutIn, LaidOutBy, LaidOut, PassOf;
    ms := [];
    for pass := 0 to 2
      invariant forall x :: x in ms <==> (pass >= 1 && LaidOutBy(ir, p, ir.classDefs, false, x))
                                         || (pass == 2 && LaidOutBy(ir, p, ir.classDefs, true, x))
    {
      ghost var (before, done: seq<ClassDef>) := (ms, []);
      NoClasses(ir, p, pass == 1);
      for c := 0 to |ir.classDefs|
        invariant done == ir.classDefs[..c]
        invariant forall x :: x in ms <==> x in before || LaidOutBy(ir, p, done, pass == 1, x)
      {
        var more := CodeOfMethods(p, ir.classDefs[c], PassOf(ir, ir.classDefs[c], pass == 1));
        MoreClasses(ir, p, done, ir.classDefs[c], pass == 1);
        ms := ms + more;
        done := done + [ir.classDefs[c]];
      }
      assert done == ir.classDefs;
    }
    forall x
      ensures LaidOut(ir, p, x) <==> LaidOutBy(ir, p, ir.classDefs, false, x) || LaidOutBy(ir, p, ir.classDefs, true, x)
    {
      BothPasses(ir, p, x);
    }
  }

  lemma NoClasses(ir: Ir, p: Profile, virtual: bool)
    ensures forall x :: !LaidOutBy(ir, p, [], virtual, x)
  {
  }

  lemma {:induction false} BothPasses(ir: Ir, p: Profile, x: Layout.Method)
    ensures LaidOut(ir, p, x) <==> LaidOutBy(ir, p, ir.classDefs, false, x) || LaidOutBy(ir, p, ir.classDefs, true, x)
  {
    hide ForLayout;
    if LaidOut(ir, p, x) {
      var d, m :| d in ir.classDefs && m in MethodsOfClass(ir, d) && m.code.Some? && x == ForLayout(p, d, m);
      assert m in PassOf(ir, d, false) || m in PassOf(ir, d, true);
      assert LaidOutIn(p, d, PassOf(ir, d, false), x) || LaidOutIn(p, d, PassOf(ir, d, true), x);
    }
    forall virtual | LaidOutBy(ir, p, ir.classDefs, virtual, x) ensures LaidOut(ir, p, x) {
      var d :| d in ir.classDefs && LaidOutIn(p, d, PassOf(ir, d, virtual), x);
      var m :| m in PassOf(ir, d, virtual) && m.code.Some? && x == ForLayout(p, d, m);
      assert m in MethodsOfClass(ir, d);
    }
  }

  lemma {:induction false} CodesHaveMethods(ir: Ir, p: Profile, ms: seq<Layout.Method>, c: nat)
    requires Owned(ir) && c < |ir.codeItems| && forall x :: x in ms <==> LaidOut(ir, p, x)
    ensures exists i :: 0 <= i < |ms| && ms[i].code == c
  {
    hide MethodsOfClass, IsOrder;
    assert HasMethod(ir, c);
    var d, m :| d in ir.classDefs && m in MethodsOfClass(ir, d) && m.code == Some(c);
    var x := ForLayout(p, d, m);
    assert LaidOut(ir, p, x);
    assert x in ms;
  }

  // ---- the three orders

  lemma IdentityOrder(n: nat)
    ensures IsOrder(Numbers(0, n), n) && forall x: nat :: x in Numbers(0, n) <==> x < n
  {
    var all := Numbers(0, n);
    forall x | 0 <= x < n ensures x in all { assert all[x] == x; }
  }

  /** The strings in the order of the marks, each with its data. */
  ghost predicate StringsSorted(ir: Ir, p: Profile, order: seq<nat>) {
    exists taken: seq<nat> :: SortedBy(ir, p, order, taken)
  }

  ghost predicate SortedBy(ir: Ir, p: Profile, order: seq<nat>, taken: seq<nat>) {
    && |taken| == |order| == |ir.stringIds|
    && (forall i :: 0 <= i < |taken| ==> taken[i] < |ir.stringIds| && order[i] == ir.stringIds[taken[i]].data)
    && (forall i, j :: 0 <= i < j < |taken| ==> Layout.GoesBefore(ir, p, taken[i], taken[j]))
  }

  method StringOrder(ir: Ir, p: Profile) returns (order: seq<nat>)
    requires Linked(ir, p) && Owned(ir)
    ensures IsOrder(order, |ir.stringDatas|) && StringsSorted(ir, p, order)
  {
    hide Linked, HasMethod, Layout.GoesBefore, Layout.Uses;
    var n := |ir.stringDatas|;
    IdentityOrder(n);
    Layout.AllPlaces(Layout.DataOfStrings(ir), n);
    var datas := new nat[n](i => i);
    assert datas[..] == Numbers(0, n);
    ghost var taken := Layout.LayoutStringData(ir, p, datas);
    order := datas[..];
    PermutedIsOrder(order, n);
    assert SortedBy(ir, p, order, taken);
  }

  method ClassDataOrder(ir: Ir, p: Profile) returns (order: seq<nat>)
    requires Owned(ir)
    ensures IsOrder(order, |ir.classDatas|) && order == Layout.FirstUses(Layout.NewOrder(ClassesOf(ir, p.classes)))
  {
    hide HasMethod, Layout.Uses, Layout.FirstUses, Layout.NewOrder;
    var n := |ir.classDatas|;
    IdentityOrder(n);
    var datas := new nat[n](i => i);
    assert datas[..] == Numbers(0, n);
    forall x: nat
      ensures x in datas[..] <==> Layout.Uses(ClassesOf(ir, p.classes), x)
    {
      SameUses(ir, p.classes, {}, x);
    }
    Layout.LayoutClassData(ClassesOf(ir, p.classes), datas);
    order := datas[..];
    PermutedIsOrder(order, n);
  }

  /** The least layout type of the methods that have this code. */
  ghost predicate LeastType(ir: Ir, p: Profile, c: nat, t: nat) {
    && (exists x :: LaidOut(ir, p, x) && x.code == c && Layout.LayoutType(x) == t)
    && (forall x :: LaidOut(ir, p, x) && x.code == c ==> t <= Layout.LayoutType(x))
  }

  /** Code by its layout type and, where that is the same, in the order it had. */
  ghost predicate CodesSorted(ir: Ir, p: Profile, order: seq<nat>) {
    forall i, j, t, u :: 0 <= i < j < |order| && LeastType(ir, p, order[i], t) && LeastType(ir, p, order[j], u) ==>
      t < u || (t == u && order[i] < order[j])
  }

  lemma {:induction false} MergedIsLeast(ir: Ir, p: Profile, ms: seq<Layout.Method>, layout: map<Item, nat>, c: nat,
                                         t: nat)
    requires Layout.Merged(ms, layout) && (forall x :: x in ms <==> LaidOut(ir, p, x)) && c in layout
    requires LeastType(ir, p, c, t)
    ensures layout[c] == t
  {
    hide LaidOut, Layout.LayoutType;
    assert Layout.HasType(ms, c, layout[c]);
    var x :| LaidOut(ir, p, x) && x.code == c && Layout.LayoutType(x) == t;
    assert x in ms;
  }

  method CodeOrder(ir: Ir, p: Profile) returns (order: seq<nat>)
    requires Owned(ir)
    ensures IsOrder(order, |ir.codeItems|) && CodesSorted(ir, p, order)
  {
    hide LaidOut, Layout.Merged, LeastType, HasMethod, Layout.Uses;
    var n := |ir.codeItems|;
    IdentityOrder(n);
    var ms := MethodsToLayOut(ir, p);
    var all := Numbers(0, n);
    forall c | c in all ensures exists i :: 0 <= i < |ms| && ms[i].code == c { CodesHaveMethods(ir, p, ms, c); }
    var layout, from;
    order, layout, from := Layout.LayoutCodeItems(ms, all);
    PermutedIsOrder(order, n);
    forall i, j, t, u | 0 <= i < j < |order| && LeastType(ir, p, order[i], t) && LeastType(ir, p, order[j], u)
      ensures t < u || (t == u && order[i] < order[j])
    {
      MergedIsLeast(ir, p, ms, layout, order[i], t);
      MergedIsLeast(ir, p, ms, layout, order[j], u);
    }
  }

  /** The orders that the profile decides. */
  ghost predicate LaidOutAs(ir: Ir, p: Profile, o: Orders) {
    && AreOrders(ir, o) && StringsSorted(ir, p, o.strings) && CodesSorted(ir, p, o.codes)
    && o.datas == Layout.FirstUses(Layout.NewOrder(ClassesOf(ir, p.classes)))
  }

  /** LayoutOutputFile, and the file written from it: the IR in the order that the profile decides, which
      reads back as what the IR said before. */
  method LayoutAndWrite(section: seq<byte>, ir: Ir, p: Profile, id: Identity, link: seq<byte>)
    returns (file: seq<byte>, ghost o: Orders)
    requires Linked(ir, p) && Owned(ir) && ZeroFrom(section, 0) && Closed(ir) && ValidIdentity(id)
    ensures LaidOutAs(ir, p, o) && exists offs, order :: Header.Written(Moved(ir, o), id, link, file, offs, order)
    ensures Fits(ir) && |file| < TWO_TO_THE_32 ==> ReadDex(file) == Some(TreeOf(ir))
  {
    hide Linked, Owned, ZeroFrom, Closed, ValidIdentity, Fits, ReadDex, TreeOf, IsOrder, StringsSorted, CodesSorted,
         Layout.FirstUses, Layout.NewOrder, Header.Written, Moved;
    var strings := StringOrder(ir, p);
    var datas := ClassDataOrder(ir, p);
    var codes := CodeOrder(ir, p);
    o := Orders(strings, datas, codes);
    file := WriteLaidOut(section, ir, Orders(strings, datas, codes), id, link);
  }
}
