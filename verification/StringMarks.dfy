/**
 Which strings a profile makes hot and which are shorties: the marks by which the
 string datas are put into a new order.
 */
module StringMarks {
  import opened Bytes
  import opened DexIr

  const ACC_STATIC := 0x8
  const ACC_CONSTRUCTOR := 0x1_0000

  /** The ids that the instructions of a code item refer to. */
  datatype Fixups = Fixups(strings: seq<nat>, fields: seq<nat>, methods: seq<nat>)

  /** The types and methods in the profile, those methods among them that are hot or only have the
      startup flag, and the fixups of the code items that have any. */
  datatype Profile =
    Profile(classes: set<nat>, methods: set<nat>, hot: set<nat>, startupOnly: set<nat>, fixups: map<nat, Fixups>)

  /** Every id that the marks are found through is one of the IR. */
  ghost predicate Linked(ir: Ir, p: Profile) {
    && (forall t :: 0 <= t < |ir.typeIds| ==> ir.typeIds[t].descriptor < |ir.stringIds|)
    && (forall x :: 0 <= x < |ir.protoIds| ==> ir.protoIds[x].shorty < |ir.stringIds|)
    && (forall f :: 0 <= f < |ir.fieldIds| ==> LinkedField(ir, ir.fieldIds[f]))
    && (forall m :: 0 <= m < |ir.methodIds| ==> LinkedMethod(ir, ir.methodIds[m]))
    && (forall c :: 0 <= c < |ir.classDefs| ==> LinkedClass(ir, ir.classDefs[c]))
    && (forall k :: k in p.fixups ==> LinkedFixups(ir, p.fixups[k]))
  }

  ghost predicate LinkedField(ir: Ir, x: FieldId) {
    x.klass < |ir.typeIds| && x.typ < |ir.typeIds| && x.name < |ir.stringIds|
  }

  ghost predicate LinkedMethod(ir: Ir, x: MethodId) {
    x.klass < |ir.typeIds| && x.proto < |ir.protoIds| && x.name < |ir.stringIds|
  }

  ghost predicate LinkedClass(ir: Ir, d: ClassDef) {
    && d.classType < |ir.typeIds| && (d.superclass.Some? ==> d.superclass.value < |ir.typeIds|)
    && (d.interfaces.Some? ==>
          d.interfaces.value < |ir.typeLists| && forall t :: t in ir.typeLists[d.interfaces.value] ==> t < |ir.typeIds|)
    && (d.classData.Some? ==> d.classData.value < |ir.classDatas|)
    && (forall m :: m in MethodsOfClass(ir, d) ==> m.index < |ir.methodIds|)
  }

  ghost predicate LinkedFixups(ir: Ir, x: Fixups) {
    && (forall s :: s in x.strings ==> s < |ir.stringIds|)
    && (forall f :: f in x.fields ==> f < |ir.fieldIds|)
    && (forall m :: m in x.methods ==> m < |ir.methodIds|)
  }

  function MethodsIn(x: ClassData): (ms: seq<MethodItem>) { x.directMethods + x.virtualMethods }

  // ---- what is to be marked

  ghost predicate IsTypeName(ir: Ir, t: nat, s: nat) {
    t < |ir.typeIds| && ir.typeIds[t].descriptor == s
  }

  /** The string names the class, its superclass or an interface of it. */
  ghost predicate NamesClass(ir: Ir, d: ClassDef, s: nat) {
    || IsTypeName(ir, d.classType, s)
    || (d.superclass.Some? && IsTypeName(ir, d.superclass.value, s))
    || (d.interfaces.Some? && d.interfaces.value < |ir.typeLists|
        && exists t :: t in ir.typeLists[d.interfaces.value] && IsTypeName(ir, t, s))
  }

  predicate InitializesClass(m: MethodItem) {
    m.accessFlags / ACC_CONSTRUCTOR % 2 == 1 && m.accessFlags / ACC_STATIC % 2 == 1
  }

  predicate IsClinit(p: Profile, d: ClassDef, m: MethodItem) {
    d.classType in p.classes && InitializesClass(m)
  }

  /** A method that the profile has run: it is in it, or initializes a class that is. */
  predicate Executed(p: Profile, d: ClassDef, m: MethodItem) {
    m.code.Some? && (IsClinit(p, d, m) || m.index in p.methods)
  }

  ghost predicate UsesField(ir: Ir, f: nat, s: nat) {
    && f < |ir.fieldIds|
    && (IsTypeName(ir, ir.fieldIds[f].klass, s) || ir.fieldIds[f].name == s || IsTypeName(ir, ir.fieldIds[f].typ, s))
  }

  ghost predicate UsesMethod(ir: Ir, m: nat, s: nat) {
    m < |ir.methodIds| && (IsTypeName(ir, ir.methodIds[m].klass, s) || ir.methodIds[m].name == s)
  }

  ghost predicate HasShorty(ir: Ir, m: nat, s: nat) {
    m < |ir.methodIds| && ir.methodIds[m].proto < |ir.protoIds| && ir.protoIds[ir.methodIds[m].proto].shorty == s
  }

  /** The code uses the string, or a field or, in a class initializer, a method that has it in its id. */
  ghost predicate CodeUses(ir: Ir, x: Fixups, clinit: bool, s: nat) {
    || s in x.strings
    || (exists f :: f in x.fields && UsesField(ir, f, s))
    || (clinit && exists m :: m in x.methods && UsesMethod(ir, m, s))
  }

  ghost predicate MethodUses(ir: Ir, p: Profile, d: ClassDef, m: MethodItem, s: nat) {
    Executed(p, d, m) && m.code.value in p.fixups && CodeUses(ir, p.fixups[m.code.value], IsClinit(p, d, m), s)
  }

  ghost predicate MethodShorty(ir: Ir, p: Profile, d: ClassDef, m: MethodItem, s: nat) {
    && Executed(p, d, m)
    && (|| HasShorty(ir, m.index, s)
        || (IsClinit(p, d, m) && m.code.value in p.fixups
            && exists k :: k in p.fixups[m.code.value].methods && HasShorty(ir, k, s)))
  }

  ghost predicate HotInClass(ir: Ir, p: Profile, d: ClassDef, s: nat) {
    || (d.classType in p.classes && NamesClass(ir, d, s))
    || exists m :: m in MethodsOfClass(ir, d) && MethodUses(ir, p, d, m, s)
  }

  ghost predicate ShortyInClass(ir: Ir, p: Profile, d: ClassDef, s: nat) {
    exists m :: m in MethodsOfClass(ir, d) && MethodShorty(ir, p, d, m, s)
  }

  function MethodsOfClass(ir: Ir, d: ClassDef): (ms: seq<MethodItem>) {
    if ClassDataOf(ir, d).None? then [] else MethodsIn(ClassDataOf(ir, d).value)
  }

  ghost predicate Hot(ir: Ir, p: Profile, s: nat) {
    exists d :: d in ir.classDefs && HotInClass(ir, p, d, s)
  }

  ghost predicate Shorty(ir: Ir, p: Profile, s: nat) {
    exists d :: d in ir.classDefs && ShortyInClass(ir, p, d, s)
  }

  // ---- the loops that mark

  ghost predicate NamesOneOf(ir: Ir, ts: seq<nat>, s: nat) { exists t :: t in ts && IsTypeName(ir, t, s) }

  ghost predicate UsesFieldOf(ir: Ir, fs: seq<nat>, s: nat) { exists f :: f in fs && UsesField(ir, f, s) }

  ghost predicate UsesMethodOf(ir: Ir, ms: seq<nat>, s: nat) { exists m :: m in ms && UsesMethod(ir, m, s) }

  ghost predicate ShortyAmong(ir: Ir, ms: seq<nat>, s: nat) { exists m :: m in ms && HasShorty(ir, m, s) }

  ghost predicate UsedIn(ir: Ir, p: Profile, d: ClassDef, ms: seq<MethodItem>, s: nat) {
    exists m :: m in ms && MethodUses(ir, p, d, m, s)
  }

  ghost predicate ShortyIn(ir: Ir, p: Profile, d: ClassDef, ms: seq<MethodItem>, s: nat) {
    exists m :: m in ms && MethodShorty(ir, p, d, m, s)
  }

  method MarkType(ir: Ir, marks: seq<bool>, t: nat) returns (r: seq<bool>)
    requires t < |ir.typeIds| && ir.typeIds[t].descriptor < |marks|
    ensures |r| == |marks| && forall s :: 0 <= s < |r| ==> (r[s] <==> marks[s] || IsTypeName(ir, t, s))
  {
    r := marks[ir.typeIds[t].descriptor := true];
  }

  method MarkTypes(ir: Ir, marks: seq<bool>, ts: seq<nat>) returns (r: seq<bool>)
    requires |marks| == |ir.stringIds|
    requires forall t :: 0 <= t < |ir.typeIds| ==> ir.typeIds[t].descriptor < |ir.stringIds|
    requires forall t :: t in ts ==> t < |ir.typeIds|
    ensures |r| == |marks| && forall s :: 0 <= s < |r| ==> (r[s] <==> marks[s] || NamesOneOf(ir, ts, s))
  {
    hide IsTypeName;
    r := marks;
    ghost var done: seq<nat> := [];
    for i := 0 to |ts|
      invariant done == ts[..i]
      invariant |r| == |marks| && forall s :: 0 <= s < |r| ==> (r[s] <==> marks[s] || NamesOneOf(ir, done, s))
    {
      assert ts[i] in ts;
      done := done + [ts[i]];
      r := MarkType(ir, r, ts[i]);
    }
    assert ts[..|ts|] == ts;
  }

  method MarkClass(ir: Ir, p: Profile, marks: seq<bool>, d: ClassDef) returns (r: seq<bool>)
    requires |marks| == |ir.stringIds| && Linked(ir, p) && d in ir.classDefs
    ensures |r| == |marks| && forall s :: 0 <= s < |r| ==> (r[s] <==> marks[s] || NamesClass(ir, d, s))
  {
    r := MarkType(ir, marks, d.classType);
    if d.superclass.Some? {
      r := MarkType(ir, r, d.superclass.value);
    }
    if d.interfaces.Some? {
      r := MarkTypes(ir, r, ir.typeLists[d.interfaces.value]);
    }
  }

  method MarkField(ir: Ir, p: Profile, marks: seq<bool>, f: nat) returns (r: seq<bool>)
    requires |marks| == |ir.stringIds| && Linked(ir, p) && f < |ir.fieldIds|
    ensures |r| == |marks| && forall s :: 0 <= s < |r| ==> (r[s] <==> marks[s] || UsesField(ir, f, s))
  {
    var id := ir.fieldIds[f];
    r := MarkType(ir, marks, id.klass);
    r := r[id.name := true];
    r := MarkType(ir, r, id.typ);
  }

  method MarkFields(ir: Ir, p: Profile, marks: seq<bool>, fs: seq<nat>) returns (r: seq<bool>)
    requires |marks| == |ir.stringIds| && Linked(ir, p) && forall f :: f in fs ==> f < |ir.fieldIds|
    ensures |r| == |marks| && forall s :: 0 <= s < |r| ==> (r[s] <==> marks[s] || UsesFieldOf(ir, fs, s))
  {
    hide UsesField, Linked;
    r := marks;
    ghost var done: seq<nat> := [];
    for i := 0 to |fs|
      invariant done == fs[..i]
      invariant |r| == |marks| && forall s :: 0 <= s < |r| ==> (r[s] <==> marks[s] || UsesFieldOf(ir, done, s))
    {
      assert fs[i] in fs;
      done := done + [fs[i]];
      r := MarkField(ir, p, r, fs[i]);
    }
    assert fs[..|fs|] == fs;
  }

  method MarkMethodId(ir: Ir, p: Profile, hot: seq<bool>, shorty: seq<bool>, m: nat)
    returns (h: seq<bool>, z: seq<bool>)
    requires |hot| == |shorty| == |ir.stringIds| && Linked(ir, p) && m < |ir.methodIds|
    ensures |h| == |hot| && forall s :: 0 <= s < |h| ==> (h[s] <==> hot[s] || UsesMethod(ir, m, s))
    ensures |z| == |shorty| && forall s :: 0 <= s < |z| ==> (z[s] <==> shorty[s] || HasShorty(ir, m, s))
  {
    var id := ir.methodIds[m];
    h := MarkType(ir, hot, id.klass);
    h := h[id.name := true];
    z := shorty[ir.protoIds[id.proto].shorty := true];
  }

  method MarkMethods(ir: Ir, p: Profile, hot: seq<bool>, shorty: seq<bool>, ms: seq<nat>)
    returns (h: seq<bool>, z: seq<bool>)
    requires |hot| == |shorty| == |ir.stringIds| && Linked(ir, p) && forall m :: m in ms ==> m < |ir.methodIds|
    ensures |h| == |hot| && forall s :: 0 <= s < |h| ==> (h[s] <==> hot[s] || UsesMethodOf(ir, ms, s))
    ensures |z| == |shorty| && forall s :: 0 <= s < |z| ==> (z[s] <==> shorty[s] || ShortyAmong(ir, ms, s))
  {
    hide UsesMethod, HasShorty, Linked;
    h, z := hot, shorty;
    ghost var done: seq<nat> := [];
    for i := 0 to |ms|
      invariant done == ms[..i]
      invariant |h| == |hot| && forall s :: 0 <= s < |h| ==> (h[s] <==> hot[s] || UsesMethodOf(ir, done, s))
      invariant |z| == |shorty| && forall s :: 0 <= s < |z| ==> (z[s] <==> shorty[s] || ShortyAmong(ir, done, s))
    {
      assert ms[i] in ms;
      done := done + [ms[i]];
      h, z := MarkMethodId(ir, p, h, z, ms[i]);
    }
    assert ms[..|ms|] == ms;
  }

  method MarkStringIds(marks: seq<bool>, ss: seq<nat>) returns (r: seq<bool>)
    requires forall s :: s in ss ==> s < |marks|
    ensures |r| == |marks| && forall s :: 0 <= s < |r| ==> (r[s] <==> marks[s] || s in ss)
  {
    r := marks;
    for i := 0 to |ss|
      invariant |r| == |marks| && forall s :: 0 <= s < |r| ==> (r[s] <==> marks[s] || s in ss[..i])
    {
      assert ss[i] in ss && ss[..i + 1] == ss[..i] + [ss[i]];
      r := r[ss[i] := true];
    }
    assert ss[..|ss|] == ss;
  }

  /** One method of a class. */
  method MarkMethod(ir: Ir, p: Profile, d: ClassDef, m: MethodItem, hot: seq<bool>, shorty: seq<bool>)
    returns (h: seq<bool>, z: seq<bool>)
    requires |hot| == |shorty| == |ir.stringIds| && Linked(ir, p) && m.index < |ir.methodIds|
    ensures |h| == |hot| && forall s :: 0 <= s < |h| ==> (h[s] <==> hot[s] || MethodUses(ir, p, d, m, s))
    ensures |z| == |shorty| && forall s :: 0 <= s < |z| ==> (z[s] <==> shorty[s] || MethodShorty(ir, p, d, m, s))
  {
    hide UsesField, UsesMethod;
    h, z := hot, shorty;
    if m.code.None? { return; }
    var clinit := IsClinit(p, d, m);
    if !(clinit || m.index in p.methods) { return; }
    var id := ir.methodIds[m.index];
    z := z[ir.protoIds[id.proto].shorty := true];
    if m.code.value !in p.fixups { return; }
    var fixups := p.fixups[m.code.value];
    h := MarkStringIds(h, fixups.strings);
    h := MarkFields(ir, p, h, fixups.fields);
    if clinit {
      h, z := MarkMethods(ir, p, h, z, fixups.methods);
    }
  }

  /** All methods of one class, the direct ones first. */
  method MarkClassMethods(ir: Ir, p: Profile, d: ClassDef, data: ClassData, hot: seq<bool>, shorty: seq<bool>)
    returns (h: seq<bool>, z: seq<bool>)
    requires |hot| == |shorty| == |ir.stringIds| && Linked(ir, p)
    requires forall m :: m in MethodsIn(data) ==> m.index < |ir.methodIds|
    ensures |h| == |hot| && forall s :: 0 <= s < |h| ==> (h[s] <==> hot[s] || UsedIn(ir, p, d, MethodsIn(data), s))
    ensures |z| == |shorty|
    ensures forall s :: 0 <= s < |z| ==> (z[s] <==> shorty[s] || ShortyIn(ir, p, d, MethodsIn(data), s))
  {
    hide MethodUses, MethodShorty, Linked;
    h, z := hot, shorty;
    ghost var done: seq<MethodItem> := [];
    for pass := 0 to 2
      invariant done == if pass == 0 then [] else if pass == 1 then data.directMethods else MethodsIn(data)
      invariant |h| == |hot| && forall s :: 0 <= s < |h| ==> (h[s] <==> hot[s] || UsedIn(ir, p, d, done, s))
      invariant |z| == |shorty| && forall s :: 0 <= s < |z| ==> (z[s] <==> shorty[s] || ShortyIn(ir, p, d, done, s))
    {
      var ms := if pass == 0 then data.directMethods else data.virtualMethods;
      ghost var before := done;
      for i := 0 to |ms|
        invariant done == before + ms[..i]
        invariant |h| == |hot| && forall s :: 0 <= s < |h| ==> (h[s] <==> hot[s] || UsedIn(ir, p, d, done, s))
        invariant |z| == |shorty| && forall s :: 0 <= s < |z| ==> (z[s] <==> shorty[s] || ShortyIn(ir, p, d, done, s))
      {
        assert ms[i] in MethodsIn(data);
        h, z := MarkMethod(ir, p, d, ms[i], h, z);
        done := done + [ms[i]];
      }
      assert ms[..|ms|] == ms;
    }
  }

  method MarkOneClass(ir: Ir, p: Profile, d: ClassDef, hot: seq<bool>, shorty: seq<bool>)
    returns (h: seq<bool>, z: seq<bool>)
    requires |hot| == |shorty| == |ir.stringIds| && Linked(ir, p) && d in ir.classDefs
    ensures |h| == |hot| && forall s :: 0 <= s < |h| ==> (h[s] <==> hot[s] || HotInClass(ir, p, d, s))
    ensures |z| == |shorty| && forall s :: 0 <= s < |z| ==> (z[s] <==> shorty[s] || ShortyInClass(ir, p, d, s))
  {
    hide NamesClass, MethodUses, MethodShorty;
    h, z := hot, shorty;
    if d.classType in p.classes {
      h := MarkClass(ir, p, h, d);
    }
    var data := ClassDataOf(ir, d);
    if data.Some? {
      h, z := MarkClassMethods(ir, p, d, data.value, h, z);
    }
  }

  /** A string is marked hot, or as a shorty, exactly if a class of the file makes it so. */
  method MarkStrings(ir: Ir, p: Profile) returns (hot: seq<bool>, shorty: seq<bool>)
    requires Linked(ir, p)
    ensures |hot| == |shorty| == |ir.stringIds|
    ensures forall s :: 0 <= s < |hot| ==> (hot[s] <==> Hot(ir, p, s))
    ensures forall s :: 0 <= s < |shorty| ==> (shorty[s] <==> Shorty(ir, p, s))
  {
    hide HotInClass, ShortyInClass, Linked;
    hot, shorty := seq(|ir.stringIds|, _ => false), seq(|ir.stringIds|, _ => false);
    var defs := ir.classDefs;
    ghost var done: seq<ClassDef> := [];
    for c := 0 to |defs|
      invariant |hot| == |shorty| == |ir.stringIds| && done == defs[..c]
      invariant forall s :: 0 <= s < |hot| ==> (hot[s] <==> exists d :: d in done && HotInClass(ir, p, d, s))
      invariant forall s :: 0 <= s < |shorty| ==> (shorty[s] <==> exists d :: d in done && ShortyInClass(ir, p, d, s))
    {
      var d := defs[c];
      assert d in defs;
      done := done + [d];
      hot, shorty := MarkOneClass(ir, p, d, hot, shorty);
    }
    assert defs[..|defs|] == defs;
  }
}
