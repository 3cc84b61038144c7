/**
 Debug info offsets by method id: when a compact dex can be generated at all, and
 the table that is then written.
 */
module CompactDexDebug {
  import opened Bytes
  import Table = CompactOffsetTable

  datatype Method = Method(id: nat, code: Option<nat>)
  datatype ClassData = ClassData(direct: seq<Method>, virtuals: seq<Method>)

  /** The classes of a dex file (None if not defined there), the debug info of each code
      item, and the offsets that the debug infos have been given. */
  datatype Dex = Dex(methodIds: nat, classes: seq<Option<ClassData>>, debugOf: seq<Option<nat>>, offsets: seq<nat>)

  function MethodsOf(c: Option<ClassData>, virtuals: bool): (ms: seq<Method>) {
    if c.None? then [] else if virtuals then c.value.virtuals else c.value.direct
  }

  predicate ValidMethod(dex: Dex, m: Method) {
    && m.id < dex.methodIds
    && (m.code.Some? ==> m.code.value < |dex.debugOf|)
  }

  predicate Valid(dex: Dex) {
    && (forall c, virtuals, i :: 0 <= c < |dex.classes| && 0 <= i < |MethodsOf(dex.classes[c], virtuals)| ==>
          ValidMethod(dex, MethodsOf(dex.classes[c], virtuals)[i]))
    && (forall k :: 0 <= k < |dex.debugOf| ==> dex.debugOf[k].Some? ==> dex.debugOf[k].value < |dex.offsets|)
    && Table.Small(dex.offsets)
  }

  ghost predicate Defines(dex: Dex, m: Method) {
    exists c, virtuals :: 0 <= c < |dex.classes| && m in MethodsOf(dex.classes[c], virtuals)
  }

  function DebugInfo(dex: Dex, m: Method): (d: Option<nat>)
    requires ValidMethod(dex, m)
  {
    if m.code.None? then None else dex.debugOf[m.code.value]
  }

  /** Methods with one id have one code item, or none. */
  ghost predicate Consistent(dex: Dex) {
    forall a, b :: Defines(dex, a) && Defines(dex, b) && a.id == b.id ==> a.code == b.code
  }

  // ---- CanGenerateCompactDex

  /** What the vectors know after the methods in `seen`. */
  ghost predicate Knows(dex: Dex, seen: set<Method>, saw: seq<bool>, codes: seq<Option<nat>>, infos: seq<Option<nat>>) {
    && |saw| == |codes| == |infos| == dex.methodIds
    && (forall m :: m in seen ==> ValidMethod(dex, m) && Noted(dex, m, saw, codes, infos))
    && (forall id :: 0 <= id < dex.methodIds && saw[id] ==> SeenId(seen, id))
  }

  ghost predicate SeenId(seen: set<Method>, id: nat) {
    exists m :: m in seen && m.id == id
  }

  ghost predicate Noted(dex: Dex, m: Method, saw: seq<bool>, codes: seq<Option<nat>>, infos: seq<Option<nat>>)
    requires ValidMethod(dex, m)
  {
    && |saw| == |codes| == |infos| == dex.methodIds
    && saw[m.id] && codes[m.id] == m.code && infos[m.id] == DebugInfo(dex, m)
  }

  ghost predicate Conflict(seen: set<Method>, more: seq<Method>) {
    exists a, b :: (a in seen || a in more) && b in more && a.id == b.id && a.code != b.code
  }

  ghost function SetOf(ms: seq<Method>): (s: set<Method>) { set m | m in ms }

  method CheckMethods(dex: Dex, ms: seq<Method>, ghost seen: set<Method>, saw0: seq<bool>, codes0: seq<Option<nat>>,
                      infos0: seq<Option<nat>>)
    returns (ok: bool, saw: seq<bool>, codes: seq<Option<nat>>, infos: seq<Option<nat>>)
    requires Valid(dex) && Knows(dex, seen, saw0, codes0, infos0)
    requires forall i :: 0 <= i < |ms| ==> ValidMethod(dex, ms[i])
    ensures ok ==> Knows(dex, seen + SetOf(ms), saw, codes, infos)
    ensures !ok ==> Conflict(seen, ms)
  {
    saw, codes, infos := saw0, codes0, infos0;
    assert seen + SetOf(ms[..0]) == seen;
    for i := 0 to |ms|
      invariant Knows(dex, seen + SetOf(ms[..i]), saw, codes, infos)
    {
      var m := ms[i];
      var info := DebugInfo(dex, m);
      if saw[m.id] {
        if codes[m.id] != m.code || infos[m.id] != info {
          assert SeenId(seen + SetOf(ms[..i]), m.id);
          ghost var a :| a in seen + SetOf(ms[..i]) && a.id == m.id;
          assert Noted(dex, a, saw, codes, infos);
          assert a.code != m.code;
          assert m in ms && (a in seen || a in ms);
          return false, saw, codes, infos;
        }
      }
      assert ms[..i + 1] == ms[..i] + [m];
      assert seen + SetOf(ms[..i + 1]) == seen + SetOf(ms[..i]) + {m};
      KnowsMore(dex, seen + SetOf(ms[..i]), m, saw, codes, infos);
      codes := codes[m.id := m.code];
      infos := infos[m.id := info];
      saw := saw[m.id := true];
    }
    assert ms[..|ms|] == ms;
    ok := true;
  }

  lemma KnowsMore(dex: Dex, seen: set<Method>, m: Method, saw: seq<bool>, codes: seq<Option<nat>>,
                  infos: seq<Option<nat>>)
    requires Knows(dex, seen, saw, codes, infos) && ValidMethod(dex, m)
    requires saw[m.id] ==> codes[m.id] == m.code && infos[m.id] == DebugInfo(dex, m)
    ensures Knows(dex, seen + {m}, saw[m.id := true], codes[m.id := m.code], infos[m.id := DebugInfo(dex, m)])
  {
    forall a | a in seen + {m}
      ensures ValidMethod(dex, a)
      ensures Noted(dex, a, saw[m.id := true], codes[m.id := m.code], infos[m.id := DebugInfo(dex, m)])
    {
      if a in seen {
        assert Noted(dex, a, saw, codes, infos);
      }
    }
    forall id | 0 <= id < dex.methodIds && saw[m.id := true][id] ensures SeenId(seen + {m}, id) {
      if id != m.id {
        assert SeenId(seen, id);
        var a :| a in seen && a.id == id;
        assert a in seen + {m};
      } else {
        assert m in seen + {m} && m.id == id;
      }
    }
  }

  /** The methods of the first n classes, of one kind. */
  ghost function SeenIn(dex: Dex, virtuals: bool, n: nat): (s: set<Method>)
    requires n <= |dex.classes|
    ensures forall m :: m in s <==> exists c :: 0 <= c < n && m in MethodsOf(dex.classes[c], virtuals)
  {
    if n == 0 then {} else SeenIn(dex, virtuals, n - 1) + SetOf(MethodsOf(dex.classes[n - 1], virtuals))
  }

  lemma SeenAreDefined(dex: Dex, virtuals: bool, n: nat, m: Method)
    requires n <= |dex.classes| && m in SeenIn(dex, virtuals, n)
    ensures Defines(dex, m)
  {
    var c :| 0 <= c < n && m in MethodsOf(dex.classes[c], virtuals);
  }

  /** What a pass has seen when it comes to class c. */
  lemma AllDefined(dex: Dex, virtuals: bool, c: nat)
    requires Valid(dex) && c < |dex.classes|
    ensures forall m :: m in SeenIn(dex, virtuals, c) || m in SeenIn(dex, false, |dex.classes|) ==> Defines(dex, m)
    ensures var ms := MethodsOf(dex.classes[c], virtuals);
            forall i :: 0 <= i < |ms| ==> ValidMethod(dex, ms[i]) && Defines(dex, ms[i])
  {
    hide Defines, ValidMethod;
    forall m | m in SeenIn(dex, virtuals, c) || m in SeenIn(dex, false, |dex.classes|) ensures Defines(dex, m) {
      if m in SeenIn(dex, virtuals, c) { SeenAreDefined(dex, virtuals, c, m); }
      else { SeenAreDefined(dex, false, |dex.classes|, m); }
    }
    var ms := MethodsOf(dex.classes[c], virtuals);
    forall i | 0 <= i < |ms| ensures Defines(dex, ms[i]) {
      assert ms[i] in SeenIn(dex, virtuals, c + 1);
      SeenAreDefined(dex, virtuals, c + 1, ms[i]);
    }
  }

  lemma DefinedAreSeen(dex: Dex, m: Method)
    requires Defines(dex, m)
    ensures m in SeenIn(dex, false, |dex.classes|) + SeenIn(dex, true, |dex.classes|)
  {
    var c, virtuals :| 0 <= c < |dex.classes| && m in MethodsOf(dex.classes[c], virtuals);
    if virtuals {
      assert m in SeenIn(dex, true, |dex.classes|);
    } else {
      assert m in SeenIn(dex, false, |dex.classes|);
    }
  }

  lemma ConflictFound(dex: Dex, seen: set<Method>, c: nat, virtuals: bool)
    requires c < |dex.classes| && Conflict(seen, MethodsOf(dex.classes[c], virtuals))
    requires forall m :: m in seen ==> Defines(dex, m)
    ensures !Consistent(dex)
  {
    var ms := MethodsOf(dex.classes[c], virtuals);
    var a, b :| (a in seen || a in ms) && b in ms && a.id == b.id && a.code != b.code;
    assert Defines(dex, a) && Defines(dex, b);
  }

  /** Compact dex can be generated exactly when no two methods of one id disagree. */
  method CanGenerateCompactDex(dex: Dex) returns (ok: bool)
    requires Valid(dex)
    ensures ok <==> Consistent(dex)
  {
    hide Consistent, Defines;
    var saw := seq(dex.methodIds, _ => false);
    var codes: seq<Option<nat>> := seq(dex.methodIds, _ => None);
    var infos: seq<Option<nat>> := seq(dex.methodIds, _ => None);
    ghost var direct := SeenIn(dex, false, |dex.classes|);
    for pass := 0 to 2
      invariant Knows(dex,
                      if pass == 0 then {} else if pass == 1 then direct else direct + SeenIn(dex, true, |dex.classes|),
                      saw, codes, infos)
    {
      ghost var before := if pass == 0 then {} else direct;
      assert before + SeenIn(dex, pass == 1, 0) == before;
      for c := 0 to |dex.classes|
        invariant Knows(dex, before + SeenIn(dex, pass == 1, c), saw, codes, infos)
      {
        var ms := MethodsOf(dex.classes[c], pass == 1);
        ghost var seen := before + SeenIn(dex, pass == 1, c);
        ok, saw, codes, infos := CheckMethods(dex, ms, seen, saw, codes, infos);
        if !ok {
          AllDefined(dex, pass == 1, c);
          ConflictFound(dex, seen, c, pass == 1);
          return;
        }
        assert seen + SetOf(ms) == before + SeenIn(dex, pass == 1, c + 1);
      }
      assert pass == 0 ==> before + SeenIn(dex, false, |dex.classes|) == direct;
    }
    ok := true;
    AllKnown(dex, saw, codes, infos);
  }

  lemma AllKnown(dex: Dex, saw: seq<bool>, codes: seq<Option<nat>>, infos: seq<Option<nat>>)
    requires Knows(dex, SeenIn(dex, false, |dex.classes|) + SeenIn(dex, true, |dex.classes|), saw, codes, infos)
    ensures Consistent(dex)
  {
    forall a, b | Defines(dex, a) && Defines(dex, b) && a.id == b.id ensures a.code == b.code {
      DefinedAreSeen(dex, a);
      DefinedAreSeen(dex, b);
      assert Noted(dex, a, saw, codes, infos) && Noted(dex, b, saw, codes, infos);
    }
  }

  // ---- WriteDebugInfoOffsetTable

  function DebugOffset(dex: Dex, m: Method): (o: Option<nat>)
    requires Valid(dex) && ValidMethod(dex, m)
  {
    var d := DebugInfo(dex, m);
    if d.None? then None else Some(dex.offsets[d.value])
  }

  /** The offsets of the methods in `seen`, and nothing else. */
  ghost predicate Holds(dex: Dex, seen: set<Method>, offsets: seq<nat>)
    requires Valid(dex)
  {
    && |offsets| == dex.methodIds && Table.Small(offsets)
    && (forall m :: m in seen && ValidMethod(dex, m) && DebugOffset(dex, m).Some? ==>
          offsets[m.id] == DebugOffset(dex, m).value)
    && (forall id :: 0 <= id < |offsets| && offsets[id] != 0 ==> HasOffset(dex, seen, id, offsets[id]))
  }

  ghost predicate HasOffset(dex: Dex, seen: set<Method>, id: nat, offset: nat)
    requires Valid(dex)
  {
    exists m :: m in seen && ValidMethod(dex, m) && m.id == id && DebugOffset(dex, m) == Some(offset)
  }

  method NoteOffsets(dex: Dex, ms: seq<Method>, ghost seen: set<Method>, offsets0: seq<nat>) returns (offsets: seq<nat>)
    requires Valid(dex) && Consistent(dex) && Holds(dex, seen, offsets0)
    requires forall m :: m in seen ==> Defines(dex, m)
    requires forall i :: 0 <= i < |ms| ==> ValidMethod(dex, ms[i]) && Defines(dex, ms[i])
    ensures Holds(dex, seen + SetOf(ms), offsets)
  {
    hide Valid, Defines, Consistent;
    offsets := offsets0;
    assert seen + SetOf(ms[..0]) == seen;
    for i := 0 to |ms|
      invariant Holds(dex, seen + SetOf(ms[..i]), offsets)
    {
      var m := ms[i];
      ghost var before := seen + SetOf(ms[..i]);
      assert ms[..i + 1] == ms[..i] + [m];
      assert seen + SetOf(ms[..i + 1]) == before + {m};
      var offset := DebugOffset(dex, m);
      if offset.Some? {
        if offsets[m.id] != 0 {
          SameOffset(dex, before, m, offsets[m.id]);
          // The conflicting-offset check.
          assert offset.value == offsets[m.id];
        }
        OneMore(dex, before, m, offsets);
        offsets := offsets[m.id := offset.value];
      } else {
        NoneMore(dex, before, m, offsets);
      }
    }
    assert ms[..|ms|] == ms;
  }

  lemma SameOffset(dex: Dex, seen: set<Method>, m: Method, offset: nat)
    requires Valid(dex) && Consistent(dex) && Defines(dex, m) && ValidMethod(dex, m)
    requires HasOffset(dex, seen, m.id, offset)
    requires forall a :: a in seen ==> Defines(dex, a)
    ensures DebugOffset(dex, m) == Some(offset)
  {
    hide Valid, Defines;
    var a :| a in seen && ValidMethod(dex, a) && a.id == m.id && DebugOffset(dex, a) == Some(offset);
    assert a.code == m.code;
  }

  lemma OneMore(dex: Dex, seen: set<Method>, m: Method, offsets: seq<nat>)
    requires Valid(dex) && Holds(dex, seen, offsets) && ValidMethod(dex, m) && DebugOffset(dex, m).Some?
    requires offsets[m.id] != 0 ==> DebugOffset(dex, m).value == offsets[m.id]
    requires Consistent(dex) && Defines(dex, m) && forall a :: a in seen ==> Defines(dex, a)
    ensures Holds(dex, seen + {m}, offsets[m.id := DebugOffset(dex, m).value])
  {
    var offsets' := offsets[m.id := DebugOffset(dex, m).value];
    hide Defines;
    forall a | a in seen + {m} && ValidMethod(dex, a) && DebugOffset(dex, a).Some?
      ensures offsets'[a.id] == DebugOffset(dex, a).value
    {
      if a.id == m.id {
        assert a.code == m.code;
      }
    }
    forall id: nat | id < |offsets'| && offsets'[id] != 0 ensures HasOffset(dex, seen + {m}, id, offsets'[id]) {
      if id == m.id {
        assert m in seen + {m};
      } else {
        assert HasOffset(dex, seen, id, offsets[id]);
        var a :| a in seen && ValidMethod(dex, a) && a.id == id && DebugOffset(dex, a) == Some(offsets[id]);
        assert a in seen + {m};
      }
    }
  }

  lemma NoneMore(dex: Dex, seen: set<Method>, m: Method, offsets: seq<nat>)
    requires Valid(dex) && Holds(dex, seen, offsets) && ValidMethod(dex, m) && DebugOffset(dex, m).None?
    ensures Holds(dex, seen + {m}, offsets)
  {
    hide Valid;
    forall id: nat | id < |offsets| && offsets[id] != 0 ensures HasOffset(dex, seen + {m}, id, offsets[id]) {
      assert HasOffset(dex, seen, id, offsets[id]);
      var a :| a in seen && ValidMethod(dex, a) && a.id == id && DebugOffset(dex, a) == Some(offsets[id]);
      assert a in seen + {m};
    }
  }

  method DebugInfoOffsets(dex: Dex) returns (offsets: seq<nat>)
    requires Valid(dex) && Consistent(dex)
    ensures Holds(dex, SeenIn(dex, false, |dex.classes|) + SeenIn(dex, true, |dex.classes|), offsets)
  {
    hide Consistent, Defines, Holds, Valid, MethodsOf;
    offsets := seq(dex.methodIds, _ => 0);
    NoOffsets(dex);
    ghost var direct := SeenIn(dex, false, |dex.classes|);
    for pass := 0 to 2
      invariant Holds(dex,
                      if pass == 0 then {} else if pass == 1 then direct else direct + SeenIn(dex, true, |dex.classes|),
                      offsets)
    {
      ghost var before := if pass == 0 then {} else direct;
      assert before + SeenIn(dex, pass == 1, 0) == before;
      for c := 0 to |dex.classes|
        invariant Holds(dex, before + SeenIn(dex, pass == 1, c), offsets)
      {
        var ms := MethodsOf(dex.classes[c], pass == 1);
        ghost var seen := before + SeenIn(dex, pass == 1, c);
        AllDefined(dex, pass == 1, c);
        offsets := NoteOffsets(dex, ms, seen, offsets);
        assert seen + SetOf(ms) == before + SeenIn(dex, pass == 1, c + 1);
      }
      assert pass == 0 ==> before + SeenIn(dex, false, |dex.classes|) == direct;
    }
  }

  lemma NoOffsets(dex: Dex)
    requires Valid(dex)
    ensures Holds(dex, {}, seq(dex.methodIds, _ => 0))
  {
  }

  /**
   The table that is written: for every method id the offset of the debug info of the
   methods with that id, or 0 if there is none.
   */
  method WriteDebugInfoOffsetTable(dex: Dex) returns (data: seq<byte>, base: nat, table: nat)
    requires Valid(dex) && Consistent(dex)
    ensures |data| < TWO_TO_THE_32 ==>
              forall m :: Defines(dex, m) && ValidMethod(dex, m) && DebugOffset(dex, m).Some? ==>
              Table.GetOffset(data, base, table, m.id) == DebugOffset(dex, m)
    ensures |data| < TWO_TO_THE_32 ==> forall id :: 0 <= id < dex.methodIds ==>
              (Table.GetOffset(data, base, table, id) == Some(0)
               || exists m :: Defines(dex, m) && ValidMethod(dex, m) && m.id == id && DebugOffset(dex, m).Some?
                              && Table.GetOffset(data, base, table, id) == DebugOffset(dex, m))
  {
    hide Consistent, Valid, Table.GetOffset;
    var offsets := DebugInfoOffsets(dex);
    ghost var seen := SeenIn(dex, false, |dex.classes|) + SeenIn(dex, true, |dex.classes|);
    data, base, table := Table.Build(offsets);
    if |data| < TWO_TO_THE_32 {
      forall m | Defines(dex, m) && ValidMethod(dex, m) && DebugOffset(dex, m).Some?
        ensures Table.GetOffset(data, base, table, m.id) == DebugOffset(dex, m)
      {
        DefinedAreSeen(dex, m);
      }
      forall id: nat | id < dex.methodIds
        ensures Table.GetOffset(data, base, table, id) == Some(0)
                || exists m :: Defines(dex, m) && ValidMethod(dex, m) && m.id == id && DebugOffset(dex, m).Some?
                               && Table.GetOffset(data, base, table, id) == DebugOffset(dex, m)
      {
        if offsets[id] != 0 {
          assert HasOffset(dex, seen, id, offsets[id]);
          var m :| m in seen && ValidMethod(dex, m) && m.id == id && DebugOffset(dex, m) == Some(offsets[id]);
          if m in SeenIn(dex, true, |dex.classes|) {
            SeenAreDefined(dex, true, |dex.classes|, m);
          } else {
            SeenAreDefined(dex, false, |dex.classes|, m);
          }
        }
      }
    }
  }
}
