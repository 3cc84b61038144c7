/**
 Items keep their identity through a file: no two of a kind have the same offset, so a
 reader that makes one object for each offset makes one for each item, in the order they had.
 */
module Sharing {
  import opened Bytes
  import opened ByteStream
  import opened SectionWriter
  import opened Builder
  import opened CodeItems
  import opened DexIr
  import opened DexWriter
  import opened DexTree
  import Debug = DebugStream

  lemma FirstFieldIn(r: Record, offs: Offsets)
    requires r != [] && EncField(r[0], offs) != []
    ensures EncRecord(r, offs) != []
  {
    hide EncField;
    EncFieldsPart(r, 0, |r|, offs);
  }

  lemma StreamsAreNotEmpty(bs: seq<byte>)
    requires Debug.StreamSize(bs) == Some(|bs|)
    ensures bs != []
  {
  }

  /** There is something of every item in the file. */
  lemma {:induction false} RecordNotEmpty(ir: Ir, offs: Offsets, kind: Kind, i: nat)
    requires FitsItems(ir) && i < |RecordsOf(ir, kind)| && |RecordsOf(ir, kind)| > 1
    ensures EncRecord(RecordsOf(ir, kind)[i], offs) != []
  {
    hide EncRecord, FitsCode, FitsArray, FitsAnnotation, FitsDirectory, FitsTypes, Debug.StreamSize, OffsetOf,
         HiddenClasses, UnitBytes, PostBytes, FieldItemsFields, MethodItemsFields, MemberAnnotationFields;
    if kind == DebugInfos {
      StreamsAreNotEmpty(ir.debugInfos[i]);
    }
    FirstFieldIn(RecordsOf(ir, kind)[i], offs);
  }

  lemma {:induction false} PositionsGrow(s: Section, i: nat, j: nat, p: nat, offs: Offsets)
    requires i < j < |s.records| && EncRecord(s.records[i], offs) != []
    ensures Position(s, i, p, offs) < Position(s, j, p, offs)
  {
    hide EncRecord, PadLen;
    var before := SecBytes(s, i, p, offs);
    assert SecBytes(s, i + 1, p, offs)
         == before + Zeros(PadLen(p + |before|, s.alignment)) + EncRecord(s.records[i], offs);
    hide SecBytes;
    SecBytesPrefix(s, i + 1, j, p, offs);
  }

  /** The offsets of the items of a kind ascend. */
  lemma {:induction false} OffsetsAscend(ir: Ir, offs: Offsets, kind: Kind)
    requires Resolved(ir, offs) && FitsItems(ir)
    ensures kind in offs && |offs[kind]| == |RecordsOf(ir, kind)| && Ascending(offs[kind])
  {
    hide RecordsOf, Image, Rank, Resolved, FitsItems, Position, EncRecord;
    ResolvedAt(ir, offs, kind);
    var s, p := SectionOf(ir, kind), |Image(ir, Rank(kind), offs)|;
    forall i, j | 0 <= i < j < |s.records| ensures offs[kind][i] < offs[kind][j] {
      RecordNotEmpty(ir, offs, kind, i);
      PositionsAt(s, i, p, offs);
      PositionsAt(s, j, p, offs);
      PositionsGrow(s, i, j, p, offs);
    }
  }

  /** Ascending sequences with the same elements are the same. */
  lemma {:induction false} AscendingUnique(a: seq<nat>, b: seq<nat>)
    requires Ascending(a) && Ascending(b) && forall x :: x in a <==> x in b
    ensures a == b
    decreases |a|
  {
    assert b != [] ==> b[0] in b;
    if a != [] {
      var (m, n) := (|a| - 1, |b| - 1);
      assert a[m] in b;
      assert b[n] in a;
      assert a[m] == b[n];
      forall x ensures x in a[..m] <==> x in b[..n] {
        if x in a[..m] { assert x in b; }
        if x in b[..n] { assert x in a; }
      }
      AscendingUnique(a[..m], b[..n]);
    }
  }

  /**
   The references of a written file, read one after the other: two of them give one object exactly if
   they are to the same item, and if every item is referred to, the vector that is left at the end has
   the objects in the order in which the IR had its items.
   */
  method ReadReferences(ir: Ir, offs: Offsets, kind: Kind, refs: seq<nat>)
    returns (objects: seq<Item>, vector: seq<Item>)
    requires Resolved(ir, offs) && FitsItems(ir) && forall i :: 0 <= i < |refs| ==> refs[i] < |RecordsOf(ir, kind)|
    ensures |objects| == |refs|
    ensures forall i, j :: 0 <= i < |refs| && 0 <= j < |refs| ==> (objects[i] == objects[j] <==> refs[i] == refs[j])
    ensures (forall k: nat :: k < |RecordsOf(ir, kind)| ==> k in refs) ==>
              && |vector| == |RecordsOf(ir, kind)|
              && forall i :: 0 <= i < |refs| ==> vector[refs[i]] == objects[i]
  {
    hide RecordsOf, Resolved, FitsItems;
    OffsetsAscend(ir, offs, kind);
    var os := offs[kind];
    var offsets := seq(|refs|, i requires 0 <= i < |refs| => os[refs[i]]);
    ghost var keys;
    objects, vector, keys := ReadAll(offsets);
    if forall k: nat :: k < |os| ==> k in refs {
      forall x ensures x in keys <==> x in os {
        if x in os {
          var k :| 0 <= k < |os| && os[k] == x;
          assert k in refs;
          var i :| 0 <= i < |refs| && refs[i] == k;
          assert offsets[i] == x;
        }
      }
      AscendingUnique(keys, os);
    }
  }
}
