// Flattening a struct tag into the dotted paths of its numeric leaves.
module Expand {
  import opened Bytes
  import opened Text
  import opened TagRecords
  import opened Templates

  type Leaves = seq<(bytes, uint16)>

  // BOOL .. UDINT, REAL and LREAL; LWORD (0xC9) is not one of them.
  predicate IsNumericType(code: uint16) { 0xC1 <= code <= 0xC8 || code == 0xCA || code == 0xCB }

  // A ranking witnesses that no type contains itself: the types of its struct members rank lower. An
  // unknown type is where the recursion ends at once.
  type Ranking = uint16 -> nat

  ghost function Level(udts: UdtTable, rank: Ranking, id: uint16): nat {
    if id in udts then rank(id) + 1 else 0
  }

  ghost predicate Below(udts: UdtTable, rank: Ranking, fields: seq<UdtField>, bound: nat) {
    fields == []
    || ((fields[0].isStruct ==> Level(udts, rank, fields[0].dataTypeValue) < bound)
        && Below(udts, rank, fields[1..], bound))
  }

  ghost predicate Acyclic(udts: UdtTable, rank: Ranking) {
    forall id | id in udts :: Below(udts, rank, udts[id].fields, Level(udts, rank, id))
  }

  // ---- what the recursion computes ----

  ghost function ExpandType(udts: UdtTable, rank: Ranking, prefix: bytes, id: uint16): Leaves
    requires Acyclic(udts, rank)
    decreases Level(udts, rank, id), 1, 0
  {
    if id !in udts then [] else ExpandFields(udts, rank, prefix, udts[id].fields, Level(udts, rank, id))
  }

  ghost function ExpandField(udts: UdtTable, rank: Ranking, prefix: bytes, f: UdtField, bound: nat): Leaves
    requires Acyclic(udts, rank)
    requires f.isStruct ==> Level(udts, rank, f.dataTypeValue) < bound
    decreases bound, 0, 0
  {
    var name := prefix + [DOT] + f.name;
    if f.isStruct then ExpandType(udts, rank, name, f.dataTypeValue)
    else if IsNumericType(f.symbolType) then [(name, f.symbolType as int)]
    else []
  }

  ghost function ExpandFields(udts: UdtTable, rank: Ranking, prefix: bytes, fields: seq<UdtField>, bound: nat): Leaves
    requires Acyclic(udts, rank) && Below(udts, rank, fields, bound)
    decreases bound, 0, |fields| + 1
  {
    if fields == [] then []
    else ExpandField(udts, rank, prefix, fields[0], bound) + ExpandFields(udts, rank, prefix, fields[1..], bound)
  }

  // The recursive helper appends to `result`, which C++ passes by reference.
  method ExpandMembers(udts: UdtTable, ghost rank: Ranking, prefix: bytes, typeId: uint16, result: Leaves)
    returns (out: Leaves)
    requires Acyclic(udts, rank)
    ensures out == result + ExpandType(udts, rank, prefix, typeId)
    decreases Level(udts, rank, typeId)
  {
    hide Acyclic;
    out := result;
    if typeId !in udts {
      return;
    }
    var fields := udts[typeId].fields;
    ghost var bound := Level(udts, rank, typeId);
    FieldsAreBelow(udts, rank, typeId);
    assert fields[0..] == fields;
    for i := 0 to |fields|
      invariant Below(udts, rank, fields[i..], bound)
      invariant result + ExpandType(udts, rank, prefix, typeId)
             == out + ExpandFields(udts, rank, prefix, fields[i..], bound)
    {
      var field := fields[i];
      ghost var before := out;
      assert fields[i..][0] == field && fields[i..][1..] == fields[i + 1..];
      var fullName := prefix + [DOT] + field.name;
      if field.isStruct {
        out := ExpandMembers(udts, rank, fullName, field.dataTypeValue, out);
      } else if IsNumericType(field.symbolType) {
        out := out + [(fullName, field.symbolType as int)];
      }
      assert out == before + ExpandField(udts, rank, prefix, field, bound);
      Regroup(before, ExpandField(udts, rank, prefix, field, bound),
              ExpandFields(udts, rank, prefix, fields[i + 1..], bound));
    }
    assert fields[|fields|..] == [];
  }

  lemma FieldsAreBelow(udts: UdtTable, rank: Ranking, id: uint16)
    requires Acyclic(udts, rank) && id in udts
    ensures Below(udts, rank, udts[id].fields, Level(udts, rank, id))
  {
  }

  ghost function ExpandTag(udts: UdtTable, rank: Ranking, tag: TagInfo): Leaves
    requires Acyclic(udts, rank)
  {
    if tag.isStruct then ExpandType(udts, rank, tag.name, tag.dataTypeValue)
    else if IsNumericType(tag.symbolType) then [(tag.name, tag.symbolType as int)]
    else []
  }

  method ExpandStructMembers(udts: UdtTable, ghost rank: Ranking, tag: TagInfo) returns (result: Leaves)
    requires Acyclic(udts, rank)
    ensures result == ExpandTag(udts, rank, tag)
  {
    result := [];
    if tag.isStruct {
      result := ExpandMembers(udts, rank, tag.name, tag.dataTypeValue, result);
    } else if IsNumericType(tag.symbolType) {
      result := result + [(tag.name, tag.symbolType as int)];
    }
  }
}
