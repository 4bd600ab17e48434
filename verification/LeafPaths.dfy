// The numeric leaves of a struct type as the PLC sees them, and the proof that flattening the
// fetched definitions lists exactly those.
module LeafPaths {
  import opened Bytes
  import opened Text
  import opened TagRecords
  import opened Templates
  import opened Expand
  import CipPath

  type TypeTable = map<uint16, PlcType>

  // A leaf is reached by choosing a member, then a member of that member's type, and so on.
  type Path = seq<nat>

  // The elementary types that hold a number, by their CIP type codes: BOOL, SINT, INT, DINT, LINT, USINT,
  // UINT, UDINT, REAL and LREAL.
  const NUMERIC: set<int> := {0xC1, 0xC2, 0xC3, 0xC4, 0xC5, 0xC6, 0xC7, 0xC8, 0xCA, 0xCB}

  // Members that the PLC adds for its own use.
  predicate IsHidden(name: bytes) { Ascii("__") <= name }

  // The client tells both apart as the PLC means them.
  lemma ClientAgrees(code: uint16, name: bytes)
    ensures IsNumericType(code) <==> code as int in NUMERIC
    ensures IsInternalName(name) <==> IsHidden(name)
  {
    assert Ascii("__") == [95, 95];
    assert IsHidden(name) <==> |name| >= 2 && name[..2] == [95, 95];
    assert |name| >= 2 ==> name[..2] == [name[0], name[1]];
  }

  // LWORD, STRING and the struct marker are not numbers.
  lemma NotNumeric()
    ensures !IsNumericType(0xC9) && !IsNumericType(0xDA) && !IsNumericType(0xA0)
  {
    ClientAgrees(0xC9, []);
    ClientAgrees(0xDA, []);
    ClientAgrees(0xA0, []);
  }

  // A tag that is no struct is listed itself if it holds a number, and not at all otherwise.
  lemma PlainTag(udts: UdtTable, rank: Ranking, tag: TagInfo)
    requires Acyclic(udts, rank) && !tag.isStruct
    ensures ExpandTag(udts, rank, tag)
         == if tag.symbolType as int in NUMERIC then [(tag.name, tag.symbolType as int)] else []
  {
    ClientAgrees(tag.symbolType, []);
  }

  predicate IsLeaf(types: TypeTable, id: uint16, p: Path)
    decreases |p|
  {
    && p != [] && id in types && p[0] < |types[id].members|
    && var m := types[id].members[p[0]];
       && !IsHidden(m.name)
       && (if IsStruct(m.typeWord) then IsLeaf(types, DataType(m.typeWord), p[1..])
           else |p| == 1 && SymbolType(m.typeWord) as int in NUMERIC)
  }

  // What the user sees for a leaf: ".Member.SubMember", and its type code.
  function DottedName(types: TypeTable, id: uint16, p: Path): bytes
    decreases |p|
  {
    if p == [] || id !in types || p[0] >= |types[id].members| then []
    else
      var m := types[id].members[p[0]];
      Ascii(".") + m.name + DottedName(types, DataType(m.typeWord), p[1..])
  }

  function LeafType(types: TypeTable, id: uint16, p: Path): uint16
    decreases |p|
  {
    if p == [] || id !in types || p[0] >= |types[id].members| then 0
    else
      var m := types[id].members[p[0]];
      if |p| == 1 then SymbolType(m.typeWord) else LeafType(types, DataType(m.typeWord), p[1..])
  }

  function Entries(types: TypeTable, prefix: bytes, id: uint16, ps: seq<Path>): Leaves {
    if ps == [] then []
    else [(prefix + DottedName(types, id, ps[0]), LeafType(types, id, ps[0]))] + Entries(types, prefix, id, ps[1..])
  }

  // Depth-first order: members by declaration, a member's own leaves before the next member's.
  predicate LexLess(a: Path, b: Path) {
    b != [] && (a == [] || a[0] < b[0] || (a[0] == b[0] && LexLess(a[1..], b[1..])))
  }

  predicate Ascending(ps: seq<Path>) {
    forall i, j | 0 <= i < j < |ps| :: LexLess(ps[i], ps[j])
  }

  // The path list that says it all: every leaf, no other path, each once, in order.
  ghost predicate ListsLeaves(types: TypeTable, id: uint16, ps: seq<Path>) {
    Ascending(ps) && forall p :: p in ps <==> IsLeaf(types, id, p)
  }

  // Struct members have a type in the table, of lower rank.
  ghost predicate MemberOk(types: TypeTable, rank: Ranking, id: uint16, m: PlcMember) {
    !IsInternalName(m.name) && IsStruct(m.typeWord) ==>
      DataType(m.typeWord) in types && rank(DataType(m.typeWord)) < rank(id)
  }

  ghost predicate TypesOk(types: TypeTable, rank: Ranking) {
    forall id, i | id in types && 0 <= i < |types[id].members| :: MemberOk(types, rank, id, types[id].members[i])
  }

  // ---- enumerating the leaves ----

  function Under(i: nat, ps: seq<Path>): (qs: seq<Path>)
    ensures |qs| == |ps| && forall k | 0 <= k < |ps| :: qs[k] == [i] + ps[k]
  {
    if ps == [] then [] else [[i] + ps[0]] + Under(i, ps[1..])
  }

  ghost function Paths(types: TypeTable, rank: Ranking, id: uint16): seq<Path>
    requires TypesOk(types, rank) && id in types
    decreases rank(id), 1, 0
  {
    PathsFrom(types, rank, id, 0)
  }

  ghost function PathsOfMember(types: TypeTable, rank: Ranking, id: uint16, i: nat): seq<Path>
    requires TypesOk(types, rank) && id in types && i < |types[id].members|
    decreases rank(id), 0, 0
  {
    var m := types[id].members[i];
    assert MemberOk(types, rank, id, m);
    if IsInternalName(m.name) then []
    else if IsStruct(m.typeWord) then Under(i, Paths(types, rank, DataType(m.typeWord)))
    else if IsNumericType(SymbolType(m.typeWord)) then [[i]]
    else []
  }

  ghost function PathsFrom(types: TypeTable, rank: Ranking, id: uint16, i: nat): seq<Path>
    requires TypesOk(types, rank) && id in types
    decreases rank(id), 0, |types[id].members| + 1 - i
  {
    if i >= |types[id].members| then []
    else PathsOfMember(types, rank, id, i) + PathsFrom(types, rank, id, i + 1)
  }

  // ---- they are all leaves, all the leaves, and in order ----

  lemma UnderContains(i: nat, ps: seq<Path>, p: Path)
    ensures p in Under(i, ps) <==> p != [] && p[0] == i && p[1..] in ps
  {
    var qs := Under(i, ps);
    if p in qs {
      var k :| 0 <= k < |qs| && qs[k] == p;
      assert p[1..] == ps[k];
    }
    if p != [] && p[0] == i && p[1..] in ps {
      var k :| 0 <= k < |ps| && ps[k] == p[1..];
      assert qs[k] == [i] + p[1..] == p;
    }
  }

  lemma {:induction false} PathsAreLeaves(types: TypeTable, rank: Ranking, id: uint16, p: Path)
    requires TypesOk(types, rank) && id in types
    ensures p in Paths(types, rank, id) <==> IsLeaf(types, id, p)
    decreases rank(id), 1, 0
  {
    PathsFromAreLeaves(types, rank, id, 0, p);
  }

  lemma {:induction false} MemberPathsAreLeaves(types: TypeTable, rank: Ranking, id: uint16, i: nat, p: Path)
    requires TypesOk(types, rank) && id in types && i < |types[id].members|
    ensures p in PathsOfMember(types, rank, id, i) <==> p != [] && p[0] == i && IsLeaf(types, id, p)
    decreases rank(id), 0, 0
  {
    var m := types[id].members[i];
    assert MemberOk(types, rank, id, m);
    if !IsInternalName(m.name) && IsStruct(m.typeWord) {
      ClientAgrees(0, m.name);
      UnderContains(i, Paths(types, rank, DataType(m.typeWord)), p);
      if p != [] { PathsAreLeaves(types, rank, DataType(m.typeWord), p[1..]); }
    } else {
      ClientAgrees(SymbolType(m.typeWord), m.name);
      assert p != [] && p[0] == i && |p| == 1 ==> p == [i];
    }
  }

  lemma {:induction false} PathsFromAreLeaves(types: TypeTable, rank: Ranking, id: uint16, i: nat, p: Path)
    requires TypesOk(types, rank) && id in types
    ensures p in PathsFrom(types, rank, id, i) <==> p != [] && p[0] >= i && IsLeaf(types, id, p)
    decreases rank(id), 0, |types[id].members| + 1 - i
  {
    if i < |types[id].members| {
      MemberPathsAreLeaves(types, rank, id, i, p);
      PathsFromAreLeaves(types, rank, id, i + 1, p);
    }
  }

  lemma {:induction false} PathsAscend(types: TypeTable, rank: Ranking, id: uint16)
    requires TypesOk(types, rank) && id in types
    ensures Ascending(Paths(types, rank, id))
    decreases rank(id), 1, 0
  {
    PathsFromAscend(types, rank, id, 0);
  }

  lemma {:induction false} MemberPathsAscend(types: TypeTable, rank: Ranking, id: uint16, i: nat)
    requires TypesOk(types, rank) && id in types && i < |types[id].members|
    ensures Ascending(PathsOfMember(types, rank, id, i))
    decreases rank(id), 0, 0
  {
    var m := types[id].members[i];
    assert MemberOk(types, rank, id, m);
    if !IsInternalName(m.name) && IsStruct(m.typeWord) {
      PathsAscend(types, rank, DataType(m.typeWord));
      UnderAscends(i, Paths(types, rank, DataType(m.typeWord)));
    }
  }

  lemma UnderAscends(i: nat, ps: seq<Path>)
    requires Ascending(ps)
    ensures Ascending(Under(i, ps))
  {
  }

  lemma {:induction false} PathsFromAscend(types: TypeTable, rank: Ranking, id: uint16, i: nat)
    requires TypesOk(types, rank) && id in types
    ensures Ascending(PathsFrom(types, rank, id, i))
    decreases rank(id), 0, |types[id].members| + 1 - i
  {
    if i < |types[id].members| {
      MemberPathsAscend(types, rank, id, i);
      PathsFromAscend(types, rank, id, i + 1);
      var a, b := PathsOfMember(types, rank, id, i), PathsFrom(types, rank, id, i + 1);
      forall x, y | 0 <= x < |a| && 0 <= y < |b| ensures LexLess(a[x], b[y]) {
        MemberPathsAreLeaves(types, rank, id, i, a[x]);
        PathsFromAreLeaves(types, rank, id, i + 1, b[y]);
      }
      AscendingConcat(a, b);
    }
  }

  lemma AscendingConcat(a: seq<Path>, b: seq<Path>)
    requires Ascending(a) && Ascending(b)
    requires forall x, y | 0 <= x < |a| && 0 <= y < |b| :: LexLess(a[x], b[y])
    ensures Ascending(a + b)
  {
  }

  lemma PathsListLeaves(types: TypeTable, rank: Ranking, id: uint16)
    requires TypesOk(types, rank) && id in types
    ensures ListsLeaves(types, id, Paths(types, rank, id))
  {
    PathsAscend(types, rank, id);
    forall p: Path ensures p in Paths(types, rank, id) <==> IsLeaf(types, id, p) {
      PathsAreLeaves(types, rank, id, p);
    }
  }

  // ---- the order leaves no choice ----

  lemma {:induction false} LexLessAsymmetric(a: Path, b: Path)
    requires LexLess(a, b)
    ensures !LexLess(b, a) && a != b
  {
    if a != [] && a[0] == b[0] { LexLessAsymmetric(a[1..], b[1..]); }
  }

  lemma FirstIsLeast(ps: seq<Path>, qs: seq<Path>)
    requires Ascending(ps) && Ascending(qs) && ps != [] && qs != []
    requires ps[0] in qs && qs[0] in ps
    ensures ps[0] == qs[0]
  {
    var i :| 0 <= i < |qs| && qs[i] == ps[0];
    var j :| 0 <= j < |ps| && ps[j] == qs[0];
    if i > 0 && j > 0 { LexLessAsymmetric(qs[0], ps[0]); }
  }

  lemma HasFirst(ps: seq<Path>)
    ensures ps == [] <==> forall p: Path :: p !in ps
  {
    if ps != [] { assert ps[0] in ps; }
  }

  // There is only one list of a type's leaves.
  lemma {:induction false} ListOfLeavesIsUnique(ps: seq<Path>, qs: seq<Path>)
    requires Ascending(ps) && Ascending(qs)
    requires forall p :: p in ps <==> p in qs
    ensures ps == qs
  {
    if ps == [] || qs == [] {
      HasFirst(ps);
      HasFirst(qs);
    } else {
      assert ps[0] in qs && qs[0] in ps;
      FirstIsLeast(ps, qs);
      forall p: Path ensures p in ps[1..] <==> p in qs[1..] {
        TailContains(ps, p);
        TailContains(qs, p);
      }
      ListOfLeavesIsUnique(ps[1..], qs[1..]);
      assert ps == [ps[0]] + ps[1..] && qs == [qs[0]] + qs[1..];
    }
  }

  lemma TailContains(ps: seq<Path>, p: Path)
    requires Ascending(ps) && ps != []
    ensures p in ps[1..] <==> p in ps && p != ps[0]
  {
    if p in ps[1..] {
      var k :| 0 <= k < |ps[1..]| && ps[1..][k] == p;
      LexLessAsymmetric(ps[0], ps[k + 1]);
    }
    if p in ps && p != ps[0] {
      var k :| 0 <= k < |ps| && ps[k] == p;
      assert ps[1..][k - 1] == p;
    }
  }

  // ---- the recursion over fetched definitions lists them ----

  ghost predicate MemberKnown(udts: UdtTable, m: PlcMember) {
    !IsInternalName(m.name) && IsStruct(m.typeWord) ==> DataType(m.typeWord) in udts
  }

  // The client's definitions are the PLC's types as fetched, and no member type is missing.
  ghost predicate Mirrors(udts: UdtTable, types: TypeTable) {
    && (forall id | id in udts :: id in types && udts[id] == Known(id, types[id]).udt)
    && (forall id, i | id in udts && 0 <= i < |types[id].members| :: MemberKnown(udts, types[id].members[i]))
  }

  function FieldOfMember(m: PlcMember): UdtField { FieldOf(m.name, m.info, m.typeWord) }

  // The definition's fields from member i on: member i unless it is internal, then the rest.
  function FieldsOfType(t: PlcType, i: nat): seq<UdtField>
    requires i <= |t.members|
  {
    Listed(MembersAsFields(t.members[i..]))
  }

  lemma FieldsUpTo(t: PlcType, i: nat)
    requires i < |t.members|
    ensures FieldsOfType(t, i) == Kept(FieldOfMember(t.members[i])) + FieldsOfType(t, i + 1)
  {
  }

  lemma AllFields(t: PlcType)
    ensures FieldsOfType(t, |t.members|) == [] && FieldsOfType(t, 0) == Listed(MembersAsFields(t.members))
  {
  }

  lemma BelowKept(udts: UdtTable, rank: Ranking, f: UdtField, rest: seq<UdtField>, bound: nat)
    ensures Below(udts, rank, Kept(f) + rest, bound)
       <==> (!f.isInternal && f.isStruct ==> Level(udts, rank, f.dataTypeValue) < bound)
            && Below(udts, rank, rest, bound)
  {
    if f.isInternal {
      assert Kept(f) + rest == rest;
    } else {
      assert (Kept(f) + rest)[0] == f && (Kept(f) + rest)[1..] == rest;
    }
  }

  lemma MemberIsBelow(udts: UdtTable, types: TypeTable, rank: Ranking, id: uint16, i: nat)
    requires TypesOk(types, rank) && Mirrors(udts, types) && id in udts && i < |types[id].members|
    ensures var f := FieldOfMember(types[id].members[i]);
            !f.isInternal && f.isStruct ==> Level(udts, rank, f.dataTypeValue) < Level(udts, rank, id)
  {
  }

  lemma {:induction false} ListedAreBelow(udts: UdtTable, types: TypeTable, rank: Ranking, id: uint16, i: nat)
    requires TypesOk(types, rank) && Mirrors(udts, types) && id in udts && i <= |types[id].members|
    ensures Below(udts, rank, FieldsOfType(types[id], i), Level(udts, rank, id))
    decreases |types[id].members| - i
  {
    hide FieldsOfType, FieldOfMember, Level, Kept;
    AllFields(types[id]);
    if i < |types[id].members| {
      FieldsUpTo(types[id], i);
      MemberIsBelow(udts, types, rank, id, i);
      ListedAreBelow(udts, types, rank, id, i + 1);
      BelowKept(udts, rank, FieldOfMember(types[id].members[i]), FieldsOfType(types[id], i + 1), Level(udts, rank, id));
    }
  }

  lemma MirrorsAreAcyclic(udts: UdtTable, types: TypeTable, rank: Ranking)
    requires TypesOk(types, rank) && Mirrors(udts, types)
    ensures Acyclic(udts, rank)
  {
    forall id | id in udts ensures Below(udts, rank, udts[id].fields, Level(udts, rank, id)) {
      ListedAreBelow(udts, types, rank, id, 0);
      AllFields(types[id]);
    }
  }

  lemma {:induction false} EntriesConcat(types: TypeTable, prefix: bytes, id: uint16, a: seq<Path>, b: seq<Path>)
    ensures Entries(types, prefix, id, a + b) == Entries(types, prefix, id, a) + Entries(types, prefix, id, b)
  {
    hide DottedName, LeafType;
    if a == [] {
      assert a + b == b;
    } else {
      assert (a + b)[1..] == a[1..] + b;
      EntriesConcat(types, prefix, id, a[1..], b);
    }
  }

  lemma {:induction false} EntriesUnder(types: TypeTable, prefix: bytes, id: uint16, i: nat, ps: seq<Path>)
    requires id in types && i < |types[id].members|
    requires forall k | 0 <= k < |ps| :: ps[k] != []
    ensures var m := types[id].members[i];
            Entries(types, prefix, id, Under(i, ps))
            == Entries(types, prefix + [DOT] + m.name, DataType(m.typeWord), ps)
  {
    if ps != [] {
      var m, q := types[id].members[i], [i] + ps[0];
      assert q[1..] == ps[0];
      var sub := DottedName(types, DataType(m.typeWord), ps[0]);
      assert DottedName(types, id, q) == [DOT] + m.name + sub;
      assert prefix + ([DOT] + m.name + sub) == prefix + [DOT] + m.name + sub;
      assert LeafType(types, id, q) == LeafType(types, DataType(m.typeWord), ps[0]);
      EntriesUnder(types, prefix, id, i, ps[1..]);
      assert Under(i, ps)[0] == q && Under(i, ps)[1..] == Under(i, ps[1..]);
    }
  }

  lemma {:induction false} ExpandIsEntries(
    udts: UdtTable, types: TypeTable, rank: Ranking, prefix: bytes, id: uint16)
    requires TypesOk(types, rank) && Mirrors(udts, types) && Acyclic(udts, rank) && id in udts
    ensures ExpandType(udts, rank, prefix, id) == Entries(types, prefix, id, Paths(types, rank, id))
    decreases rank(id), 1, 0
  {
    AllFields(types[id]);
    ExpandFromIsEntries(udts, types, rank, prefix, id, 0);
  }

  lemma {:induction false} ExpandMemberIsEntries(
    udts: UdtTable, types: TypeTable, rank: Ranking, prefix: bytes, id: uint16, i: nat, f: UdtField)
    requires TypesOk(types, rank) && Mirrors(udts, types) && Acyclic(udts, rank) && id in udts
    requires i < |types[id].members| && !IsInternalName(types[id].members[i].name)
    requires f == FieldOfMember(types[id].members[i])
    ensures f.isStruct ==> Level(udts, rank, f.dataTypeValue) < Level(udts, rank, id)
    ensures ExpandField(udts, rank, prefix, f, Level(udts, rank, id))
         == Entries(types, prefix, id, PathsOfMember(types, rank, id, i))
    decreases rank(id), 0, 0
  {
    var m := types[id].members[i];
    assert MemberOk(types, rank, id, m) && MemberKnown(udts, m);
    if IsStruct(m.typeWord) {
      var sub := DataType(m.typeWord);
      var ps := Paths(types, rank, sub);
      ExpandIsEntries(udts, types, rank, prefix + [DOT] + m.name, sub);
      forall k | 0 <= k < |ps| ensures ps[k] != [] { PathsAreLeaves(types, rank, sub, ps[k]); }
      EntriesUnder(types, prefix, id, i, ps);
    } else if IsNumericType(SymbolType(m.typeWord)) {
      LeafEntry(types, prefix, id, i);
    }
  }

  lemma LeafEntry(types: TypeTable, prefix: bytes, id: uint16, i: nat)
    requires id in types && i < |types[id].members|
    ensures var m := types[id].members[i];
            Entries(types, prefix, id, [[i]]) == [(prefix + [DOT] + m.name, SymbolType(m.typeWord) as int)]
  {
    var m := types[id].members[i];
    assert [i][1..] == [];
    assert DottedName(types, id, [i]) == [DOT] + m.name + [];
    assert prefix + ([DOT] + m.name + []) == prefix + [DOT] + m.name;
    assert [[i]][1..] == [];
  }

  lemma ExpandKept(udts: UdtTable, rank: Ranking, prefix: bytes, f: UdtField, rest: seq<UdtField>, bound: nat)
    requires Acyclic(udts, rank) && Below(udts, rank, rest, bound)
    requires !f.isInternal && f.isStruct ==> Level(udts, rank, f.dataTypeValue) < bound
    ensures Below(udts, rank, Kept(f) + rest, bound)
    ensures ExpandFields(udts, rank, prefix, Kept(f) + rest, bound)
         == (if f.isInternal then [] else ExpandField(udts, rank, prefix, f, bound))
            + ExpandFields(udts, rank, prefix, rest, bound)
  {
    BelowKept(udts, rank, f, rest, bound);
    if f.isInternal {
      assert Kept(f) + rest == rest;
    } else {
      assert (Kept(f) + rest)[0] == f && (Kept(f) + rest)[1..] == rest;
    }
  }

  lemma {:induction false} ExpandFromIsEntries(
    udts: UdtTable, types: TypeTable, rank: Ranking, prefix: bytes, id: uint16, i: nat)
    requires TypesOk(types, rank) && Mirrors(udts, types) && Acyclic(udts, rank) && id in udts
    requires i <= |types[id].members|
    ensures var fs, bound := FieldsOfType(types[id], i), Level(udts, rank, id);
            && Below(udts, rank, fs, bound)
            && ExpandFields(udts, rank, prefix, fs, bound) == Entries(types, prefix, id, PathsFrom(types, rank, id, i))
    decreases rank(id), 0, |types[id].members| + 1 - i
  {
    hide FieldsOfType, Kept, Level, Entries, Acyclic;
    ListedAreBelow(udts, types, rank, id, i);
    AllFields(types[id]);
    if i < |types[id].members| {
      var f, rest, bound := FieldOfMember(types[id].members[i]), FieldsOfType(types[id], i + 1), Level(udts, rank, id);
      var here, later := PathsOfMember(types, rank, id, i), PathsFrom(types, rank, id, i + 1);
      FieldsUpTo(types[id], i);
      MemberIsBelow(udts, types, rank, id, i);
      ExpandFromIsEntries(udts, types, rank, prefix, id, i + 1);
      EntriesConcat(types, prefix, id, here, later);
      ExpandKept(udts, rank, prefix, f, rest, bound);
      if f.isInternal {
        NoEntries(types, prefix, id);
      } else {
        ExpandMemberIsEntries(udts, types, rank, prefix, id, i, f);
      }
    } else {
      NoEntries(types, prefix, id);
    }
  }

  lemma NoEntries(types: TypeTable, prefix: bytes, id: uint16)
    ensures Entries(types, prefix, id, []) == []
  {
  }

  // ---- no two leaves share a name or a path ----

  predicate UsableName(m: PlcMember) {
    IsInternalName(m.name) || CipPath.WellFormed(CipPath.Component(m.name, None))
  }

  // Member names fit a symbolic segment and tell the members of a type apart.
  ghost predicate NamesOk(types: TypeTable) {
    forall id | id in types ::
      && (forall i | 0 <= i < |types[id].members| :: UsableName(types[id].members[i]))
      && (forall i, j | 0 <= i < j < |types[id].members| :: types[id].members[i].name != types[id].members[j].name)
  }

  function Components(types: TypeTable, id: uint16, p: Path): seq<CipPath.Component>
    decreases |p|
  {
    if p == [] || id !in types || p[0] >= |types[id].members| then []
    else
      var m := types[id].members[p[0]];
      [CipPath.Component(m.name, None)] + Components(types, DataType(m.typeWord), p[1..])
  }

  lemma {:induction false} PrintedSnoc(cs: seq<CipPath.Component>, c: CipPath.Component)
    ensures CipPath.Printed(cs + [c]) == CipPath.Printed(cs) + [CipPath.PrintComponent(c)]
  {
  }

  lemma {:induction false} NameIsPrinted(types: TypeTable, id: uint16, p: Path, pre: seq<CipPath.Component>)
    requires pre != []
    ensures CipPath.PrintPath(pre) + DottedName(types, id, p) == CipPath.PrintPath(pre + Components(types, id, p))
    decreases |p|
  {
    hide CipPath.PrintComponent, Join, Ascii;
    CipPath.PunctuationIs();
    if p == [] || id !in types || p[0] >= |types[id].members| {
      assert pre + [] == pre && CipPath.PrintPath(pre) + [] == CipPath.PrintPath(pre);
    } else {
      var m := types[id].members[p[0]];
      var c, rest := CipPath.Component(m.name, None), Components(types, DataType(m.typeWord), p[1..]);
      PrintedSnoc(pre, c);
      JoinSnoc(CipPath.Printed(pre), CipPath.PrintComponent(c), DOT);
      PlainName(m.name);
      NameIsPrinted(types, DataType(m.typeWord), p[1..], pre + [c]);
      assert pre + [c] + rest == pre + ([c] + rest);
      var sub := DottedName(types, DataType(m.typeWord), p[1..]);
      assert CipPath.PrintPath(pre) + ([DOT] + m.name + sub) == CipPath.PrintPath(pre) + [DOT] + m.name + sub;
    }
  }

  lemma PlainName(name: bytes)
    ensures CipPath.PrintComponent(CipPath.Component(name, None)) == name
  {
  }

  lemma {:induction false} ComponentsTellLeavesApart(types: TypeTable, id: uint16, p: Path, q: Path)
    requires NamesOk(types) && IsLeaf(types, id, p) && IsLeaf(types, id, q)
    ensures forall k | 0 <= k < |Components(types, id, p)| :: CipPath.WellFormed(Components(types, id, p)[k])
    ensures Components(types, id, p) == Components(types, id, q) ==> p == q
    decreases |p|
  {
    var m, n := types[id].members[p[0]], types[id].members[q[0]];
    assert UsableName(m);
    var cp, cq := Components(types, id, p), Components(types, id, q);
    var sp, sq := Components(types, DataType(m.typeWord), p[1..]), Components(types, DataType(n.typeWord), q[1..]);
    assert cp[1..] == sp && cq[1..] == sq;
    if IsStruct(m.typeWord) {
      ComponentsTellLeavesApart(types, DataType(m.typeWord), p[1..], if p[0] == q[0] then q[1..] else p[1..]);
    } else {
      assert p[1..] == [] && sp == [];
    }
    if cp == cq {
      assert cp[0] == cq[0] && m.name == n.name;
      assert p[0] == q[0];
      assert p == [p[0]] + p[1..] && q == [q[0]] + q[1..];
    }
  }

  predicate AllWellFormed(cs: seq<CipPath.Component>) {
    forall k | 0 <= k < |cs| :: CipPath.WellFormed(cs[k])
  }

  // Two different leaves of a tag have different names, and their requests carry different bytes.
  lemma LeavesAreTellable(types: TypeTable, id: uint16, pre: seq<CipPath.Component>, p: Path, q: Path)
    requires NamesOk(types) && pre != [] && AllWellFormed(pre)
    requires IsLeaf(types, id, p) && IsLeaf(types, id, q) && p != q
    ensures var a := CipPath.PrintPath(pre) + DottedName(types, id, p);
            var b := CipPath.PrintPath(pre) + DottedName(types, id, q);
            && a != b
            && CipPath.SymbolicPath(a).Ok? && CipPath.SymbolicPath(b).Ok?
            && CipPath.SymbolicPath(a) != CipPath.SymbolicPath(b)
  {
    ComponentsTellLeavesApart(types, id, p, q);
    ComponentsTellLeavesApart(types, id, q, p);
    var cp, cq := pre + Components(types, id, p), pre + Components(types, id, q);
    NameIsPrinted(types, id, p, pre);
    NameIsPrinted(types, id, q, pre);
    CipPath.SymbolicRoundTrip(cp);
    CipPath.SymbolicRoundTrip(cq);
    assert cp[|pre|..] == Components(types, id, p) && cq[|pre|..] == Components(types, id, q);
  }

  // The whole meaning of expanding a struct tag: with the definitions mirroring the PLC's types, the
  // result is the tag's leaves, all of them and nothing else, in depth-first order.
  lemma ExpandListsLeaves(udts: UdtTable, types: TypeTable, rank: Ranking, prefix: bytes, id: uint16)
    requires TypesOk(types, rank) && Mirrors(udts, types) && id in udts
    ensures Acyclic(udts, rank)
    ensures exists ps ::
      ListsLeaves(types, id, ps) && ExpandType(udts, rank, prefix, id) == Entries(types, prefix, id, ps)
  {
    MirrorsAreAcyclic(udts, types, rank);
    ExpandIsEntries(udts, types, rank, prefix, id);
    PathsListLeaves(types, rank, id);
  }
}
