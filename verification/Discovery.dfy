// From symbol table to leaves: resolving the types of the tags found and then expanding a struct tag.
module Discovery {
  import opened Bytes
  import opened TagRecords
  import opened Templates
  import opened TagBrowser
  import Expand
  import LeafPaths

  // The PLC's own types, and how it serves each of them.
  type ServedTypes = map<uint16, Served>

  function TypesOf(served: ServedTypes): LeafPaths.TypeTable { map id | id in served :: served[id].t }

  // Every type is served, and so are the types of all its struct members.
  ghost predicate ServesAllTypes(peer: Peer, served: ServedTypes) {
    forall id | id in served ::
      ServesType(peer, id, served[id]) && Known(id, served[id].t).nested <= served.Keys
  }

  // Every definition kept has the definitions of all its member types beside it.
  ghost predicate NothingMissing(served: ServedTypes, udts: UdtTable) {
    forall id | id in udts :: id in served && Known(id, served[id].t).nested <= udts.Keys
  }

  lemma ServedIsFetched(peer: Peer, served: ServedTypes, id: uint16)
    requires Progressive(peer) && ServesAllTypes(peer, served) && id in served
    ensures Fetch(peer, id) == Some(Known(id, served[id].t))
  {
    FetchServed(peer, id, served[id]);
  }

  lemma {:induction false} WalkStaysServed(peer: Peer, roots: set<uint16>, served: ServedTypes, p: seq<uint16>)
    requires Progressive(peer) && ServesAllTypes(peer, served) && roots <= served.Keys
    requires Walk(peer, roots, p)
    ensures p[|p| - 1] in served
  {
    hide Fetch, ServesType, Known;
    if |p| > 1 {
      var q := p[..|p| - 1];
      forall i | 0 < i < |q| ensures StepsTo(peer, q[i - 1], q[i]) { assert StepsTo(peer, p[i - 1], p[i]); }
      WalkStaysServed(peer, roots, served, q);
      assert StepsTo(peer, p[|p| - 2], p[|p| - 1]);
      ServedIsFetched(peer, served, p[|p| - 2]);
    }
  }

  // What resolving leaves behind is the PLC's own types, with nothing missing.
  lemma ResolvedMirrors(peer: Peer, roots: set<uint16>, served: ServedTypes, udts: UdtTable)
    requires Progressive(peer) && ServesAllTypes(peer, served) && roots <= served.Keys
    requires Resolved(peer, roots, udts)
    ensures roots <= udts.Keys
    ensures LeafPaths.Mirrors(udts, TypesOf(served))
    ensures NothingMissing(served, udts)
  {
    hide Fetch, ServesType, Known;
    var types := TypesOf(served);
    forall id | id in roots ensures id in udts {
      ReachesRoot(peer, roots, id);
      ServedIsFetched(peer, served, id);
    }
    forall id | id in udts
      ensures id in types && udts[id] == Known(id, types[id]).udt
      ensures Known(id, types[id]).nested <= udts.Keys
    {
      var p :| Walk(peer, roots, p) && p[|p| - 1] == id;
      WalkStaysServed(peer, roots, served, p);
      ServedIsFetched(peer, served, id);
      forall n | n in Known(id, types[id]).nested ensures n in udts {
        ReachesStep(peer, roots, id, n);
        ServedIsFetched(peer, served, n);
      }
    }
    forall id, i | id in udts && 0 <= i < |types[id].members|
      ensures LeafPaths.MemberKnown(udts, types[id].members[i])
    {
      NestedHas(id, types[id], i);
    }
  }

  lemma NestedHas(id: uint16, t: PlcType, i: nat)
    requires i < |t.members|
    ensures IsStruct(t.members[i].typeWord) ==> DataType(t.members[i].typeWord) in Known(id, t).nested
  {
    MemberIsNested(t.members, i);
  }

  lemma {:induction false} MemberIsNested(ms: seq<PlcMember>, i: nat)
    requires i < |ms|
    ensures IsStruct(ms[i].typeWord) ==> DataType(ms[i].typeWord) in Nested(MembersAsFields(ms))
  {
    hide DataType, IsStruct;
    assert MembersAsFields(ms)[1..] == MembersAsFields(ms[1..]);
    if i > 0 { MemberIsNested(ms[1..], i - 1); }
  }

  // The main result of discovery. With every reachable type served and no type containing itself,
  // resolving the tags' types and expanding a struct tag lists exactly the dotted paths to the numeric
  // leaves of the PLC's own type, through members that are not internal, in depth-first order; and
  // the case of a missing definition never arises.
  lemma ResolveThenExpand(
    peer: Peer, tags: seq<TagInfo>, served: ServedTypes, rank: Expand.Ranking, udts: UdtTable, tag: TagInfo)
    requires Progressive(peer) && ServesAllTypes(peer, served) && StructTypes(tags) <= served.Keys
    requires LeafPaths.TypesOk(TypesOf(served), rank)
    requires Resolved(peer, StructTypes(tags), udts)
    requires tag in tags && tag.isStruct
    ensures Expand.Acyclic(udts, rank)
    ensures exists ps ::
      && LeafPaths.ListsLeaves(TypesOf(served), tag.dataTypeValue, ps)
      && Expand.ExpandTag(udts, rank, tag) == LeafPaths.Entries(TypesOf(served), tag.name, tag.dataTypeValue, ps)
    ensures tag.dataTypeValue in udts && NothingMissing(served, udts)
  {
    hide Fetch, Known, ServesAllTypes, Resolved, LeafPaths.Mirrors, LeafPaths.TypesOk, LeafPaths.ListsLeaves;
    ResolvedMirrors(peer, StructTypes(tags), served, udts);
    TagTypeIsRoot(tags, tag);
    LeafPaths.ExpandListsLeaves(udts, TypesOf(served), rank, tag.name, tag.dataTypeValue);
  }

  // The definitions kept have no cycles, so every tag can be expanded.
  lemma Expandable(
    peer: Peer, tags: seq<TagInfo>, served: ServedTypes, rank: Expand.Ranking, udts: UdtTable)
    requires Progressive(peer) && ServesAllTypes(peer, served) && StructTypes(tags) <= served.Keys
    requires LeafPaths.TypesOk(TypesOf(served), rank)
    requires Resolved(peer, StructTypes(tags), udts)
    ensures Expand.Acyclic(udts, rank)
  {
    hide Fetch, Known, ServesAllTypes, Resolved, LeafPaths.Mirrors, LeafPaths.TypesOk;
    ResolvedMirrors(peer, StructTypes(tags), served, udts);
    LeafPaths.MirrorsAreAcyclic(udts, TypesOf(served), rank);
  }

  lemma {:induction false} TagTypeIsRoot(tags: seq<TagInfo>, tag: TagInfo)
    requires tag in tags && tag.isStruct
    ensures tag.dataTypeValue in StructTypes(tags)
  {
    if tag != tags[0] { TagTypeIsRoot(tags[1..], tag); }
  }
}
