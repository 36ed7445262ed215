/**
 * The GraphQL resolvers over the watcher snapshots (pkg/graph/schema.resolvers.go):
 * the join that replaces a program's stub maps by the maps snapshot's records,
 * and the two list queries.
 */
module SchemaResolvers {
  import opened Bytes
  import opened Wrappers
  import opened Decimal
  import opened GraphHelpers
  import C = Capabilities
  import P = ProgsState
  import M = LegacyMaps

  // ---------------------------------------------------------------- the ID index

  /** `goodMaps` after its loop: every record keyed by its ID, a later record replacing an earlier one. */
  function GoodMaps(ms: seq<M.MapInfo>): map<uint32, M.MapInfo>
    decreases |ms|
  {
    if ms == [] then map[] else GoodMaps(ms[..|ms| - 1])[ms[|ms| - 1].id := ms[|ms| - 1]]
  }

  /** An ID is indexed exactly when some record has it, and it is indexed to the last record that has it. */
  lemma {:induction false} GoodMapsLastWins(ms: seq<M.MapInfo>, id: uint32)
    ensures id in GoodMaps(ms) <==> exists i :: 0 <= i < |ms| && ms[i].id == id
    ensures id in GoodMaps(ms) ==>
      exists i :: 0 <= i < |ms| && ms[i].id == id && GoodMaps(ms)[id] == ms[i] &&
                  forall j :: i < j < |ms| ==> ms[j].id != id
    decreases |ms|
  {
    if ms != [] {
      var init := ms[..|ms| - 1];
      var last := ms[|ms| - 1];
      GoodMapsLastWins(init, id);
      if last.id != id {
        if id in GoodMaps(init) {
          var i :| 0 <= i < |init| && init[i].id == id && GoodMaps(init)[id] == init[i] &&
                   forall j :: i < j < |init| ==> init[j].id != id;
          assert ms[i] == init[i];
          forall j | i < j < |ms|
            ensures ms[j].id != id
          {
            if j < |init| { assert ms[j] == init[j]; }
          }
        }
        if exists i :: 0 <= i < |ms| && ms[i].id == id {
          var i :| 0 <= i < |ms| && ms[i].id == id;
          assert i < |init| && init[i] == ms[i];
        }
      } else {
        assert ms[|ms| - 1].id == id;
      }
    }
  }

  /** The loop that builds `goodMaps`. */
  method IndexMaps(ms: seq<M.MapInfo>) returns (good: map<uint32, M.MapInfo>)
    ensures good == GoodMaps(ms)
  {
    good := map[];
    var i := 0;
    while i < |ms|
      invariant 0 <= i <= |ms|
      invariant good == GoodMaps(ms[..i])
    {
      assert ms[..i + 1][..i] == ms[..i];
      good := good[ms[i].id := ms[i]];
      i := i + 1;
    }
    assert ms[..|ms|] == ms;
  }

  // ---------------------------------------------------------------- programResolver.Maps

  /** "map with ID <id> not found". */
  function NotFoundMessage(id: int): Text
  {
    Ascii("map with ID ") + Itoa(id) + Ascii(" not found")
  }

  /** One slot after the join: the slot's ID, converted to a map ID as Go does (low 32 bits), is looked up. */
  function JoinSlot(typeName: C.MapType -> Text, good: map<uint32, M.MapInfo>, m: ApiMap): ApiMap
  {
    var key: uint32 := m.id % TwoTo32;
    if key in good then MapInfoToModel(typeName, good[key]) else BareMap(m.id, Some(NotFoundMessage(m.id)))
  }

  function Joined(typeName: C.MapType -> Text, good: map<uint32, M.MapInfo>, slots: seq<ApiMap>): (r: seq<ApiMap>)
    ensures |r| == |slots| && forall i :: 0 <= i < |slots| ==> r[i] == JoinSlot(typeName, good, slots[i])
  {
    seq(|slots|, i requires 0 <= i < |slots| => JoinSlot(typeName, good, slots[i]))
  }

  /**
   * programResolver.Maps: index the snapshot, then overwrite each slot of the program's own map list in
   * place; the list itself is the answer, and no error is ever returned.
   */
  method ProgramMaps(typeName: C.MapType -> Text, snapshot: seq<M.MapInfo>, slots: array<ApiMap>)
    returns (result: array<ApiMap>)
    modifies slots
    ensures result == slots
    ensures slots[..] == Joined(typeName, GoodMaps(snapshot), old(slots[..]))
  {
    var good := IndexMaps(snapshot);
    var i := 0;
    while i < slots.Length
      invariant 0 <= i <= slots.Length
      invariant forall k :: 0 <= k < i ==> slots[k] == JoinSlot(typeName, good, old(slots[k]))
      invariant forall k :: i <= k < slots.Length ==> slots[k] == old(slots[k])
    {
      slots[i] := JoinSlot(typeName, good, slots[i]);
      i := i + 1;
    }
    return slots;
  }

  /**
   * For slots holding map IDs (as the stubs of progInfoToModel do) the join keeps length, order and IDs;
   * a slot becomes the converted last snapshot record with its ID, or the not-found error when no record has it.
   */
  lemma JoinedSlots(typeName: C.MapType -> Text, snapshot: seq<M.MapInfo>, slots: seq<ApiMap>, i: nat)
    requires i < |slots| && 0 <= slots[i].id < TwoTo32
    ensures var r := Joined(typeName, GoodMaps(snapshot), slots);
      |r| == |slots| && r[i].id == slots[i].id &&
      ((forall k :: 0 <= k < |snapshot| ==> snapshot[k].id != slots[i].id) ==>
         r[i] == BareMap(slots[i].id, Some(NotFoundMessage(slots[i].id)))) &&
      ((exists k :: 0 <= k < |snapshot| && snapshot[k].id == slots[i].id) ==>
         exists k :: 0 <= k < |snapshot| && snapshot[k].id == slots[i].id && r[i] == MapInfoToModel(typeName, snapshot[k]) &&
                     forall j :: k < j < |snapshot| ==> snapshot[j].id != slots[i].id)
  {
    var key: uint32 := slots[i].id % TwoTo32;
    assert key == slots[i].id;
    GoodMapsLastWins(snapshot, key);
  }

  /** A program's stub list joined against the snapshot: one object per map the program uses, in order, under its ID. */
  lemma JoinProgramStubs(typeName: C.MapType -> Text, snapshot: seq<M.MapInfo>, ids: seq<uint32>)
    ensures var r := Joined(typeName, GoodMaps(snapshot), StubMaps(ids));
      |r| == |ids| && forall j :: 0 <= j < |ids| ==> r[j].id == ids[j]
  {
    var stubs := StubMaps(ids);
    forall j | 0 <= j < |ids|
      ensures Joined(typeName, GoodMaps(snapshot), stubs)[j].id == ids[j]
    {
      JoinedSlots(typeName, snapshot, stubs, j);
    }
  }

  // ---------------------------------------------------------------- the list queries

  /** queryResolver.Programs: one converted object per record, in order. */
  method Programs(typeName: P.ProgType -> Text, progs: seq<P.ProgInfo>) returns (result: seq<ApiProgram>)
    requires forall p :: p in progs ==> Convertible(p)
    ensures |result| == |progs|
    ensures forall i :: 0 <= i < |progs| ==> result[i] == ProgramModel(typeName, progs[i])
  {
    var arr := new ApiProgram[|progs|](_ => BareProgram(0, []));
    var i := 0;
    while i < |progs|
      invariant 0 <= i <= |progs|
      invariant forall k :: 0 <= k < i ==> arr[k] == ProgramModel(typeName, progs[k])
    {
      arr[i] := ProgInfoToModel(typeName, progs[i]);
      i := i + 1;
    }
    result := arr[..];
  }

  /** queryResolver.Maps: one converted object per record, in order. */
  method Maps(typeName: C.MapType -> Text, emaps: seq<M.MapInfo>) returns (result: seq<ApiMap>)
    ensures |result| == |emaps|
    ensures forall i :: 0 <= i < |emaps| ==> result[i] == MapInfoToModel(typeName, emaps[i])
  {
    var arr := new ApiMap[|emaps|](_ => BareMap(0, None));
    var i := 0;
    while i < |emaps|
      invariant 0 <= i <= |emaps|
      invariant forall k :: 0 <= k < i ==> arr[k] == MapInfoToModel(typeName, emaps[k])
    {
      arr[i] := MapInfoToModel(typeName, emaps[i]);
      i := i + 1;
    }
    result := arr[..];
  }
}
