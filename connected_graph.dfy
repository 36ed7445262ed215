/**
 * The connected-graph query (pkg/graph/connected_graph.go): starting from one
 * program or one map, collect every program and map reachable through the
 * "program uses map" relation, in both directions, over the two snapshots.
 *
 * The Go code walks the graph with two mutually recursive closures guarded by
 * "already in the result"; here the walk is a worklist of pending nodes. The
 * result does not depend on the order of the walk (`ConnectedUnique`).
 */
module ConnectedGraph {
  import opened Bytes
  import opened Wrappers
  import opened Kernel
  import opened Snapshot
  import P = ProgsState
  import M = LegacyMaps

  /** model.IDType: what the query's ID names. */
  datatype IDType = IDTypeProgram | IDTypeMap | IDTypeOther(name: Text)

  datatype Node = ProgNode(id: uint32) | MapNode(id: uint32)

  /** `mapToProgs`: per map ID, the IDs of the programs that use it. */
  type ReverseIndex = map<uint32, seq<uint32>>

  /** The two result sets, keyed by ID. */
  datatype Graph = Graph(progs: map<uint32, P.ProgInfo>, maps: map<uint32, M.MapInfo>)

  function Refs(idx: ReverseIndex, m: uint32): seq<uint32>
  {
    if m in idx then idx[m] else []
  }

  // ---------------------------------------------------------------- the reverse index

  /** The program's ID appended under each map ID it lists, in order. */
  function AppendRefs(idx: ReverseIndex, mapIDs: seq<uint32>, pid: uint32): ReverseIndex
    decreases |mapIDs|
  {
    if mapIDs == [] then idx
    else
      var inner := AppendRefs(idx, mapIDs[..|mapIDs| - 1], pid);
      var m := mapIDs[|mapIDs| - 1];
      inner[m := Refs(inner, m) + [pid]]
  }

  /** The index after every program; a program without `Info` adds nothing. */
  function IndexOf(progs: seq<P.ProgInfo>): ReverseIndex
    decreases |progs|
  {
    if progs == [] then map[]
    else
      var last := progs[|progs| - 1];
      var idx := IndexOf(progs[..|progs| - 1]);
      if last.info.Some? then AppendRefs(idx, last.info.value.mapIDs, last.id) else idx
  }

  /** `pid` once for every time `m` occurs in `mapIDs`. */
  function Occurrences(mapIDs: seq<uint32>, m: uint32, pid: uint32): seq<uint32>
    decreases |mapIDs|
  {
    if mapIDs == [] then []
    else Occurrences(mapIDs[..|mapIDs| - 1], m, pid) + (if mapIDs[|mapIDs| - 1] == m then [pid] else [])
  }

  /** The programs that use `m`, in program order: what the index should hold for `m`. */
  function Referencing(progs: seq<P.ProgInfo>, m: uint32): seq<uint32>
    decreases |progs|
  {
    if progs == [] then []
    else
      var last := progs[|progs| - 1];
      Referencing(progs[..|progs| - 1], m) + (if last.info.Some? then Occurrences(last.info.value.mapIDs, m, last.id) else [])
  }

  /** The index's loops: every program with `Info`, every map ID it lists. */
  method BuildIndex(progs: seq<P.ProgInfo>) returns (idx: ReverseIndex)
    ensures idx == IndexOf(progs)
  {
    idx := map[];
    var i := 0;
    while i < |progs|
      invariant 0 <= i <= |progs|
      invariant idx == IndexOf(progs[..i])
    {
      var prog := progs[i];
      assert progs[..i + 1][..i] == progs[..i];
      if prog.info.Some? {
        var mapIDs := prog.info.value.mapIDs;
        ghost var before := idx;
        var j := 0;
        while j < |mapIDs|
          invariant 0 <= j <= |mapIDs|
          invariant idx == AppendRefs(before, mapIDs[..j], prog.id)
        {
          var m := mapIDs[j];
          assert mapIDs[..j + 1][..j] == mapIDs[..j];
          idx := idx[m := (if m in idx then idx[m] else []) + [prog.id]];
          j := j + 1;
        }
        assert mapIDs[..j] == mapIDs;
      }
      i := i + 1;
    }
    assert progs[..i] == progs;
  }

  /** Appending a program's references extends each map's list by that program, once per occurrence. */
  lemma {:induction false} AppendRefsEffect(idx: ReverseIndex, mapIDs: seq<uint32>, pid: uint32, m: uint32)
    ensures Refs(AppendRefs(idx, mapIDs, pid), m) == Refs(idx, m) + Occurrences(mapIDs, m, pid)
    decreases |mapIDs|
  {
    if mapIDs != [] {
      var init := mapIDs[..|mapIDs| - 1];
      AppendRefsEffect(idx, init, pid, m);
      if mapIDs[|mapIDs| - 1] == m {
        var a, b := Refs(idx, m), Occurrences(init, m, pid);
        assert (a + b) + [pid] == a + (b + [pid]);
      } else {
        assert Occurrences(mapIDs, m, pid) == Occurrences(init, m, pid) + [];
        assert Occurrences(init, m, pid) + [] == Occurrences(init, m, pid);
      }
    }
  }

  /** The index holds, for every map, the programs that use it in program order. */
  lemma {:induction false} IndexRefs(progs: seq<P.ProgInfo>, m: uint32)
    ensures Refs(IndexOf(progs), m) == Referencing(progs, m)
    decreases |progs|
  {
    if progs != [] {
      var last := progs[|progs| - 1];
      IndexRefs(progs[..|progs| - 1], m);
      if last.info.Some? {
        AppendRefsEffect(IndexOf(progs[..|progs| - 1]), last.info.value.mapIDs, last.id, m);
      } else {
        assert Referencing(progs, m) == Referencing(progs[..|progs| - 1], m) + [];
      }
    }
  }

  lemma {:induction false} OccurrencesMember(mapIDs: seq<uint32>, m: uint32, pid: uint32, x: uint32)
    ensures x in Occurrences(mapIDs, m, pid) <==> x == pid && m in mapIDs
    decreases |mapIDs|
  {
    if mapIDs != [] {
      var init := mapIDs[..|mapIDs| - 1];
      OccurrencesMember(init, m, pid, x);
      assert mapIDs == init + [mapIDs[|mapIDs| - 1]];
    }
  }

  /** A program ID is listed under `m` exactly when some program with that ID and with `Info` uses `m`. */
  lemma {:induction false} ReferencingMember(progs: seq<P.ProgInfo>, m: uint32, x: uint32)
    ensures x in Referencing(progs, m) <==>
      exists k :: 0 <= k < |progs| && progs[k].id == x && progs[k].info.Some? && m in progs[k].info.value.mapIDs
    decreases |progs|
  {
    if progs != [] {
      var init := progs[..|progs| - 1];
      var last := progs[|progs| - 1];
      ReferencingMember(init, m, x);
      if last.info.Some? {
        OccurrencesMember(last.info.value.mapIDs, m, last.id, x);
      }
      if x in Referencing(progs, m) {
        if x in Referencing(init, m) {
          var k :| 0 <= k < |init| && init[k].id == x && init[k].info.Some? && m in init[k].info.value.mapIDs;
          assert progs[k] == init[k];
        } else {
          assert progs[|progs| - 1] == last;
        }
      } else {
        forall k | 0 <= k < |progs|
          ensures !(progs[k].id == x && progs[k].info.Some? && m in progs[k].info.value.mapIDs)
        {
          if k < |init| { assert progs[k] == init[k]; }
        }
      }
    }
  }

  // ---------------------------------------------------------------- the graph

  function ProgRecord(progs: seq<P.ProgInfo>, id: uint32): Option<P.ProgInfo>
  {
    FindFirst(progs, P.IdOf, id)
  }

  function MapRecord(maps: seq<M.MapInfo>, id: uint32): Option<M.MapInfo>
  {
    FindFirst(maps, M.IdOf, id)
  }

  /** The node's ID is in its snapshot. */
  predicate Present(progs: seq<P.ProgInfo>, maps: seq<M.MapInfo>, n: Node)
  {
    match n
    case ProgNode(id) => ProgRecord(progs, id).Some?
    case MapNode(id) => MapRecord(maps, id).Some?
  }

  /**
   * The steps the closures take: from a program found in its snapshot and having `Info`, to each map
   * it lists; from a map found in its snapshot, to each program the index lists under it.
   */
  predicate Edge(progs: seq<P.ProgInfo>, maps: seq<M.MapInfo>, idx: ReverseIndex, a: Node, b: Node)
  {
    match a
    case ProgNode(id) =>
      b.MapNode? && ProgRecord(progs, id).Some? && ProgRecord(progs, id).value.info.Some? &&
      b.id in ProgRecord(progs, id).value.info.value.mapIDs
    case MapNode(id) =>
      b.ProgNode? && MapRecord(maps, id).Some? && b.id in Refs(idx, id)
  }

  predicate Visited(g: Graph, n: Node)
  {
    match n
    case ProgNode(id) => id in g.progs
    case MapNode(id) => id in g.maps
  }

  /** Both result sets hold records of their snapshot, under the record's own ID (the first record with it). */
  predicate Keyed(progs: seq<P.ProgInfo>, maps: seq<M.MapInfo>, g: Graph)
  {
    (forall id :: id in g.progs ==> ProgRecord(progs, id) == Some(g.progs[id])) &&
    (forall id :: id in g.maps ==> MapRecord(maps, id) == Some(g.maps[id]))
  }

  /** Every step out of a node in the result that ends at a node of a snapshot ends in the result. */
  ghost predicate Closed(progs: seq<P.ProgInfo>, maps: seq<M.MapInfo>, idx: ReverseIndex, g: Graph)
  {
    forall a, b :: Visited(g, a) && Edge(progs, maps, idx, a, b) && Present(progs, maps, b) ==> Visited(g, b)
  }

  /** A walk from the seed to `n`. */
  predicate PathTo(progs: seq<P.ProgInfo>, maps: seq<M.MapInfo>, idx: ReverseIndex, seed: Node, path: seq<Node>, n: Node)
  {
    |path| > 0 && path[0] == seed && path[|path| - 1] == n &&
    forall i :: 0 <= i < |path| - 1 ==> Edge(progs, maps, idx, path[i], path[i + 1])
  }

  ghost predicate Reachable(progs: seq<P.ProgInfo>, maps: seq<M.MapInfo>, idx: ReverseIndex, seed: Node, n: Node)
  {
    exists path :: PathTo(progs, maps, idx, seed, path, n)
  }

  /** What the closures compute from a seed: the seed if present, closed under the steps, and nothing unreachable. */
  ghost predicate ConnectedFrom(progs: seq<P.ProgInfo>, maps: seq<M.MapInfo>, idx: ReverseIndex, seed: Node, g: Graph)
  {
    Keyed(progs, maps, g) && Closed(progs, maps, idx, g) &&
    (Present(progs, maps, seed) ==> Visited(g, seed)) &&
    (forall n :: Visited(g, n) ==> Reachable(progs, maps, idx, seed, n))
  }

  // ---------------------------------------------------------------- the walk

  /** Nodes still on the worklist keep the closure open only through them. */
  ghost predicate Frontier(progs: seq<P.ProgInfo>, maps: seq<M.MapInfo>, idx: ReverseIndex, g: Graph, work: seq<Node>)
  {
    forall a, b :: Visited(g, a) && Edge(progs, maps, idx, a, b) && Present(progs, maps, b) ==> Visited(g, b) || b in work
  }

  /** Every pending or visited node has a recorded walk from the seed. */
  ghost predicate Witnessed(progs: seq<P.ProgInfo>, maps: seq<M.MapInfo>, idx: ReverseIndex, seed: Node,
                            g: Graph, work: seq<Node>, via: map<Node, seq<Node>>)
  {
    (forall n :: n in work ==> n in via) &&
    (forall n :: Visited(g, n) ==> n in via) &&
    (forall n :: n in via ==> PathTo(progs, maps, idx, seed, via[n], n))
  }

  function ProgIDs(progs: seq<P.ProgInfo>): set<uint32> { set p | p in progs :: p.id }
  function MapIDs(maps: seq<M.MapInfo>): set<uint32> { set m | m in maps :: m.id }

  /** How many snapshot IDs are not yet in the result: each insertion lowers it, so the walk ends on cycles too. */
  function Unvisited(progs: seq<P.ProgInfo>, maps: seq<M.MapInfo>, g: Graph): nat
  {
    |ProgIDs(progs) - g.progs.Keys| + |MapIDs(maps) - g.maps.Keys|
  }

  lemma DiffShrinks(u: set<uint32>, k: set<uint32>, x: uint32)
    requires x in u && x !in k
    ensures |u - (k + {x})| < |u - k|
  {
    assert u - k == (u - (k + {x})) + {x};
  }

  function MapNodes(ids: seq<uint32>): (r: seq<Node>)
    ensures |r| == |ids| && forall i :: 0 <= i < |ids| ==> r[i] == MapNode(ids[i])
  {
    seq(|ids|, i requires 0 <= i < |ids| => MapNode(ids[i]))
  }

  function ProgNodes(ids: seq<uint32>): (r: seq<Node>)
    ensures |r| == |ids| && forall i :: 0 <= i < |ids| ==> r[i] == ProgNode(ids[i])
  {
    seq(|ids|, i requires 0 <= i < |ids| => ProgNode(ids[i]))
  }

  /** A walk to `a` followed by a step from `a` is a walk to `b`. */
  lemma ExtendPath(progs: seq<P.ProgInfo>, maps: seq<M.MapInfo>, idx: ReverseIndex, seed: Node,
                   path: seq<Node>, a: Node, b: Node)
    requires PathTo(progs, maps, idx, seed, path, a) && Edge(progs, maps, idx, a, b)
    ensures PathTo(progs, maps, idx, seed, path + [b], b)
  {
    var q := path + [b];
    forall i | 0 <= i < |q| - 1
      ensures Edge(progs, maps, idx, q[i], q[i + 1])
    {
      if i < |path| - 1 {
        assert q[i] == path[i] && q[i + 1] == path[i + 1];
      } else {
        assert q[i] == a && q[i + 1] == b;
      }
    }
  }

  /** The nodes pushed after inserting `n`: exactly the nodes one step from it. */
  lemma Successors(progs: seq<P.ProgInfo>, maps: seq<M.MapInfo>, idx: ReverseIndex, n: Node, succs: seq<Node>)
    requires Present(progs, maps, n)
    requires n.ProgNode? ==>
      var p := ProgRecord(progs, n.id).value;
      succs == if p.info.Some? then MapNodes(p.info.value.mapIDs) else []
    requires n.MapNode? ==> succs == ProgNodes(Refs(idx, n.id))
    ensures forall b :: Edge(progs, maps, idx, n, b) <==> b in succs
  {
    forall b
      ensures Edge(progs, maps, idx, n, b) <==> b in succs
    {
      if Edge(progs, maps, idx, n, b) {
        var ids := if n.ProgNode? then ProgRecord(progs, n.id).value.info.value.mapIDs else Refs(idx, n.id);
        var i :| 0 <= i < |ids| && ids[i] == b.id;
        assert succs[i] == b;
      }
    }
  }

  /** What the walk keeps true between turns. */
  ghost predicate WalkInvariant(progs: seq<P.ProgInfo>, maps: seq<M.MapInfo>, idx: ReverseIndex, seed: Node,
                                g: Graph, work: seq<Node>, via: map<Node, seq<Node>>)
  {
    Keyed(progs, maps, g) && Frontier(progs, maps, idx, g, work) && Witnessed(progs, maps, idx, seed, g, work, via) &&
    (Present(progs, maps, seed) ==> Visited(g, seed) || seed in work)
  }

  /** Dropping a pending node that is already in the result, or not in its snapshot, keeps the invariant. */
  lemma SkipNode(progs: seq<P.ProgInfo>, maps: seq<M.MapInfo>, idx: ReverseIndex, seed: Node,
                 g: Graph, work: seq<Node>, via: map<Node, seq<Node>>)
    requires work != [] && WalkInvariant(progs, maps, idx, seed, g, work, via)
    requires Visited(g, work[|work| - 1]) || !Present(progs, maps, work[|work| - 1])
    ensures WalkInvariant(progs, maps, idx, seed, g, work[..|work| - 1], via)
  {
    var rest := work[..|work| - 1];
    assert work == rest + [work[|work| - 1]];
  }

  /** Inserting a pending node of its snapshot and pushing every step out of it keeps the invariant. */
  lemma InsertNode(progs: seq<P.ProgInfo>, maps: seq<M.MapInfo>, idx: ReverseIndex, seed: Node,
                   g: Graph, work: seq<Node>, via: map<Node, seq<Node>>, g': Graph, succs: seq<Node>)
    requires work != [] && WalkInvariant(progs, maps, idx, seed, g, work, via)
    requires Keyed(progs, maps, g')
    requires forall x :: Visited(g', x) <==> Visited(g, x) || x == work[|work| - 1]
    requires forall b :: Edge(progs, maps, idx, work[|work| - 1], b) <==> b in succs
    ensures WalkInvariant(progs, maps, idx, seed, g', work[..|work| - 1] + succs,
                          via + map b | b in succs :: via[work[|work| - 1]] + [b])
  {
    var n := work[|work| - 1];
    var rest := work[..|work| - 1];
    assert work == rest + [n];
    var work' := rest + succs;
    var via' := via + map b | b in succs :: via[n] + [b];
    forall a, b | Visited(g', a) && Edge(progs, maps, idx, a, b) && Present(progs, maps, b)
      ensures Visited(g', b) || b in work'
    {
      if a != n {
        assert Visited(g, a);
      }
    }
    forall x | x in via'
      ensures PathTo(progs, maps, idx, seed, via'[x], x)
    {
      if x in succs {
        ExtendPath(progs, maps, idx, seed, via[n], n, x);
      }
    }
  }

  /** Inserting a program found in its snapshot adds exactly its node and lowers the measure. */
  lemma AddProg(progs: seq<P.ProgInfo>, maps: seq<M.MapInfo>, g: Graph, id: uint32, p: P.ProgInfo)
    requires id !in g.progs && ProgRecord(progs, id) == Some(p)
    ensures forall x :: Visited(Graph(g.progs[id := p], g.maps), x) <==> Visited(g, x) || x == ProgNode(id)
    ensures Unvisited(progs, maps, Graph(g.progs[id := p], g.maps)) < Unvisited(progs, maps, g)
  {
    VisitedAfterAdd(g, Graph(g.progs[id := p], g.maps), ProgNode(id));
    FoundProgListed(progs, id, p);
    AddProgShrinks(progs, maps, g, id, p);
  }

  /** Inserting the record found under an ID keeps both result sets keyed. */
  lemma KeyedAfterAdd(progs: seq<P.ProgInfo>, maps: seq<M.MapInfo>, g: Graph, n: Node, g': Graph)
    requires Keyed(progs, maps, g)
    requires n.ProgNode? ==> ProgRecord(progs, n.id).Some? && g' == Graph(g.progs[n.id := ProgRecord(progs, n.id).value], g.maps)
    requires n.MapNode? ==> MapRecord(maps, n.id).Some? && g' == Graph(g.progs, g.maps[n.id := MapRecord(maps, n.id).value])
    ensures Keyed(progs, maps, g')
  {
  }

  /** Inserting a map found in its snapshot adds exactly its node and lowers the measure. */
  lemma AddMap(progs: seq<P.ProgInfo>, maps: seq<M.MapInfo>, g: Graph, id: uint32, m: M.MapInfo)
    requires id !in g.maps && MapRecord(maps, id) == Some(m)
    ensures forall x :: Visited(Graph(g.progs, g.maps[id := m]), x) <==> Visited(g, x) || x == MapNode(id)
    ensures Unvisited(progs, maps, Graph(g.progs, g.maps[id := m])) < Unvisited(progs, maps, g)
  {
    VisitedAfterAdd(g, Graph(g.progs, g.maps[id := m]), MapNode(id));
    FoundMapListed(maps, id, m);
    AddMapShrinks(progs, maps, g, id, m);
  }

  lemma VisitedAfterAdd(g: Graph, g': Graph, n: Node)
    requires n.ProgNode? ==> g'.progs.Keys == g.progs.Keys + {n.id} && g'.maps == g.maps
    requires n.MapNode? ==> g'.maps.Keys == g.maps.Keys + {n.id} && g'.progs == g.progs
    ensures forall x :: Visited(g', x) <==> Visited(g, x) || x == n
  {
  }

  lemma FoundProgListed(progs: seq<P.ProgInfo>, id: uint32, p: P.ProgInfo)
    requires ProgRecord(progs, id) == Some(p)
    ensures id in ProgIDs(progs)
  {
    assert p in progs && P.IdOf(p) == id;
  }

  lemma FoundMapListed(maps: seq<M.MapInfo>, id: uint32, m: M.MapInfo)
    requires MapRecord(maps, id) == Some(m)
    ensures id in MapIDs(maps)
  {
    assert m in maps && M.IdOf(m) == id;
  }

  lemma AddProgShrinks(progs: seq<P.ProgInfo>, maps: seq<M.MapInfo>, g: Graph, id: uint32, p: P.ProgInfo)
    requires id in ProgIDs(progs) && id !in g.progs
    ensures Unvisited(progs, maps, Graph(g.progs[id := p], g.maps)) < Unvisited(progs, maps, g)
  {
    assert g.progs[id := p].Keys == g.progs.Keys + {id};
    DiffShrinks(ProgIDs(progs), g.progs.Keys, id);
  }

  lemma AddMapShrinks(progs: seq<P.ProgInfo>, maps: seq<M.MapInfo>, g: Graph, id: uint32, m: M.MapInfo)
    requires id in MapIDs(maps) && id !in g.maps
    ensures Unvisited(progs, maps, Graph(g.progs, g.maps[id := m])) < Unvisited(progs, maps, g)
  {
    assert g.maps[id := m].Keys == g.maps.Keys + {id};
    DiffShrinks(MapIDs(maps), g.maps.Keys, id);
  }

  /** One turn of the walk: take the last pending node and, unless it is known or not in its snapshot, insert it and push its steps. */
  method Step(progs: seq<P.ProgInfo>, maps: seq<M.MapInfo>, idx: ReverseIndex, ghost seed: Node,
              g: Graph, work: seq<Node>, ghost via: map<Node, seq<Node>>)
    returns (g': Graph, work': seq<Node>, ghost via': map<Node, seq<Node>>)
    requires work != [] && WalkInvariant(progs, maps, idx, seed, g, work, via)
    ensures WalkInvariant(progs, maps, idx, seed, g', work', via')
    ensures Unvisited(progs, maps, g') < Unvisited(progs, maps, g) ||
            (Unvisited(progs, maps, g') == Unvisited(progs, maps, g) && |work'| < |work|)
  {
    var n := work[|work| - 1];
    var rest := work[..|work| - 1];
    if Visited(g, n) {
      SkipNode(progs, maps, idx, seed, g, work, via);
      return g, rest, via;
    }
    var succs: seq<Node>;
    if n.ProgNode? {
      var found := Find(progs, P.IdOf, n.id);
      if found.None? {
        SkipNode(progs, maps, idx, seed, g, work, via);
        return g, rest, via;
      }
      var prog := found.value;
      AddProg(progs, maps, g, n.id, prog);
      g' := Graph(g.progs[n.id := prog], g.maps);
      KeyedAfterAdd(progs, maps, g, n, g');
      succs := if prog.info.Some? then MapNodes(prog.info.value.mapIDs) else [];
    } else {
      var found := Find(maps, M.IdOf, n.id);
      if found.None? {
        SkipNode(progs, maps, idx, seed, g, work, via);
        return g, rest, via;
      }
      AddMap(progs, maps, g, n.id, found.value);
      g' := Graph(g.progs, g.maps[n.id := found.value]);
      KeyedAfterAdd(progs, maps, g, n, g');
      succs := ProgNodes(Refs(idx, n.id));
    }
    Successors(progs, maps, idx, n, succs);
    InsertNode(progs, maps, idx, seed, g, work, via, g', succs);
    work' := rest + succs;
    via' := via + map b | b in succs :: via[n] + [b];
  }

  /** The walk from one seed. */
  method Closure(progs: seq<P.ProgInfo>, maps: seq<M.MapInfo>, idx: ReverseIndex, seed: Node) returns (g: Graph)
    ensures ConnectedFrom(progs, maps, idx, seed, g)
  {
    g := Graph(map[], map[]);
    var work := [seed];
    ghost var via := map[seed := [seed]];
    while work != []
      invariant WalkInvariant(progs, maps, idx, seed, g, work, via)
      decreases Unvisited(progs, maps, g), |work|
    {
      g, work, via := Step(progs, maps, idx, seed, g, work, via);
    }
    forall n | Visited(g, n)
      ensures Reachable(progs, maps, idx, seed, n)
    {
      assert PathTo(progs, maps, idx, seed, via[n], n);
    }
  }

  /**
   * resolveConnectedGraph: an error of either accessor is returned with no result; otherwise the index is
   * built and the walk starts from the program or the map the ID names; any other kind yields two empty sets.
   */
  method ResolveConnectedGraph(progsList: seq<P.ProgInfo>, progsErr: Option<Error>,
                               emapsList: seq<M.MapInfo>, mapsErr: Option<Error>, from: int, fromType: IDType)
    returns (result: Option<Graph>, err: Option<Error>)
    ensures progsErr.Some? ==> result == None && err == progsErr
    ensures progsErr.None? && mapsErr.Some? ==> result == None && err == mapsErr
    ensures progsErr.None? && mapsErr.None? ==>
      err == None && result.Some? &&
      (fromType.IDTypeProgram? ==>
         ConnectedFrom(progsList, emapsList, IndexOf(progsList), ProgNode(from % TwoTo32), result.value)) &&
      (fromType.IDTypeMap? ==>
         ConnectedFrom(progsList, emapsList, IndexOf(progsList), MapNode(from % TwoTo32), result.value)) &&
      (fromType.IDTypeOther? ==> result.value == Graph(map[], map[]))
  {
    if progsErr.Some? {
      return None, progsErr;
    }
    if mapsErr.Some? {
      return None, mapsErr;
    }
    var idx := BuildIndex(progsList);
    var g := Graph(map[], map[]);
    if fromType.IDTypeProgram? {
      g := Closure(progsList, emapsList, idx, ProgNode(from % TwoTo32));
    } else if fromType.IDTypeMap? {
      g := Closure(progsList, emapsList, idx, MapNode(from % TwoTo32));
    }
    return Some(g), None;
  }

  // ---------------------------------------------------------------- properties of the result

  /** A step leaves only from a node of a snapshot. */
  lemma EdgeFromPresent(progs: seq<P.ProgInfo>, maps: seq<M.MapInfo>, idx: ReverseIndex, a: Node, b: Node)
    requires Edge(progs, maps, idx, a, b)
    ensures Present(progs, maps, a)
  {
  }

  /** Every node of a snapshot on a walk from a seed in a closed result is in that result. */
  lemma {:induction false} PathVisited(progs: seq<P.ProgInfo>, maps: seq<M.MapInfo>, idx: ReverseIndex, seed: Node,
                                       g: Graph, path: seq<Node>, n: Node)
    requires Closed(progs, maps, idx, g) && Visited(g, seed)
    requires PathTo(progs, maps, idx, seed, path, n) && Present(progs, maps, n)
    ensures Visited(g, n)
    decreases |path|
  {
    if |path| > 1 {
      var prefix := path[..|path| - 1];
      var m := path[|path| - 2];
      assert Edge(progs, maps, idx, m, n);
      EdgeFromPresent(progs, maps, idx, m, n);
      forall i | 0 <= i < |prefix| - 1
        ensures Edge(progs, maps, idx, prefix[i], prefix[i + 1])
      {
        assert prefix[i] == path[i] && prefix[i + 1] == path[i + 1];
      }
      PathVisited(progs, maps, idx, seed, g, prefix, m);
    }
  }

  /** A node reachable from the seed is reached through the seed itself, so the seed is in its snapshot. */
  lemma ReachedSeedPresent(progs: seq<P.ProgInfo>, maps: seq<M.MapInfo>, idx: ReverseIndex, seed: Node,
                           path: seq<Node>, n: Node)
    requires PathTo(progs, maps, idx, seed, path, n) && Present(progs, maps, n)
    ensures Present(progs, maps, seed)
  {
    if |path| > 1 {
      EdgeFromPresent(progs, maps, idx, path[0], path[1]);
    }
  }

  /** A node in a keyed result is in its snapshot. */
  lemma VisitedPresent(progs: seq<P.ProgInfo>, maps: seq<M.MapInfo>, g: Graph, n: Node)
    requires Keyed(progs, maps, g) && Visited(g, n)
    ensures Present(progs, maps, n)
  {
  }

  /** One side of `ConnectedUnique`: every node of one result is in the other. */
  lemma ConnectedIncluded(progs: seq<P.ProgInfo>, maps: seq<M.MapInfo>, idx: ReverseIndex, seed: Node, g1: Graph, g2: Graph)
    requires ConnectedFrom(progs, maps, idx, seed, g1) && ConnectedFrom(progs, maps, idx, seed, g2)
    ensures forall n :: Visited(g1, n) ==> Visited(g2, n)
  {
    forall n | Visited(g1, n)
      ensures Visited(g2, n)
    {
      var path :| PathTo(progs, maps, idx, seed, path, n);
      VisitedPresent(progs, maps, g1, n);
      ReachedSeedPresent(progs, maps, idx, seed, path, n);
      PathVisited(progs, maps, idx, seed, g2, path, n);
    }
  }

  /**
   * The result is determined by the snapshots and the seed: any two results with the properties of the
   * walk are equal, whatever order the nodes were visited in.
   */
  lemma ConnectedUnique(progs: seq<P.ProgInfo>, maps: seq<M.MapInfo>, idx: ReverseIndex, seed: Node, g1: Graph, g2: Graph)
    requires ConnectedFrom(progs, maps, idx, seed, g1) && ConnectedFrom(progs, maps, idx, seed, g2)
    ensures g1 == g2
  {
    ConnectedIncluded(progs, maps, idx, seed, g1, g2);
    ConnectedIncluded(progs, maps, idx, seed, g2, g1);
    assert forall id :: id in g1.progs <==> id in g2.progs by {
      forall id ensures id in g1.progs <==> id in g2.progs {
        assert Visited(g1, ProgNode(id)) <==> Visited(g2, ProgNode(id));
      }
    }
    assert forall id :: id in g1.maps <==> id in g2.maps by {
      forall id ensures id in g1.maps <==> id in g2.maps {
        assert Visited(g1, MapNode(id)) <==> Visited(g2, MapNode(id));
      }
    }
    assert g1.progs == g2.progs;
    assert g1.maps == g2.maps;
  }

  /** A seed missing from its snapshot yields two empty sets: nothing is reached through it. */
  lemma AbsentSeedEmpty(progs: seq<P.ProgInfo>, maps: seq<M.MapInfo>, idx: ReverseIndex, seed: Node, g: Graph)
    requires ConnectedFrom(progs, maps, idx, seed, g) && !Present(progs, maps, seed)
    ensures g == Graph(map[], map[])
  {
    forall n | Visited(g, n)
      ensures false
    {
      var path :| PathTo(progs, maps, idx, seed, path, n);
      VisitedPresent(progs, maps, g, n);
      ReachedSeedPresent(progs, maps, idx, seed, path, n);
    }
    assert forall id :: id !in g.progs by {
      forall id ensures id !in g.progs { assert !Visited(g, ProgNode(id)); }
    }
    assert forall id :: id !in g.maps by {
      forall id ensures id !in g.maps { assert !Visited(g, MapNode(id)); }
    }
  }

  /** A walk is the seed alone or starts with a step out of the seed. */
  lemma FirstStep(progs: seq<P.ProgInfo>, maps: seq<M.MapInfo>, idx: ReverseIndex, seed: Node, path: seq<Node>, n: Node)
    requires PathTo(progs, maps, idx, seed, path, n)
    ensures |path| == 1 || Edge(progs, maps, idx, seed, path[1])
  {
  }

  /** A program seed without `Info` is added but not expanded: the result is that program alone. */
  lemma NilInfoSeedAlone(progs: seq<P.ProgInfo>, maps: seq<M.MapInfo>, idx: ReverseIndex, id: uint32, g: Graph)
    requires ConnectedFrom(progs, maps, idx, ProgNode(id), g)
    requires ProgRecord(progs, id).Some? && ProgRecord(progs, id).value.info.None?
    ensures g == Graph(map[id := ProgRecord(progs, id).value], map[])
  {
    forall n | Visited(g, n)
      ensures n == ProgNode(id)
    {
      var path :| PathTo(progs, maps, idx, ProgNode(id), path, n);
      FirstStep(progs, maps, idx, ProgNode(id), path, n);
      assert forall b :: !Edge(progs, maps, idx, ProgNode(id), b);
    }
    assert forall k :: k in g.progs <==> k == id by {
      forall k ensures k in g.progs <==> k == id { assert Visited(g, ProgNode(k)) ==> ProgNode(k) == ProgNode(id); }
    }
    assert forall k :: k !in g.maps by {
      forall k ensures k !in g.maps { assert Visited(g, MapNode(k)) ==> MapNode(k) == ProgNode(id); }
    }
    assert g.progs == map[id := ProgRecord(progs, id).value];
  }
}
