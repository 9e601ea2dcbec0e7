/** The graph-SLAM edge counter: how many edges of each named type have been
    registered, how many of them close loops, and the text-message layout
    registered for each type. Only the declarations and their documentation
    exist, so each method follows its documented contract. */
module EdgeCounter {

  datatype Error =
    | EdgeTypeAlreadyRegistered(name: string)
    | EdgeTypeNotRegistered(name: string)

  datatype Result<T> = Ok(value: T) | Err(error: Error)

  /** The sum of all counts of a name-to-count map (the iteration order of the
      map does not matter, see `SumCountsRemove`). */
  ghost function SumCounts(m: map<string, int>): int
    decreases |m.Keys|
  {
    if m == map[] then 0
    else
      var k :| k in m.Keys;
      m[k] + SumCounts(m - {k})
  }

  /** Taking out any one name splits the sum into that name's count and the rest. */
  lemma {:induction false} SumCountsRemove(m: map<string, int>, k: string)
    requires k in m.Keys
    ensures SumCounts(m) == m[k] + SumCounts(m - {k})
    decreases |m.Keys|
  {
    var k' :| k' in m.Keys && SumCounts(m) == m[k'] + SumCounts(m - {k'});
    if k' != k {
      var rest := m - {k'};
      assert k in rest.Keys;
      assert |rest.Keys| < |m.Keys| by {
        assert rest.Keys < m.Keys;
      }
      SumCountsRemove(rest, k);
      var other := m - {k};
      assert k' in other.Keys;
      assert |other.Keys| < |m.Keys| by {
        assert other.Keys < m.Keys;
      }
      SumCountsRemove(other, k');
      assert rest - {k} == other - {k'};
    }
  }

  /** Setting the count of one name changes the total by the difference. */
  lemma SumCountsUpdate(m: map<string, int>, k: string, v: int)
    ensures SumCounts(m[k := v]) == SumCounts(m) - (if k in m then m[k] else 0) + v
  {
    var m' := m[k := v];
    SumCountsRemove(m', k);
    if k in m {
      SumCountsRemove(m, k);
      assert m' - {k} == m - {k};
    } else {
      assert m' - {k} == m;
    }
  }

  class EdgeCounter {
    /** Number of edges per registered type (`m_name_to_edges_num`). */
    var edges: map<string, int>
    /** Number of loop-closure edges (`m_num_loop_closures`). */
    var loopClosures: int
    /** Number of edges left after duplicates were collapsed (`m_unique_edges`). */
    var uniqueEdges: int
    /** Text-message layout per type, set by `setTextMessageParams`. */
    var offsetY: map<string, real>
    var textIndex: map<string, int>
    var hasReadTextMessageParams: bool

    constructor ()
      ensures edges == map[] && loopClosures == 0 && uniqueEdges == 0
      ensures offsetY == map[] && textIndex == map[] && !hasReadTextMessageParams
    {
      edges := map[];
      loopClosures := 0;
      uniqueEdges := 0;
      offsetY := map[];
      textIndex := map[];
      hasReadTextMessageParams := false;
    }

    /** `setRemovedEdges`: of all edges counted so far, `removed` were
        duplicates; the rest are the unique edges. */
    method SetRemovedEdges(removed: int)
      modifies this
      ensures uniqueEdges == SumCounts(edges) - removed
      ensures edges == old(edges) && loopClosures == old(loopClosures)
      ensures offsetY == old(offsetY) && textIndex == old(textIndex)
      ensures hasReadTextMessageParams == old(hasReadTextMessageParams)
    {
      var total := TotalNumOfEdges();
      uniqueEdges := total - removed;
    }

    /** `setLoopClosureEdgesManually`. */
    method SetLoopClosureEdgesManually(n: int)
      modifies this
      ensures loopClosures == n
      ensures edges == old(edges) && uniqueEdges == old(uniqueEdges)
      ensures offsetY == old(offsetY) && textIndex == old(textIndex)
      ensures hasReadTextMessageParams == old(hasReadTextMessageParams)
    {
      loopClosures := n;
    }

    /** `getLoopClosureEdges`. */
    function LoopClosureEdges(): int
      reads this
    {
      loopClosures
    }

    /** `getTotalNumOfEdges`: the sum of the counts of all registered types. */
    method TotalNumOfEdges() returns (total: int)
      ensures total == SumCounts(edges)
    {
      total := 0;
      var rest := edges;
      while rest != map[]
        invariant total + SumCounts(rest) == SumCounts(edges)
        decreases |rest.Keys|
      {
        var k :| k in rest.Keys;
        SumCountsRemove(rest, k);
        total := total + rest[k];
        rest := rest - {k};
      }
    }

    /** `getNumForEdgeType`: the count of a registered type; an unregistered
        type is an error. */
    function NumForEdgeType(name: string): (r: Result<int>)
      reads this
      ensures r.Ok? <==> name in edges
      ensures r.Ok? ==> r.value == edges[name]
      ensures r.Err? ==> r.error == EdgeTypeNotRegistered(name)
    {
      if name in edges then Ok(edges[name]) else Err(EdgeTypeNotRegistered(name))
    }

    /** `setEdgesManually`: the count of `name` becomes `n`, registering the
        type if needed; no other type changes. */
    method SetEdgesManually(name: string, n: int)
      modifies this
      ensures edges == old(edges)[name := n]
      ensures loopClosures == old(loopClosures) && uniqueEdges == old(uniqueEdges)
      ensures offsetY == old(offsetY) && textIndex == old(textIndex)
      ensures hasReadTextMessageParams == old(hasReadTextMessageParams)
    {
      edges := edges[name := n];
    }

    /** `addEdge`: one more edge of type `name` (the type is registered with
        count 1 if it was not), and one more loop closure if it closes a loop.
        Declaring the edge new while its type already exists is an error and
        changes nothing. */
    method AddEdge(name: string, isLoopClosure: bool, isNew: bool) returns (r: Result<()>)
      modifies this
      ensures r.Err? <==> name in old(edges) && isNew
      ensures r.Err? ==> r.error == EdgeTypeAlreadyRegistered(name) && edges == old(edges) && loopClosures == old(loopClosures)
      ensures r.Ok? ==> edges == AddOne(old(edges), name)
      ensures r.Ok? ==> loopClosures == old(loopClosures) + (if isLoopClosure then 1 else 0)
      ensures uniqueEdges == old(uniqueEdges)
      ensures offsetY == old(offsetY) && textIndex == old(textIndex)
      ensures hasReadTextMessageParams == old(hasReadTextMessageParams)
    {
      if name in edges && isNew {
        return Err(EdgeTypeAlreadyRegistered(name));
      }
      if name in edges {
        edges := edges[name := edges[name] + 1];
      } else {
        edges := edges[name := 1];
      }
      if isLoopClosure {
        loopClosures := loopClosures + 1;
      }
      r := Ok(());
    }

    /** `addEdgeType`: registers `name` with no edges; a type that is already
        registered is an error and changes nothing. */
    method AddEdgeType(name: string) returns (r: Result<()>)
      modifies this
      ensures r.Err? <==> name in old(edges)
      ensures r.Err? ==> r.error == EdgeTypeAlreadyRegistered(name) && edges == old(edges)
      ensures r.Ok? ==> edges == old(edges)[name := 0]
      ensures loopClosures == old(loopClosures) && uniqueEdges == old(uniqueEdges)
      ensures offsetY == old(offsetY) && textIndex == old(textIndex)
      ensures hasReadTextMessageParams == old(hasReadTextMessageParams)
    {
      if name in edges {
        return Err(EdgeTypeAlreadyRegistered(name));
      }
      edges := edges[name := 0];
      r := Ok(());
    }

    /** `clearAllEdges`: the counter back to the state it was built in: no
        types, no edges, no loop closures, and no text-message layout, whose
        names would otherwise outlive their registration. */
    method ClearAllEdges()
      modifies this
      ensures edges == map[] && loopClosures == 0 && uniqueEdges == 0
      ensures offsetY == map[] && textIndex == map[] && !hasReadTextMessageParams
      ensures SumCounts(edges) == 0
    {
      edges := map[];
      loopClosures := 0;
      uniqueEdges := 0;
      offsetY := map[];
      textIndex := map[];
      hasReadTextMessageParams := false;
    }

    /** `setTextMessageParams`: every name of both maps must already be a
        registered type, otherwise it is an error and nothing changes; the
        maps are then stored. */
    method SetTextMessageParams(offsets: map<string, real>, indices: map<string, int>) returns (r: Result<()>)
      modifies this
      ensures r.Ok? <==> offsets.Keys <= old(edges).Keys && indices.Keys <= old(edges).Keys
      ensures r.Err? ==> r.error.EdgeTypeNotRegistered? && r.error.name !in edges
      ensures r.Err? ==> (r.error.name in offsets || r.error.name in indices)
      ensures r.Err? ==> offsetY == old(offsetY) && textIndex == old(textIndex)
      ensures r.Err? ==> hasReadTextMessageParams == old(hasReadTextMessageParams)
      ensures r.Ok? ==> offsetY == offsets && textIndex == indices && hasReadTextMessageParams
      ensures edges == old(edges) && loopClosures == old(loopClosures) && uniqueEdges == old(uniqueEdges)
    {
      var missing := FirstUnregistered(offsets.Keys + indices.Keys);
      if missing.Some? {
        return Err(EdgeTypeNotRegistered(missing.value));
      }
      offsetY := offsets;
      textIndex := indices;
      hasReadTextMessageParams := true;
      r := Ok(());
    }

    /** Some name of `names` that is not a registered type, if there is one. */
    method FirstUnregistered(names: set<string>) returns (r: Option<string>)
      ensures r.None? <==> names <= edges.Keys
      ensures r.Some? ==> r.value in names && r.value !in edges
    {
      var rest := names;
      while rest != {}
        invariant rest <= names
        invariant names - rest <= edges.Keys
        decreases |rest|
      {
        var n :| n in rest;
        if n !in edges {
          return Some(n);
        }
        rest := rest - {n};
      }
      r := None;
    }
  }

  datatype Option<T> = None | Some(value: T)

  /** The counts after one more edge of type `name`. */
  function AddOne(m: map<string, int>, name: string): (r: map<string, int>)
    ensures r.Keys == m.Keys + {name}
    ensures name in m ==> r[name] == m[name] + 1
    ensures name !in m ==> r[name] == 1
    ensures forall k :: k in m && k != name ==> r[k] == m[k]
  {
    if name in m then m[name := m[name] + 1] else m[name := 1]
  }

  /** Every successful `addEdge` adds exactly one edge to the total. */
  lemma AddOneTotal(m: map<string, int>, name: string)
    ensures SumCounts(AddOne(m, name)) == SumCounts(m) + 1
  {
    SumCountsUpdate(m, name, if name in m then m[name] + 1 else 1);
  }

  /** Registering a new type leaves the total unchanged. */
  lemma AddEdgeTypeTotal(m: map<string, int>, name: string)
    requires name !in m
    ensures SumCounts(m[name := 0]) == SumCounts(m)
  {
    SumCountsUpdate(m, name, 0);
  }

  /** After `setEdgesManually(name, n)` the type's count reads back as `n`,
      and the total moves by the difference. */
  lemma SetEdgesManuallyReadBack(m: map<string, int>, name: string, n: int)
    ensures name in m[name := n] && m[name := n][name] == n
    ensures SumCounts(m[name := n]) == SumCounts(m) - (if name in m then m[name] else 0) + n
  {
    SumCountsUpdate(m, name, n);
  }
}
