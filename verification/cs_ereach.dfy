/** `cs_ereach`: the nonzero pattern of row k of the Cholesky factor L, found
    by walking the elimination tree upward from every nonzero A(i,k) with
    i <= k until a node already visited is met. The visited nodes are kept
    on a stack that grows downward from `s[n]`; marks live in the sign of
    `w`, where `CS_MARK` turns `w[j]` into `-w[j] - 2` and `CS_MARKED`
    tests `w[j] < 0`. */
module CsEreach {
  import opened CsMatrix
  import opened Counting

  /** `CS_MARK`. */
  function Flip(v: int): (r: int)
    ensures -r - 2 == v
    ensures v >= 0 ==> r < 0
    ensures v <= -2 ==> r >= 0
  {
    -v - 2
  }

  /** In the elimination tree `pa`, following parents from `i` arrives at `k`.
      Every parent is larger than its child, so the walk climbs strictly. */
  predicate Reaches(pa: seq<int>, i: int, k: int)
    decreases k - i
  {
    i == k || (0 <= i < k && i < |pa| && i < pa[i] <= k && Reaches(pa, pa[i], k))
  }

  /** The nodes passed on the way from `i` up to `k`, `k` excluded. */
  function Chain(pa: seq<int>, i: int, k: int): set<int>
    requires Reaches(pa, i, k)
    decreases k - i
  {
    if i == k then {} else {i} + Chain(pa, pa[i], k)
  }

  /** The nodes of the walk from `i` before the first node of `marked`
      (`marked` holds `k`, so the walk stops at `k` at the latest), in the
      order they are visited. */
  function Path(pa: seq<int>, i: int, k: int, marked: set<int>): seq<int>
    requires Reaches(pa, i, k) && k in marked
    decreases k - i
  {
    if i in marked then [] else [i] + Path(pa, pa[i], k, marked)
  }

  /** Every nonzero row index of the column is at least 0, and the walk
      from each one at most `k` arrives at `k`. */
  predicate RowsReach(pa: seq<int>, rows: seq<int>, k: int)
  {
    forall q :: 0 <= q < |rows| ==> 0 <= rows[q] && (rows[q] <= k ==> Reaches(pa, rows[q], k))
  }

  datatype Reach = Reach(stack: seq<int>, marked: set<int>)

  /** The stack and the marked set after the entries `rows`: entries below
      the diagonal are skipped, the path of every other entry is pushed on
      top with its order kept, and its nodes become marked. */
  function EReachOf(pa: seq<int>, rows: seq<int>, k: int): Reach
    requires RowsReach(pa, rows, k)
  {
    if |rows| == 0 then Reach([], {k})
    else
      var prev := EReachOf(pa, rows[..|rows| - 1], k);
      var i := rows[|rows| - 1];
      if i > k || k !in prev.marked then prev
      else
        var path := Path(pa, i, k, prev.marked);
        Reach(path + prev.stack, prev.marked + set x | x in path)
  }

  /** A set that holds the chain of each of its members other than `k`. */
  predicate UpwardClosed(pa: seq<int>, M: set<int>, k: int)
  {
    forall j :: j in M ==> Reaches(pa, j, k) && Chain(pa, j, k) <= M
  }

  /** The nodes of a chain all lie in `[i, k)`, and each reaches `k` with its
      own chain inside. */
  lemma {:induction false} ChainFacts(pa: seq<int>, i: int, k: int)
    requires Reaches(pa, i, k)
    ensures forall j :: j in Chain(pa, i, k) ==> i <= j < k
    ensures UpwardClosed(pa, Chain(pa, i, k) + {k}, k)
    decreases k - i
  {
    if i != k {
      ChainFacts(pa, pa[i], k);
    }
  }

  /** The path from `i` is strictly increasing, stays out of `M` and below
      `k`, and, for an upward-closed `M`, adds exactly the chain from `i`. */
  lemma {:induction false} PathFacts(pa: seq<int>, i: int, k: int, M: set<int>)
    requires Reaches(pa, i, k) && k in M && UpwardClosed(pa, M, k)
    ensures forall a, b :: 0 <= a < b < |Path(pa, i, k, M)| ==> Path(pa, i, k, M)[a] < Path(pa, i, k, M)[b]
    ensures forall a :: 0 <= a < |Path(pa, i, k, M)| ==> i <= Path(pa, i, k, M)[a] < k && Path(pa, i, k, M)[a] !in M
    ensures M + (set x | x in Path(pa, i, k, M)) == M + Chain(pa, i, k)
    decreases k - i
  {
    if i !in M {
      var rest := Path(pa, pa[i], k, M);
      PathFacts(pa, pa[i], k, M);
      assert Path(pa, i, k, M) == [i] + rest;
      assert (set x | x in [i] + rest) == {i} + (set x | x in rest);
    } else {
      assert Chain(pa, i, k) <= M;
    }
  }

  /** What the construction keeps true: the stack holds exactly the marked
      nodes other than `k`, without repeats, all below `k`, and the marked
      set is `k` together with the chains of all entries used so far. */
  lemma {:induction false} EReachFacts(pa: seq<int>, rows: seq<int>, k: int)
    requires RowsReach(pa, rows, k)
    ensures WellMarked(pa, EReachOf(pa, rows, k), k)
    ensures EReachOf(pa, rows, k).marked == {k} + UnionOfChains(pa, rows, k)
  {
    if |rows| > 0 {
      var front := rows[..|rows| - 1];
      assert RowsReach(pa, front, k);
      EReachFacts(pa, front, k);
      var prev := EReachOf(pa, front, k);
      var i := rows[|rows| - 1];
      if i <= k {
        PushKeepsMarks(pa, prev, i, k);
      }
    }
  }

  /** The facts `EReachFacts` keeps about a stack and its marks. */
  ghost predicate WellMarked(pa: seq<int>, r: Reach, k: int)
  {
    && k in r.marked
    && UpwardClosed(pa, r.marked, k)
    && Distinct(r.stack)
    && (forall x :: x in r.stack <==> x in r.marked && x != k)
    && (forall a :: 0 <= a < |r.stack| ==> 0 <= r.stack[a] < k)
  }

  /** Pushing the path from an entry `i <= k` keeps them, and marks the
      chain from `i`. */
  lemma PushKeepsMarks(pa: seq<int>, prev: Reach, i: int, k: int)
    requires WellMarked(pa, prev, k) && 0 <= i <= k && Reaches(pa, i, k)
    ensures var path := Path(pa, i, k, prev.marked);
      var r := Reach(path + prev.stack, prev.marked + set x | x in path);
      WellMarked(pa, r, k) && r.marked == prev.marked + Chain(pa, i, k)
  {
    var path := Path(pa, i, k, prev.marked);
    PathFacts(pa, i, k, prev.marked);
    ChainFacts(pa, i, k);
    var r := Reach(path + prev.stack, prev.marked + set x | x in path);
    forall a, b | 0 <= a < b < |r.stack|
      ensures r.stack[a] != r.stack[b]
    {
      if b < |path| {
      } else if a < |path| {
        assert r.stack[b] == prev.stack[b - |path|];
        assert r.stack[b] in prev.marked;
      } else {
        assert r.stack[a] == prev.stack[a - |path|] && r.stack[b] == prev.stack[b - |path|];
      }
    }
    forall a | 0 <= a < |r.stack|
      ensures 0 <= r.stack[a] < k
    {
      if a >= |path| {
        assert r.stack[a] == prev.stack[a - |path|];
      }
    }
    forall j | j in r.marked
      ensures Reaches(pa, j, k) && Chain(pa, j, k) <= r.marked
    {
      if j !in prev.marked {
        assert j in Chain(pa, i, k);
        assert Chain(pa, j, k) <= Chain(pa, i, k) + {k};
      }
    }
  }

  /** The union of the chains from every entry at most `k`. */
  function UnionOfChains(pa: seq<int>, rows: seq<int>, k: int): set<int>
    requires RowsReach(pa, rows, k)
  {
    if |rows| == 0 then {}
    else
      var i := rows[|rows| - 1];
      assert RowsReach(pa, rows[..|rows| - 1], k);
      UnionOfChains(pa, rows[..|rows| - 1], k) + (if i <= k then Chain(pa, i, k) else {})
  }

  /** The pattern, stated without the stack: node `j` is in it exactly when
      `j` lies on the way up from some entry A(i,k) with i <= k to `k`. */
  lemma {:induction false} PatternIsUnionOfPaths(pa: seq<int>, rows: seq<int>, k: int, j: int)
    requires RowsReach(pa, rows, k)
    ensures j in EReachOf(pa, rows, k).stack <==>
      exists q :: 0 <= q < |rows| && rows[q] <= k && j in Chain(pa, rows[q], k)
  {
    EReachFacts(pa, rows, k);
    UnionOfChainsMembers(pa, rows, k, j);
    var r := EReachOf(pa, rows, k);
    if j == k {
      assert forall q :: 0 <= q < |rows| && rows[q] <= k ==> k !in Chain(pa, rows[q], k) by {
        forall q | 0 <= q < |rows| && rows[q] <= k
          ensures k !in Chain(pa, rows[q], k)
        {
          ChainFacts(pa, rows[q], k);
        }
      }
    }
  }

  lemma {:induction false} UnionOfChainsMembers(pa: seq<int>, rows: seq<int>, k: int, j: int)
    requires RowsReach(pa, rows, k)
    ensures j in UnionOfChains(pa, rows, k) <==>
      exists q :: 0 <= q < |rows| && rows[q] <= k && j in Chain(pa, rows[q], k)
  {
    if |rows| > 0 {
      var front := rows[..|rows| - 1];
      assert RowsReach(pa, front, k);
      UnionOfChainsMembers(pa, front, k, j);
      if exists q :: 0 <= q < |rows| && rows[q] <= k && j in Chain(pa, rows[q], k) {
        var q :| 0 <= q < |rows| && rows[q] <= k && j in Chain(pa, rows[q], k);
        if q < |rows| - 1 {
          assert front[q] == rows[q];
        }
      }
      if exists q :: 0 <= q < |front| && front[q] <= k && j in Chain(pa, front[q], k) {
        var q :| 0 <= q < |front| && front[q] <= k && j in Chain(pa, front[q], k);
        assert rows[q] == front[q];
      }
    }
  }

  /** Node `k` is never in the pattern, and no node appears twice. */
  lemma PatternHasNoRepeats(pa: seq<int>, rows: seq<int>, k: int)
    requires RowsReach(pa, rows, k)
    ensures k !in EReachOf(pa, rows, k).stack
    ensures Distinct(EReachOf(pa, rows, k).stack)
    ensures forall a :: 0 <= a < |EReachOf(pa, rows, k).stack| ==> 0 <= EReachOf(pa, rows, k).stack[a] < k
  {
    EReachFacts(pa, rows, k);
  }

  /** The entries of the column below the diagonal start no walk: dropping
      them gives the same pattern. */
  lemma {:induction false} LowerEntriesIgnored(pa: seq<int>, rows: seq<int>, k: int, i: int)
    requires RowsReach(pa, rows, k) && 0 <= k < i
    ensures RowsReach(pa, rows + [i], k)
    ensures EReachOf(pa, rows + [i], k) == EReachOf(pa, rows, k)
  {
    forall q | 0 <= q < |rows|
      ensures (rows + [i])[q] == rows[q]
    {
    }
    assert (rows + [i])[..|rows|] == rows;
  }

  /** The stack and marks between two entries of the column: `s[top..n)`
      is a repeat-free stack of nodes below `k`, exactly the marked nodes
      other than `k`, and `w` holds the flipped original value at the
      marked nodes and the original value elsewhere. */
  ghost predicate StackState(s: array<int>, w: array<int>, w0: seq<int>, n: int, k: int,
                             top: int, stack: seq<int>, M: set<int>)
    reads s, w
  {
    && 0 <= k < n <= s.Length && n <= w.Length == |w0|
    && top == n - |stack| && 0 <= top
    && s[top..n] == stack
    && Distinct(stack)
    && (forall a :: 0 <= a < |stack| ==> 0 <= stack[a] < k)
    && k in M
    && (forall x :: x in stack <==> x in M && x != k)
    && (forall j :: 0 <= j < n ==> w0[j] >= 0)
    && (forall j :: 0 <= j < w.Length ==> w[j] == if j in M then Flip(w0[j]) else w0[j])
  }

  /** The walk up the tree from `i0` (lines 16-20): the unmarked nodes met
      before the first marked one are written to `s[0..len)` in the order
      visited and marked; the stack above `top` is untouched. */
  method Climb(parent: array<int>, s: array<int>, w: array<int>, i0: int, k: int, n: int, top: int,
               ghost pa: seq<int>, ghost w0: seq<int>, ghost stack: seq<int>, ghost M: set<int>)
    returns (len: int)
    requires parent != s && parent != w && s != w && parent[..] == pa
    requires 0 <= k < n <= s.Length && n <= w.Length == |w0| && k in M
    requires top == n - |stack| && 0 <= top && s[top..n] == stack
    requires forall j :: 0 <= j < n ==> w0[j] >= 0
    requires forall j :: 0 <= j < w.Length ==> w[j] == if j in M then Flip(w0[j]) else w0[j]
    requires 0 <= i0 <= k && Reaches(pa, i0, k)
    requires |Path(pa, i0, k, M)| + |stack| <= k
    modifies s, w
    ensures 0 <= len <= top
    ensures s[..len] == Path(pa, i0, k, M)
    ensures s[top..n] == stack
    ensures forall j :: 0 <= j < w.Length ==>
      w[j] == if j in M || j in Path(pa, i0, k, M) then Flip(w0[j]) else w0[j]
  {
    ghost var path := Path(pa, i0, k, M);
    ghost var visited: seq<int> := [];
    var i := i0;
    len := 0;
    while w[i] >= 0
      invariant Climbing(s, w, pa, w0, M, stack, path, k, n, top, i, len, visited)
      decreases k - i
    {
      ClimbStep(s, w, pa, w0, M, stack, path, k, n, top, i, len, visited);
      visited := visited + [i];
      len := len + 1;
      i := parent[i];
    }
    assert visited == path;
  }

  /** The state of the walk at node `i`: `visited` written to `s[0..len)`
      and marked, the rest of the path still ahead. */
  ghost predicate Climbing(s: array<int>, w: array<int>, pa: seq<int>, w0: seq<int>, M: set<int>,
                           stack: seq<int>, path: seq<int>, k: int, n: int, top: int, i: int, len: int, visited: seq<int>)
    reads s, w
  {
    && 0 <= k < n <= s.Length && n <= w.Length == |w0| && k in M
    && top == n - |stack| && 0 <= top && |path| + |stack| <= k
    && (forall j :: 0 <= j < n ==> w0[j] >= 0)
    && Reaches(pa, i, k) && 0 <= i <= k
    && len == |visited| && visited + Path(pa, i, k, M) == path
    && s[..len] == visited
    && (forall a :: 0 <= a < len ==> visited[a] < i)
    && s[top..n] == stack
    && MarkedAlong(w[..], w0, M, visited)
  }

  /** One step of the walk from an unmarked node `i`: it is written to
      `s[len]` and marked, and the walk moves to its parent. */
  method ClimbStep(s: array<int>, w: array<int>, ghost pa: seq<int>, ghost w0: seq<int>, ghost M: set<int>,
                   ghost stack: seq<int>, ghost path: seq<int>, k: int, n: int, top: int, i: int, len: int,
                   ghost visited: seq<int>)
    requires s != w && Climbing(s, w, pa, w0, M, stack, path, k, n, top, i, len, visited) && w[i] >= 0
    modifies s, w
    ensures i < pa[i] && Climbing(s, w, pa, w0, M, stack, path, k, n, top, pa[i], len + 1, visited + [i])
  {
    assert i !in visited;
    assert Path(pa, i, k, M) == [i] + Path(pa, pa[i], k, M);
    ghost var before := w[..];
    s[len] := i;
    w[i] := Flip(w[i]);
    MarkOne(before, w0, M, visited, i);
    assert w[..] == before[i := Flip(before[i])];
  }

  /** The marks of `w` flipped from `w0` at the nodes of `M` and of `visited`. */
  ghost predicate MarkedAlong(w: seq<int>, w0: seq<int>, M: set<int>, visited: seq<int>)
  {
    |w| == |w0| && forall j :: 0 <= j < |w| ==> w[j] == if j in M || j in visited then Flip(w0[j]) else w0[j]
  }

  /** Marking one more node `i` extends `visited` by it. */
  lemma MarkOne(w: seq<int>, w0: seq<int>, M: set<int>, visited: seq<int>, i: int)
    requires MarkedAlong(w, w0, M, visited) && 0 <= i < |w| && i !in M && i !in visited
    ensures MarkedAlong(w[i := Flip(w[i])], w0, M, visited + [i])
  {
  }

  /** Line 21: moves `s[0..len)` onto the stack below `top`, keeping its
      order. */
  method PushPath(s: array<int>, len: int, top: int, n: int, ghost path: seq<int>, ghost stack: seq<int>)
    returns (newTop: int)
    requires 0 <= len <= top <= n <= s.Length
    requires s[..len] == path && s[top..n] == stack
    modifies s
    ensures newTop == top - len
    ensures s[newTop..n] == path + stack
  {
    var l, t := len, top;
    while l > 0
      invariant 0 <= l <= len && l + (top - t) == len && l <= t
      invariant s[..l] == path[..l]
      invariant s[t..top] == path[l..len]
      invariant s[top..n] == stack
    {
      t := t - 1;
      l := l - 1;
      s[t] := s[l];
    }
    newTop := t;
    assert s[newTop..n] == s[newTop..top] + s[top..n];
  }

  /** Lines 23-24: flips back every node of the stack, then `k`, which
      restores `w`. */
  method Unmark(s: array<int>, w: array<int>, ghost w0: seq<int>, n: int, k: int, top: int,
                ghost stack: seq<int>, ghost M: set<int>)
    requires s != w && StackState(s, w, w0, n, k, top, stack, M)
    modifies w
    ensures w[..] == w0
  {
    var q := top;
    while q < n
      invariant top <= q <= n
      invariant forall j :: 0 <= j < w.Length ==>
        w[j] == if j in M && j !in s[top..q] then Flip(w0[j]) else w0[j]
    {
      assert s[q] == stack[q - top];
      assert s[top..q + 1] == s[top..q] + [s[q]];
      assert s[q] !in s[top..q] by {
        forall a | top <= a < q
          ensures s[a] != s[q]
        {
          assert s[a] == stack[a - top];
        }
      }
      w[s[q]] := Flip(w[s[q]]);
      q := q + 1;
    }
    assert forall j :: j in M && j != k ==> j in s[top..n];
    w[k] := Flip(w[k]);
  }

  /** `cs_ereach`: -1 when A is not in compressed-column form or an array
      is missing. Otherwise the result `top` is at most `n`, `s[top..n)` is
      the pattern of row k of L (`EReachOf` on column k of A), and `w` is
      as it was. */
  method EReach(A: Cs?, k: int, parent: array?<int>, s: array?<int>, w: array?<int>) returns (top: int)
    requires IsCsc(A) && parent != null && s != null && w != null ==>
      Ready(A, k, parent, s, w)
    modifies s, w
    ensures !(IsCsc(A) && parent != null && s != null && w != null) ==> top == -1
    ensures IsCsc(A) && parent != null && s != null && w != null ==>
      && 0 <= top <= A.n
      && s[top..A.n] == EReachOf(parent[..], A.i[A.p[k]..A.p[k + 1]], k).stack
      && w[..] == old(w[..])
  {
    if !IsCsc(A) || parent == null || s == null || w == null {
      return -1;
    }
    top := ReachFromColumn(A, k, parent, s, w);
  }

  /** What the walk needs of its inputs: column k exists, the arrays are
      long enough and distinct, no node is marked, and the tree walk from
      every entry at most `k` arrives at `k`. */
  ghost predicate Ready(A: Cs, k: int, parent: array<int>, s: array<int>, w: array<int>)
    reads A, A.p, A.i, parent, w
  {
    && A.ColumnShape()
    && 0 <= k < A.n
    && parent.Length >= A.n && s.Length >= A.n && w.Length >= A.n
    && s != w && s != parent && w != parent
    && s != A.p && s != A.i && w != A.p && w != A.i
    && (forall j :: 0 <= j < A.n ==> w[j] >= 0)
    && RowsReach(parent[..], A.i[A.p[k]..A.p[k + 1]], k)
  }

  /** The body of `cs_ereach` once its inputs are known to be present. */
  method ReachFromColumn(A: Cs, k: int, parent: array<int>, s: array<int>, w: array<int>) returns (top: int)
    requires Ready(A, k, parent, s, w)
    modifies s, w
    ensures 0 <= top <= A.n
    ensures s[top..A.n] == EReachOf(parent[..], A.i[A.p[k]..A.p[k + 1]], k).stack
    ensures w[..] == old(w[..])
  {
    var n, Ai := A.n, A.i;
    var lo, hi := A.p[k], A.p[k + 1];
    ghost var pa := parent[..];
    ghost var w0 := w[..];
    ghost var rows := Ai[lo..hi];
    assert lo <= hi;
    assert forall j :: 0 <= j < n ==> w0[j] >= 0;
    top := n;
    w[k] := Flip(w[k]);
    ghost var stack: seq<int> := [];
    ghost var M: set<int> := {k};
    var p := lo;
    while p < hi
      invariant lo <= p <= hi
      invariant parent[..] == pa && Ai[lo..hi] == rows
      invariant Scanning(s, w, pa, w0, rows, k, n, p - lo, top, stack, M)
    {
      var i := Ai[p];
      assert i == rows[p - lo];
      top, stack, M := ScanStep(parent, s, w, i, k, n, top, pa, w0, rows, p - lo, stack, M);
      p := p + 1;
    }
    assert rows[..hi - lo] == rows;
    InvariantGivesStackState(s, w, w0, n, k, top, stack, M, pa, rows);
    Unmark(s, w, w0, n, k, top, stack, M);
  }

  /** The state of the scan after the first `q` entries `rows[..q]` of the
      column: the stack and the marks are what `EReachOf` says. */
  ghost predicate Scanning(s: array<int>, w: array<int>, pa: seq<int>, w0: seq<int>, rows: seq<int>,
                           k: int, n: int, q: int, top: int, stack: seq<int>, M: set<int>)
    reads s, w
  {
    && 0 <= k < n <= s.Length && n <= w.Length == |w0|
    && (forall j :: 0 <= j < n ==> w0[j] >= 0)
    && 0 <= q <= |rows| && RowsReach(pa, rows, k) && RowsReach(pa, rows[..q], k)
    && Reach(stack, M) == EReachOf(pa, rows[..q], k)
    && top == n - |stack| && 0 <= top && s[top..n] == stack
    && (forall j :: 0 <= j < w.Length ==> w[j] == if j in M then Flip(w0[j]) else w0[j])
  }

  /** One entry `i == rows[q]` of the scan. */
  method ScanStep(parent: array<int>, s: array<int>, w: array<int>, i: int, k: int, n: int, top: int,
                  ghost pa: seq<int>, ghost w0: seq<int>, ghost rows: seq<int>, ghost q: int,
                  ghost stack: seq<int>, ghost M: set<int>)
    returns (newTop: int, ghost stack': seq<int>, ghost M': set<int>)
    requires parent != s && parent != w && s != w && parent[..] == pa
    requires Scanning(s, w, pa, w0, rows, k, n, q, top, stack, M) && q < |rows| && i == rows[q]
    modifies s, w
    ensures Scanning(s, w, pa, w0, rows, k, n, q + 1, newTop, stack', M')
  {
    assert rows[..q + 1] == rows[..q] + [i];
    assert rows[..q + 1][..q] == rows[..q];
    InvariantGivesStackState(s, w, w0, n, k, top, stack, M, pa, rows[..q]);
    newTop, stack', M' := VisitEntry(parent, s, w, i, k, n, top, pa, w0, stack, M);
  }

  /** The state of the walk after some entries, as `EReachOf` describes it,
      is a valid stack state. */
  lemma InvariantGivesStackState(s: array<int>, w: array<int>, w0: seq<int>, n: int, k: int, top: int,
                                 stack: seq<int>, M: set<int>, pa: seq<int>, rows: seq<int>)
    requires 0 <= k < n <= s.Length && n <= w.Length == |w0|
    requires forall j :: 0 <= j < n ==> w0[j] >= 0
    requires RowsReach(pa, rows, k) && Reach(stack, M) == EReachOf(pa, rows, k)
    requires top == n - |stack| && 0 <= top && s[top..n] == stack
    requires forall j :: 0 <= j < w.Length ==> w[j] == if j in M then Flip(w0[j]) else w0[j]
    ensures StackState(s, w, w0, n, k, top, stack, M) && UpwardClosed(pa, M, k)
  {
    EReachFacts(pa, rows, k);
  }

  /** One entry `i` of the column (lines 15-21): one below the diagonal is
      skipped; otherwise the walk from `i` is pushed on top of the stack,
      its order kept, and its nodes marked. */
  method VisitEntry(parent: array<int>, s: array<int>, w: array<int>, i: int, k: int, n: int, top: int,
                    ghost pa: seq<int>, ghost w0: seq<int>, ghost stack: seq<int>, ghost M: set<int>)
    returns (newTop: int, ghost stack': seq<int>, ghost M': set<int>)
    requires parent != s && parent != w && s != w && parent[..] == pa
    requires StackState(s, w, w0, n, k, top, stack, M) && UpwardClosed(pa, M, k)
    requires 0 <= i && (i <= k ==> Reaches(pa, i, k))
    modifies s, w
    ensures newTop == n - |stack'| && 0 <= newTop && s[newTop..n] == stack'
    ensures forall j :: 0 <= j < w.Length ==> w[j] == if j in M' then Flip(w0[j]) else w0[j]
    ensures Reach(stack', M') ==
      if i > k then Reach(stack, M)
      else Reach(Path(pa, i, k, M) + stack, M + set x | x in Path(pa, i, k, M))
  {
    newTop, stack', M' := top, stack, M;
    if i <= k {
      PathRoom(pa, i, k, M, stack);
      var len := Climb(parent, s, w, i, k, n, top, pa, w0, stack, M);
      ghost var path := Path(pa, i, k, M);
      newTop := PushPath(s, len, top, n, path, stack);
      M' := M + set x | x in path;
      stack' := path + stack;
    }
  }

  /** Room for the walk: the path from `i` and the stack are distinct nodes
      below `k`, so together there are at most `k` of them. */
  lemma PathRoom(pa: seq<int>, i: int, k: int, M: set<int>, stack: seq<int>)
    requires 0 <= k && Reaches(pa, i, k) && k in M && UpwardClosed(pa, M, k)
    requires Distinct(stack) && forall x :: x in stack <==> x in M && x != k
    requires forall a :: 0 <= a < |stack| ==> 0 <= stack[a] < k
    requires 0 <= i
    ensures |Path(pa, i, k, M)| + |stack| <= k
  {
    var path := Path(pa, i, k, M);
    PathFacts(pa, i, k, M);
    var all := path + stack;
    forall a | 0 <= a < |all|
      ensures 0 <= all[a] < k
    {
      if a >= |path| {
        assert all[a] == stack[a - |path|];
      }
    }
    forall a, b | 0 <= a < b < |all|
      ensures all[a] != all[b]
    {
      if b >= |path| {
        assert all[b] == stack[b - |path|];
        assert all[b] in M;
        if a >= |path| {
          assert all[a] == stack[a - |path|];
        }
      }
    }
    DistinctBound(all, k);
  }
}
