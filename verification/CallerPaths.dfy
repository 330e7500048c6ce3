/** Call chains from entrypoints to mutation sites: the explicit-stack search of
    `AuthorityOwnershipEvidenceExtractor._caller_paths`. */
module CallerPaths {
  import opened Sequences

  datatype Edge = Edge(caller: string, callee: string, sourcePath: string, callsiteRef: string)

  datatype Site = Site(symbol: string, callsiteRef: string)

  datatype PathRecord = PathRecord(
    entrypoint: string, callerChain: seq<string>, terminalMutationSite: string, evidenceRefs: seq<string>)

  type Adjacency = map<string, seq<Edge>>

  /** One entry of the search stack: (current, chain, refs, visited). */
  datatype Frame = Frame(current: string, chain: seq<string>, refs: seq<string>, visited: set<string>)

  // ---------- what a caller path is, independently of the search ----------

  ghost function Callees(p: seq<Edge>): seq<string> {
    seq(|p|, i requires 0 <= i < |p| => p[i].callee)
  }

  ghost function Refs(p: seq<Edge>): seq<string> {
    seq(|p|, i requires 0 <= i < |p| => p[i].callsiteRef)
  }

  ghost predicate Consecutive(p: seq<Edge>) {
    forall i :: 0 < i < |p| ==> p[i].caller == p[i - 1].callee
  }

  /** A walk of at least one edge from `entry` to `target` that repeats no node. */
  ghost predicate IsSimplePath(edges: seq<Edge>, entry: string, target: string, p: seq<Edge>) {
    && p != []
    && (forall e :: e in p ==> e in edges)
    && p[0].caller == entry
    && Consecutive(p)
    && p[|p| - 1].callee == target
    && Distinct([entry] + Callees(p))
  }

  ghost function RecordOf(entry: string, site: Site, p: seq<Edge>): PathRecord {
    PathRecord(entry, [entry] + Callees(p), site.callsiteRef, Refs(p) + [site.callsiteRef])
  }

  function CallerSet(edges: seq<Edge>): set<string> {
    set e | e in edges :: e.caller
  }

  function CalleeSet(edges: seq<Edge>): set<string> {
    set e | e in edges :: e.callee
  }

  function EntrySet(edges: seq<Edge>, allowed: set<string>): set<string> {
    var callers, callees := CallerSet(edges), CalleeSet(edges);
    if allowed != {} then allowed
    else if callers - callees != {} then callers - callees
    else callers
  }

  ghost predicate IsCallerPath(edges: seq<Edge>, sites: seq<Site>, allowed: set<string>, r: PathRecord) {
    exists site, p ::
      && site in sites
      && r.entrypoint in EntrySet(edges, allowed)
      && IsSimplePath(edges, r.entrypoint, site.symbol, p)
      && r == RecordOf(r.entrypoint, site, p)
  }

  /** The callsite reference tells the edges between two symbols apart. */
  ghost predicate DistinctCallsites(edges: seq<Edge>) {
    && Distinct(edges)
    && forall e, f | e in edges && f in edges ::
         e.caller == f.caller && e.callee == f.callee && e.callsiteRef == f.callsiteRef ==> e == f
  }

  ghost predicate DistinctSites(sites: seq<Site>) {
    forall i, j :: 0 <= i < j < |sites| ==> sites[i].callsiteRef != sites[j].callsiteRef
  }

  // ---------- the search tree below one stack frame ----------

  function Out(adj: Adjacency, node: string): seq<Edge> {
    if node in adj then adj[node] else []
  }

  ghost function AllCallees(adj: Adjacency): set<string> {
    set n, e | n in adj && e in adj[n] :: e.callee
  }

  function Start(entry: string): Frame {
    Frame(entry, [entry], [], {entry})
  }

  function Child(f: Frame, e: Edge): Frame {
    Frame(e.callee, f.chain + [e.callee], f.refs + [e.callsiteRef], f.visited + {e.callee})
  }

  predicate Arrived(f: Frame, target: string) {
    f.current == target && |f.chain| > 1
  }

  function Record(entry: string, site: Site, f: Frame): PathRecord {
    PathRecord(entry, f.chain, site.callsiteRef, f.refs + [site.callsiteRef])
  }

  ghost function Emit(adj: Adjacency, entry: string, site: Site, f: Frame): seq<PathRecord>
    decreases AllCallees(adj) - f.visited, 1, 0
  {
    if Arrived(f, site.symbol) then [Record(entry, site, f)]
    else EmitBranch(adj, entry, site, f, Out(adj, f.current))
  }

  ghost function EmitBranch(adj: Adjacency, entry: string, site: Site, f: Frame, edges: seq<Edge>): seq<PathRecord>
    requires forall e :: e in edges ==> e.callee in AllCallees(adj)
    decreases AllCallees(adj) - f.visited, 0, |edges|
  {
    if edges == [] then []
    else
      (if edges[0].callee in f.visited then [] else Emit(adj, entry, site, Child(f, edges[0])))
      + EmitBranch(adj, entry, site, f, edges[1..])
  }

  /** Number of frames popped while the subtree below `f` is searched. */
  ghost function Pops(adj: Adjacency, target: string, f: Frame): nat
    decreases AllCallees(adj) - f.visited, 1, 0
  {
    if Arrived(f, target) then 1 else 1 + PopsBranch(adj, target, f, Out(adj, f.current))
  }

  ghost function PopsBranch(adj: Adjacency, target: string, f: Frame, edges: seq<Edge>): nat
    requires forall e :: e in edges ==> e.callee in AllCallees(adj)
    decreases AllCallees(adj) - f.visited, 0, |edges|
  {
    if edges == [] then 0
    else
      (if edges[0].callee in f.visited then 0 else Pops(adj, target, Child(f, edges[0])))
      + PopsBranch(adj, target, f, edges[1..])
  }

  ghost function EmitStack(adj: Adjacency, entry: string, site: Site, stack: seq<Frame>): seq<PathRecord> {
    if stack == [] then []
    else Emit(adj, entry, site, stack[|stack| - 1]) + EmitStack(adj, entry, site, stack[..|stack| - 1])
  }

  ghost function PopsStack(adj: Adjacency, target: string, stack: seq<Frame>): nat {
    if stack == [] then 0
    else Pops(adj, target, stack[|stack| - 1]) + PopsStack(adj, target, stack[..|stack| - 1])
  }

  // ---------- the search emits exactly the simple paths ----------

  ghost predicate Represents(adj: Adjacency, edges: seq<Edge>) {
    forall n, e :: e in Out(adj, n) <==> e in edges && e.caller == n
  }

  ghost predicate DistinctOut(adj: Adjacency) {
    forall n :: n in adj ==> Distinct(adj[n])
  }

  lemma {:induction false} BranchMember(
    adj: Adjacency, entry: string, site: Site, f: Frame, edges: seq<Edge>, r: PathRecord)
    requires forall e :: e in edges ==> e.callee in AllCallees(adj)
    ensures r in EmitBranch(adj, entry, site, f, edges) <==>
            exists e :: e in edges && e.callee !in f.visited && r in Emit(adj, entry, site, Child(f, e))
  {
    if edges != [] {
      BranchMember(adj, entry, site, f, edges[1..], r);
      assert edges == [edges[0]] + edges[1..];
    }
  }

  /** The edges still to be taken from `f`, as the search takes them. */
  ghost predicate Reaches(edges: seq<Edge>, f: Frame, target: string, p: seq<Edge>)
    decreases |p|
  {
    if Arrived(f, target) then p == []
    else
      && p != [] && p[0] in edges && p[0].caller == f.current && p[0].callee !in f.visited
      && Reaches(edges, Child(f, p[0]), target, p[1..])
  }

  ghost function Follow(f: Frame, p: seq<Edge>): Frame
    decreases |p|
  {
    if p == [] then f else Follow(Child(f, p[0]), p[1..])
  }

  lemma {:induction false} EmitComplete(
    adj: Adjacency, edges: seq<Edge>, entry: string, site: Site, f: Frame, p: seq<Edge>)
    requires Represents(adj, edges) && Reaches(edges, f, site.symbol, p)
    ensures Record(entry, site, Follow(f, p)) in Emit(adj, entry, site, f)
    decreases |p|
  {
    if !Arrived(f, site.symbol) {
      EmitComplete(adj, edges, entry, site, Child(f, p[0]), p[1..]);
      assert p[0] in Out(adj, f.current);
      BranchMember(adj, entry, site, f, Out(adj, f.current), Record(entry, site, Follow(f, p)));
    }
  }

  lemma {:induction false} EmitSound(
    adj: Adjacency, edges: seq<Edge>, entry: string, site: Site, f: Frame, r: PathRecord)
    returns (p: seq<Edge>)
    requires Represents(adj, edges) && r in Emit(adj, entry, site, f)
    ensures Reaches(edges, f, site.symbol, p) && r == Record(entry, site, Follow(f, p))
    decreases AllCallees(adj) - f.visited
  {
    if Arrived(f, site.symbol) {
      p := [];
    } else {
      var out := Out(adj, f.current);
      BranchMember(adj, entry, site, f, out, r);
      var e :| e in out && e.callee !in f.visited && r in Emit(adj, entry, site, Child(f, e));
      assert e in Out(adj, f.current) && e in edges && e.caller == f.current;
      var q := EmitSound(adj, edges, entry, site, Child(f, e), r);
      p := [e] + q;
      assert p[1..] == q;
    }
  }

  ghost predicate WellFormedFrame(f: Frame) {
    && f.chain != [] && f.current == f.chain[|f.chain| - 1] && Distinct(f.chain)
    && forall n :: n in f.visited <==> n in f.chain
  }

  lemma {:induction false} FollowedChain(f: Frame, p: seq<Edge>)
    ensures Follow(f, p).chain == f.chain + Callees(p)
    ensures Follow(f, p).refs == f.refs + Refs(p)
    decreases |p|
  {
    if p != [] {
      FollowedChain(Child(f, p[0]), p[1..]);
      assert Callees(p) == [p[0].callee] + Callees(p[1..]);
      assert Refs(p) == [p[0].callsiteRef] + Refs(p[1..]);
    } else {
      assert Callees(p) == [] && Refs(p) == [];
    }
  }

  /** A frame's chain, extended by `p`, is a simple path that ends at `target`. */
  ghost predicate CompletesSimply(edges: seq<Edge>, f: Frame, target: string, p: seq<Edge>) {
    && (forall e :: e in p ==> e in edges)
    && (p != [] ==> p[0].caller == f.current)
    && Consecutive(p)
    && (if p == [] then f.current else p[|p| - 1].callee) == target
    && Distinct(f.chain + Callees(p))
    && |f.chain| + |p| > 1
  }

  lemma ChildCompletes(edges: seq<Edge>, f: Frame, target: string, p: seq<Edge>)
    requires WellFormedFrame(f) && p != []
    ensures CompletesSimply(edges, f, target, p) <==>
            && p[0] in edges && p[0].caller == f.current && p[0].callee !in f.visited
            && CompletesSimply(edges, Child(f, p[0]), target, p[1..])
  {
    var g, q := Child(f, p[0]), p[1..];
    assert p == [p[0]] + q;
    assert f.chain + Callees(p) == g.chain + Callees(q);
    assert (f.chain + Callees(p))[|f.chain|] == p[0].callee;
    if CompletesSimply(edges, f, target, p) {
      assert p[0].callee !in f.chain by {
        var whole := f.chain + Callees(p);
        forall i | 0 <= i < |f.chain| ensures f.chain[i] != p[0].callee {
          assert whole[i] != whole[|f.chain|];
        }
      }
      assert Consecutive(q) by {
        forall i | 0 < i < |q| ensures q[i].caller == q[i - 1].callee {
          assert p[i + 1].caller == p[i].callee;
        }
      }
      assert q != [] ==> p[1].caller == p[0].callee;
    }
    if p[0].caller == f.current && CompletesSimply(edges, g, target, q) {
      forall i | 0 < i < |p| ensures p[i].caller == p[i - 1].callee {
        if i > 1 {
          assert q[i - 1].caller == q[i - 2].callee;
        }
      }
    }
  }

  lemma {:induction false} ReachesIsSimple(edges: seq<Edge>, f: Frame, target: string, p: seq<Edge>)
    requires WellFormedFrame(f)
    ensures Reaches(edges, f, target, p) <==> CompletesSimply(edges, f, target, p)
    decreases |p|
  {
    if p == [] {
      assert f.chain + Callees(p) == f.chain;
    } else {
      ChildCompletes(edges, f, target, p);
      if Arrived(f, target) {
        var whole := f.chain + Callees(p);
        assert whole[|f.chain| - 1] == target;
        assert p[|p| - 1].callee == whole[|whole| - 1];
      } else if p[0].callee !in f.visited {
        assert WellFormedFrame(Child(f, p[0])) by {
          DistinctConcat(f.chain, [p[0].callee]);
        }
        ReachesIsSimple(edges, Child(f, p[0]), target, p[1..]);
      }
    }
  }

  /** Soundness and completeness of one search: its records are those of the simple paths. */
  lemma EmitExact(adj: Adjacency, edges: seq<Edge>, entry: string, site: Site, r: PathRecord)
    requires Represents(adj, edges)
    ensures r in Emit(adj, entry, site, Start(entry)) <==>
            exists p :: IsSimplePath(edges, entry, site.symbol, p) && r == RecordOf(entry, site, p)
  {
    var f := Start(entry);
    forall p
      ensures Reaches(edges, f, site.symbol, p) <==> IsSimplePath(edges, entry, site.symbol, p)
      ensures Record(entry, site, Follow(f, p)) == RecordOf(entry, site, p)
    {
      ReachesIsSimple(edges, f, site.symbol, p);
      FollowedChain(f, p);
      assert [] + Refs(p) == Refs(p);
    }
    if r in Emit(adj, entry, site, f) {
      var p := EmitSound(adj, edges, entry, site, f, r);
      assert IsSimplePath(edges, entry, site.symbol, p) && r == RecordOf(entry, site, p);
    }
    if p :| IsSimplePath(edges, entry, site.symbol, p) && r == RecordOf(entry, site, p) {
      EmitComplete(adj, edges, entry, site, f, p);
    }
  }

  // ---------- and emits each of them once ----------

  lemma {:induction false} EmitExtends(adj: Adjacency, entry: string, site: Site, f: Frame, r: PathRecord)
    requires r in Emit(adj, entry, site, f)
    ensures f.chain <= r.callerChain && f.refs <= r.evidenceRefs
    ensures r.entrypoint == entry && r.terminalMutationSite == site.callsiteRef
    decreases AllCallees(adj) - f.visited
  {
    if !Arrived(f, site.symbol) {
      var out := Out(adj, f.current);
      BranchMember(adj, entry, site, f, out, r);
      var e :| e in out && e.callee !in f.visited && r in Emit(adj, entry, site, Child(f, e));
      EmitExtends(adj, entry, site, Child(f, e), r);
    }
  }

  lemma RecordNamesEdge(adj: Adjacency, entry: string, site: Site, f: Frame, e: Edge, r: PathRecord)
    requires r in Emit(adj, entry, site, Child(f, e))
    ensures |f.chain| < |r.callerChain| && r.callerChain[|f.chain|] == e.callee
    ensures |f.refs| < |r.evidenceRefs| && r.evidenceRefs[|f.refs|] == e.callsiteRef
  {
    EmitExtends(adj, entry, site, Child(f, e), r);
  }

  lemma {:induction false} EmitDistinct(adj: Adjacency, edges: seq<Edge>, entry: string, site: Site, f: Frame)
    requires Represents(adj, edges) && DistinctOut(adj) && DistinctCallsites(edges)
    ensures Distinct(Emit(adj, entry, site, f))
    decreases AllCallees(adj) - f.visited, 1, 0
  {
    if !Arrived(f, site.symbol) {
      BranchDistinct(adj, edges, entry, site, f, Out(adj, f.current));
    }
  }

  lemma {:induction false} BranchDistinct(
    adj: Adjacency, edges: seq<Edge>, entry: string, site: Site, f: Frame, out: seq<Edge>)
    requires Represents(adj, edges) && DistinctOut(adj) && DistinctCallsites(edges)
    requires Distinct(out) && forall e :: e in out ==> e in Out(adj, f.current)
    ensures Distinct(EmitBranch(adj, entry, site, f, out))
    decreases AllCallees(adj) - f.visited, 0, |out|
  {
    if out != [] {
      var e, rest := out[0], out[1..];
      BranchDistinct(adj, edges, entry, site, f, rest);
      assert e in Out(adj, f.current);
      if e.callee !in f.visited {
        var here := Emit(adj, entry, site, Child(f, e));
        EmitDistinct(adj, edges, entry, site, Child(f, e));
        assert e !in rest;
        forall r | r in here ensures r !in EmitBranch(adj, entry, site, f, rest) {
          RecordNamesEdge(adj, entry, site, f, e, r);
          BranchMember(adj, entry, site, f, rest, r);
          forall e' | e' in rest && e'.callee !in f.visited ensures r !in Emit(adj, entry, site, Child(f, e')) {
            assert e' in Out(adj, f.current);
            if r in Emit(adj, entry, site, Child(f, e')) {
              RecordNamesEdge(adj, entry, site, f, e', r);
              assert false;
            }
          }
        }
        DistinctConcat(here, EmitBranch(adj, entry, site, f, rest));
      }
    }
  }

  // ---------- how many frames a search can pop ----------

  ghost function Power(base: nat, exponent: nat): nat {
    if exponent == 0 then 1 else base * Power(base, exponent - 1)
  }

  ghost predicate OutDegreeAtMost(adj: Adjacency, degree: nat) {
    forall n :: n in adj ==> |adj[n]| <= degree
  }

  lemma {:induction false} PowerPositive(base: nat, exponent: nat)
    ensures Power(base + 1, exponent) >= 1
  {
    if exponent > 0 {
      PowerPositive(base, exponent - 1);
    }
  }

  lemma {:induction false} PopsBranchBound(adj: Adjacency, target: string, f: Frame, out: seq<Edge>, bound: nat)
    requires forall e :: e in out ==> e.callee in AllCallees(adj)
    requires forall e :: e in out && e.callee !in f.visited ==> Pops(adj, target, Child(f, e)) <= bound
    ensures PopsBranch(adj, target, f, out) <= |out| * bound
  {
    if out != [] {
      assert out == [out[0]] + out[1..];
      PopsBranchBound(adj, target, f, out[1..], bound);
      assert |out| * bound == bound + (|out| - 1) * bound;
    }
  }

  lemma PowerStep(degree: nat, width: nat, exponent: nat)
    requires width <= degree && exponent > 0
    ensures 1 + width * Power(degree + 1, exponent - 1) <= Power(degree + 1, exponent)
  {
    var p := Power(degree + 1, exponent - 1);
    PowerPositive(degree, exponent - 1);
    assert width * p <= degree * p;
    assert (degree + 1) * p == degree * p + p;
  }

  /** Below a frame at most (D + 1)^(N - visited) frames are popped, where D bounds the
      out-degree and N counts the callees. */
  lemma {:induction false} PopsBound(adj: Adjacency, target: string, f: Frame, degree: nat)
    requires OutDegreeAtMost(adj, degree)
    ensures Pops(adj, target, f) <= Power(degree + 1, |AllCallees(adj) - f.visited|)
    decreases AllCallees(adj) - f.visited
  {
    var free := AllCallees(adj) - f.visited;
    PowerPositive(degree, |free|);
    if !Arrived(f, target) {
      var out := Out(adj, f.current);
      if free == {} {
        PopsBranchBound(adj, target, f, out, 0);
      } else {
        forall e | e in out && e.callee !in f.visited
          ensures Pops(adj, target, Child(f, e)) <= Power(degree + 1, |free| - 1)
        {
          FreeAfter(adj, f, e);
          PopsBound(adj, target, Child(f, e), degree);
        }
        PopsBranchBound(adj, target, f, out, Power(degree + 1, |free| - 1));
        PowerStep(degree, |out|, |free|);
      }
    }
  }

  lemma FreeAfter(adj: Adjacency, f: Frame, e: Edge)
    requires e in Out(adj, f.current) && e.callee !in f.visited
    ensures AllCallees(adj) - Child(f, e).visited < AllCallees(adj) - f.visited
    ensures |AllCallees(adj) - Child(f, e).visited| == |AllCallees(adj) - f.visited| - 1
  {
    var free := AllCallees(adj) - f.visited;
    assert e.callee in free;
    assert AllCallees(adj) - Child(f, e).visited == free - {e.callee};
  }

  // ---------- the search itself ----------

  method SearchFrom(adj: Adjacency, entry: string, site: Site) returns (found: seq<PathRecord>, ghost pops: nat)
    ensures found == Emit(adj, entry, site, Start(entry))
    ensures pops == Pops(adj, site.symbol, Start(entry))
  {
    var stack := [Start(entry)];
    found, pops := [], 0;
    while stack != []
      invariant found + EmitStack(adj, entry, site, stack) == Emit(adj, entry, site, Start(entry))
      invariant pops + PopsStack(adj, site.symbol, stack) == Pops(adj, site.symbol, Start(entry))
      decreases PopsStack(adj, site.symbol, stack)
    {
      var f := stack[|stack| - 1];
      stack := stack[..|stack| - 1];
      pops := pops + 1;
      if Arrived(f, site.symbol) {
        found := found + [Record(entry, site, f)];
        continue;
      }
      stack := PushChildren(adj, entry, site, f, stack);
    }
  }

  /** The stack after pushing the unvisited callees of `edges`, the first of them on top. */
  ghost predicate PushedOn(
    adj: Adjacency, entry: string, site: Site, f: Frame, edges: seq<Edge>, stack: seq<Frame>, pushed: seq<Frame>)
    requires forall e :: e in edges ==> e.callee in AllCallees(adj)
  {
    && EmitStack(adj, entry, site, pushed) == EmitBranch(adj, entry, site, f, edges)
       + EmitStack(adj, entry, site, stack)
    && PopsStack(adj, site.symbol, pushed) == PopsBranch(adj, site.symbol, f, edges)
       + PopsStack(adj, site.symbol, stack)
  }

  lemma PushStep(
    adj: Adjacency, entry: string, site: Site, f: Frame, edges: seq<Edge>, stack: seq<Frame>, pushed: seq<Frame>)
    requires edges != [] && forall e :: e in edges ==> e.callee in AllCallees(adj)
    requires PushedOn(adj, entry, site, f, edges[1..], stack, pushed)
    ensures PushedOn(adj, entry, site, f, edges, stack,
                     if edges[0].callee in f.visited then pushed else pushed + [Child(f, edges[0])])
  {
    var g := Child(f, edges[0]);
    assert (pushed + [g])[..|pushed|] == pushed;
    if edges[0].callee !in f.visited {
      assert EmitStack(adj, entry, site, pushed + [g]) == Emit(adj, entry, site, g)
        + EmitStack(adj, entry, site, pushed);
    }
  }

  /** Push the unvisited callees in reverse, so that the first of them is on top. */
  method PushChildren(adj: Adjacency, ghost entry: string, ghost site: Site, f: Frame, stack: seq<Frame>)
    returns (pushed: seq<Frame>)
    ensures PushedOn(adj, entry, site, f, Out(adj, f.current), stack, pushed)
  {
    var out := Out(adj, f.current);
    var i := |out|;
    pushed := stack;
    while i > 0
      invariant 0 <= i <= |out|
      invariant PushedOn(adj, entry, site, f, out[i..], stack, pushed)
    {
      i := i - 1;
      var e := out[i];
      assert out[i..][1..] == out[i + 1..];
      PushStep(adj, entry, site, f, out[i..], stack, pushed);
      if e.callee !in f.visited {
        pushed := pushed + [Child(f, e)];
      }
    }
    assert out[0..] == out;
  }

  // ---------- the adjacency table ----------

  predicate EdgeLe(a: Edge, b: Edge) {
    if a.callee == b.callee then StrLe(a.callsiteRef, b.callsiteRef) else StrLe(a.callee, b.callee)
  }

  function EdgesOf(edges: seq<Edge>, node: string): seq<Edge> {
    if edges == [] then []
    else EdgesOf(edges[..|edges| - 1], node)
         + if edges[|edges| - 1].caller == node then [edges[|edges| - 1]] else []
  }

  lemma {:induction false} EdgesOfMember(edges: seq<Edge>, node: string, e: Edge)
    ensures e in EdgesOf(edges, node) <==> e in edges && e.caller == node
  {
    if edges != [] {
      EdgesOfMember(edges[..|edges| - 1], node, e);
      assert edges == edges[..|edges| - 1] + [edges[|edges| - 1]];
    }
  }

  lemma {:induction false} EdgesOfDistinct(edges: seq<Edge>, node: string)
    requires Distinct(edges)
    ensures Distinct(EdgesOf(edges, node))
  {
    if edges != [] {
      var init, last := edges[..|edges| - 1], edges[|edges| - 1];
      EdgesOfDistinct(init, node);
      EdgesOfMember(init, node, last);
      assert last !in init;
      DistinctConcat(EdgesOf(init, node), if last.caller == node then [last] else []);
    }
  }

  function AddEdge(adj: Adjacency, e: Edge): (r: Adjacency)
    ensures forall n :: Out(r, n) == Out(adj, n) + if e.caller == n then [e] else []
  {
    adj[e.caller := Out(adj, e.caller) + [e]]
  }

  /** Group the edges by caller, in order of appearance. */
  method GroupByCaller(edges: seq<Edge>) returns (adj: Adjacency, callers: set<string>, callees: set<string>)
    ensures callers == CallerSet(edges) && callees == CalleeSet(edges)
    ensures forall n :: Out(adj, n) == EdgesOf(edges, n)
  {
    adj, callers, callees := map[], {}, {};
    for i := 0 to |edges|
      invariant callers == CallerSet(edges[..i]) && callees == CalleeSet(edges[..i])
      invariant forall n :: Out(adj, n) == EdgesOf(edges[..i], n)
    {
      var e := edges[i];
      EdgesOfStep(edges, i);
      adj := AddEdge(adj, e);
      callers := callers + {e.caller};
      callees := callees + {e.callee};
    }
    assert edges[..|edges|] == edges;
  }

  lemma EdgesOfStep(edges: seq<Edge>, i: nat)
    requires i < |edges|
    ensures CallerSet(edges[..i + 1]) == CallerSet(edges[..i]) + {edges[i].caller}
    ensures CalleeSet(edges[..i + 1]) == CalleeSet(edges[..i]) + {edges[i].callee}
    ensures forall n :: EdgesOf(edges[..i + 1], n) ==
                        EdgesOf(edges[..i], n) + if edges[i].caller == n then [edges[i]] else []
  {
    assert edges[..i + 1][..i] == edges[..i];
    assert edges[..i + 1] == edges[..i] + [edges[i]];
  }

  /** Sort every group by callee and callsite, in place in the table. */
  method SortGroups(grouped: Adjacency) returns (adj: Adjacency)
    ensures forall n :: Out(adj, n) == Sort(Out(grouped, n), EdgeLe)
  {
    adj := grouped;
    var keys := adj.Keys;
    while keys != {}
      invariant keys <= adj.Keys == grouped.Keys
      invariant forall n :: n in keys ==> adj[n] == grouped[n]
      invariant forall n :: n in grouped && n !in keys ==> adj[n] == Sort(grouped[n], EdgeLe)
      decreases keys
    {
      var k :| k in keys;
      adj := adj[k := Sort(adj[k], EdgeLe)];
      keys := keys - {k};
    }
  }

  lemma AdjacencyRepresents(edges: seq<Edge>, adj: Adjacency)
    requires forall n :: Out(adj, n) == Sort(EdgesOf(edges, n), EdgeLe)
    ensures Represents(adj, edges)
    ensures DistinctCallsites(edges) ==> DistinctOut(adj)
  {
    forall n, e ensures e in Out(adj, n) <==> e in edges && e.caller == n {
      SameElements(EdgesOf(edges, n), Out(adj, n));
      EdgesOfMember(edges, n, e);
    }
    if DistinctCallsites(edges) {
      forall n | n in adj ensures Distinct(adj[n]) {
        EdgesOfDistinct(edges, n);
        assert adj[n] == Out(adj, n);
        DistinctPermutation(EdgesOf(edges, n), adj[n]);
      }
    }
  }

  // ---------- the whole report ----------

  /** Python sorts the records by entrypoint and then by their printed form. */
  predicate RecordLe(text: PathRecord -> string, a: PathRecord, b: PathRecord) {
    KeyLe((r: PathRecord) => r.entrypoint, text, a, b)
  }

  lemma RecordLeMeans(text: PathRecord -> string, a: PathRecord, b: PathRecord)
    ensures RecordLe(text, a, b) ==>
              StrLe(a.entrypoint, b.entrypoint) && (a.entrypoint == b.entrypoint ==> StrLe(text(a), text(b)))
  {
    KeyLeMeans((r: PathRecord) => r.entrypoint, text, a, b);
  }

  lemma RecordLeIsTotalPreorder(text: PathRecord -> string)
    ensures TotalPreorder((a, b) => RecordLe(text, a, b))
  {
    var entrypoint := (r: PathRecord) => r.entrypoint;
    KeyLeIsTotalPreorder(entrypoint, text);
    assert forall a, b :: RecordLe(text, a, b) == ((x, y) => KeyLe(entrypoint, text, x, y))(a, b);
  }

  /** The allowed symbols if any are given; else the callers that nobody calls, or all callers when
      everybody is called. */
  lemma EntrypointsIff(edges: seq<Edge>, allowed: set<string>, n: string)
    ensures n in EntrySet(edges, allowed) <==>
              if allowed != {} then n in allowed
              else
                && (exists e :: e in edges && e.caller == n)
                && (NobodyCalls(edges, n) || !exists e :: e in edges && NobodyCalls(edges, e.caller))
  {
    var left := CallerSet(edges) - CalleeSet(edges);
    forall m ensures m in left <==> (exists e :: e in edges && e.caller == m) && NobodyCalls(edges, m) {
      UncalledIff(edges, m);
    }
    if e :| e in edges && NobodyCalls(edges, e.caller) {
      assert e.caller in left;
    }
    if left != {} {
      var m :| m in left;
      var e :| e in edges && e.caller == m;
      assert NobodyCalls(edges, e.caller);
    }
  }

  lemma UncalledIff(edges: seq<Edge>, m: string)
    ensures m in CalleeSet(edges) <==> !NobodyCalls(edges, m)
  {
    if m in CalleeSet(edges) {
      var e :| e in edges && e.callee == m;
    }
  }

  ghost predicate NobodyCalls(edges: seq<Edge>, n: string) {
    forall e :: e in edges ==> e.callee != n
  }

  method SortedEntrypoints(edges: seq<Edge>, callers: set<string>, callees: set<string>, allowed: set<string>)
    returns (entries: seq<string>)
    requires callers == CallerSet(edges) && callees == CalleeSet(edges)
    ensures Distinct(entries) && Sorted(entries, StrLe) && forall n :: n in entries <==> n in EntrySet(edges, allowed)
  {
    entries := SortSet(
      if allowed != {} then allowed else if callers - callees != {} then callers - callees else callers);
  }

  /** All records found for one site, whatever the entrypoint. */
  method SearchSite(adj: Adjacency, edges: seq<Edge>, entries: seq<string>, site: Site)
    returns (output: seq<PathRecord>)
    requires Represents(adj, edges) && Distinct(entries)
    ensures forall r :: r in output <==>
              r.entrypoint in entries
              && exists p :: IsSimplePath(edges, r.entrypoint, site.symbol, p) && r == RecordOf(r.entrypoint, site, p)
    ensures DistinctCallsites(edges) && DistinctOut(adj) ==> Distinct(output)
  {
    output := [];
    for i := 0 to |entries|
      invariant forall r :: r in output <==>
                  r.entrypoint in entries[..i]
                  && exists p ::
                       IsSimplePath(edges, r.entrypoint, site.symbol, p) && r == RecordOf(r.entrypoint, site, p)
      invariant DistinctCallsites(edges) && DistinctOut(adj) ==> Distinct(output)
    {
      var found, _ := SearchFrom(adj, entries[i], site);
      assert entries[..i + 1] == entries[..i] + [entries[i]];
      forall r
        ensures r in found <==>
                r.entrypoint == entries[i]
                && exists p :: IsSimplePath(edges, r.entrypoint, site.symbol, p) && r == RecordOf(r.entrypoint, site, p)
      {
        EmitExact(adj, edges, entries[i], site, r);
      }
      if DistinctCallsites(edges) && DistinctOut(adj) {
        EmitDistinct(adj, edges, entries[i], site, Start(entries[i]));
        assert entries[i] !in entries[..i];
        DistinctConcat(output, found);
      }
      output := output + found;
    }
    assert entries[..|entries|] == entries;
  }

  /** The report: exactly the caller paths, each once, in an order fixed by their content. */
  ghost predicate IsReport(
    edges: seq<Edge>, sites: seq<Site>, allowed: set<string>, text: PathRecord -> string, report: seq<PathRecord>)
  {
    && Sorted(report, (a, b) => RecordLe(text, a, b))
    && (forall r :: r in report <==> IsCallerPath(edges, sites, allowed, r))
    && (DistinctCallsites(edges) && DistinctSites(sites) ==> Distinct(report))
  }

  method CallerPaths(edges: seq<Edge>, sites: seq<Site>, allowed: set<string>, text: PathRecord -> string)
    returns (report: seq<PathRecord>)
    ensures IsReport(edges, sites, allowed, text, report)
    ensures forall i, j :: 0 <= i < j < |report| ==>
              && StrLe(report[i].entrypoint, report[j].entrypoint)
              && (report[i].entrypoint == report[j].entrypoint ==> StrLe(text(report[i]), text(report[j])))
  {
    var grouped, callers, callees := GroupByCaller(edges);
    var adj := SortGroups(grouped);
    AdjacencyRepresents(edges, adj);
    var entries := SortedEntrypoints(edges, callers, callees, allowed);
    var output: seq<PathRecord> := [];
    for i := 0 to |sites|
      invariant forall r :: r in output <==> IsCallerPath(edges, sites[..i], allowed, r)
      invariant DistinctCallsites(edges) && DistinctSites(sites) ==> Distinct(output)
    {
      var found := SearchSite(adj, edges, entries, sites[i]);
      assert sites[..i + 1] == sites[..i] + [sites[i]];
      if DistinctCallsites(edges) && DistinctSites(sites) {
        forall r | r in output ensures r !in found {
          assert IsCallerPath(edges, sites[..i], allowed, r);
        }
        DistinctConcat(output, found);
      }
      output := output + found;
    }
    assert sites[..|sites|] == sites;
    report := Sort(output, (a, b) => RecordLe(text, a, b));
    RecordLeIsTotalPreorder(text);
    SortIsSorted(output, (a, b) => RecordLe(text, a, b));
    SameElements(output, report);
    if DistinctCallsites(edges) && DistinctSites(sites) {
      DistinctPermutation(output, report);
    }
    forall i, j | 0 <= i < j < |report|
      ensures StrLe(report[i].entrypoint, report[j].entrypoint)
      ensures report[i].entrypoint == report[j].entrypoint ==> StrLe(text(report[i]), text(report[j]))
    {
      RecordLeMeans(text, report[i], report[j]);
    }
  }

  /** The report depends on the edges and sites as sets only, not on their order. */
  lemma ReportIgnoresOrder(
    edges: seq<Edge>, edges': seq<Edge>, sites: seq<Site>, sites': seq<Site>, allowed: set<string>,
    text: PathRecord -> string, report: seq<PathRecord>, report': seq<PathRecord>)
    requires forall e :: e in edges <==> e in edges'
    requires forall s :: s in sites <==> s in sites'
    requires DistinctCallsites(edges) && DistinctSites(sites)
    requires DistinctCallsites(edges') && DistinctSites(sites')
    requires forall a, b :: text(a) == text(b) ==> a == b
    requires IsReport(edges, sites, allowed, text, report)
    requires IsReport(edges', sites', allowed, text, report')
    ensures report == report'
  {
    var le := (a, b) => RecordLe(text, a, b);
    assert EntrySet(edges, allowed) == EntrySet(edges', allowed) by {
      assert CallerSet(edges) == CallerSet(edges') && CalleeSet(edges) == CalleeSet(edges');
    }
    forall r ensures r in report <==> r in report' {
      forall entry, target, p
        ensures IsSimplePath(edges, entry, target, p) <==> IsSimplePath(edges', entry, target, p)
      {}
      assert IsCallerPath(edges, sites, allowed, r) <==> IsCallerPath(edges', sites', allowed, r);
    }
    DistinctSameElements(report, report');
    forall x, y | x in report && y in report && le(x, y) && le(y, x) ensures x == y {
      if x.entrypoint == y.entrypoint {
        StrLeAntisymmetric(text(x), text(y));
      } else {
        StrLeAntisymmetric(x.entrypoint, y.entrypoint);
      }
    }
    SortedUnique(report, report', le);
  }
}
