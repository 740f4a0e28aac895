/** The sidebar tree, built in one pass over the flows (src/scope.ts:212-275). */
module ScopeTree {
  import opened Wrappers
  import opened Proto
  import opened Letters
  import opened MapSum
  import opened Scope

  const MAX_PATH_DEPTH: nat := 2

  /** A path node; the tree's nodes before they are sorted into lists. */
  datatype PathNode = PathNode(segment: string, prefix: string, count: nat, kids: map<string, PathNode>)

  datatype AppNode = AppNode(count: nat, hosts: map<string, nat>)

  datatype HostNode = HostNode(count: nat, tls: bool, kids: map<string, PathNode>)

  datatype Tree = Tree(apps: map<string, AppNode>, hosts: map<string, HostNode>, total: nat)

  /** The node a path goes through at `depth`, before it is counted. */
  function NodeFor(into: map<string, PathNode>, seg: string, prefix: string): PathNode
  {
    if seg in into then into[seg] else PathNode(seg, prefix + "/" + seg, 0, map[])
  }

  function AddPath(into: map<string, PathNode>, segs: seq<string>, depth: nat, prefix: string): map<string, PathNode>
    requires depth <= |segs|
    decreases |segs| - depth
  {
    if depth >= MAX_PATH_DEPTH || depth >= |segs| then into
    else
      var seg := segs[depth];
      var full := prefix + "/" + seg;
      var node := NodeFor(into, seg, prefix);
      into[seg := node.(count := node.count + 1, kids := AddPath(node.kids, segs, depth + 1, full))]
  }

  /* ------------------------------- counting ----------------------------- */

  /** The count of the node under these segments; nothing there counts nothing. */
  function CountAt(kids: map<string, PathNode>, q: seq<string>): nat
    decreases |q|
  {
    if q == [] || q[0] !in kids then 0
    else if |q| == 1 then kids[q[0]].count
    else CountAt(kids[q[0]].kids, q[1..])
  }

  /** Adding a path counts it at each node on its way down, as deep as the tree goes. */
  lemma {:induction false} AddPathCounts(into: map<string, PathNode>, segs: seq<string>, depth: nat, prefix: string,
                                         q: seq<string>)
    requires depth <= |segs| && q != []
    ensures CountAt(AddPath(into, segs, depth, prefix), q)
         == CountAt(into, q) + (if depth + |q| <= MAX_PATH_DEPTH && q <= segs[depth..] then 1 else 0)
    decreases |segs| - depth
  {
    if depth < MAX_PATH_DEPTH && depth < |segs| {
      var seg := segs[depth];
      var node := NodeFor(into, seg, prefix);
      assert segs[depth..] == [seg] + segs[depth + 1..];
      if q[0] == seg {
        PrefixStep(q, segs[depth + 1..]);
        if |q| > 1 {
          AddPathCounts(node.kids, segs, depth + 1, prefix + "/" + seg, q[1..]);
        }
      } else {
        HeadDiffers(q, segs[depth..]);
      }
    } else if depth == |segs| {
      assert segs[depth..] == [];
    }
  }

  lemma HeadDiffers(q: seq<string>, p: seq<string>)
    requires q != [] && p != [] && q[0] != p[0]
    ensures !(q <= p)
  {}

  function NodeCount(n: PathNode): nat { n.count }

  /** A node is named for where it is, and its children count no more than it does. */
  ghost predicate NodeBuilt(n: PathNode, seg: string, prefix: string, levels: nat)
    decreases levels, 0
  {
    && n.segment == seg && n.prefix == prefix + "/" + seg && Sum(n.kids, NodeCount) <= n.count
    && (if levels == 0 then n.kids == map[] else WellBuilt(n.kids, n.prefix, levels - 1))
  }

  ghost predicate WellBuilt(kids: map<string, PathNode>, prefix: string, levels: nat)
    decreases levels, 1
  {
    forall seg :: seg in kids ==> NodeBuilt(kids[seg], seg, prefix, levels)
  }

  lemma NodeForBuilt(into: map<string, PathNode>, seg: string, prefix: string, levels: nat)
    requires WellBuilt(into, prefix, levels)
    ensures NodeBuilt(NodeFor(into, seg, prefix), seg, prefix, levels)
  {
    assert Sum<string, PathNode>(map[], NodeCount) == 0;
  }

  /** Counting a path at a node and on down keeps it well built. */
  lemma CountNode(n: PathNode, segs: seq<string>, depth: nat, prefix: string)
    requires depth < MAX_PATH_DEPTH && depth < |segs|
    requires NodeBuilt(n, segs[depth], prefix, MAX_PATH_DEPTH - 1 - depth)
    ensures NodeBuilt(n.(count := n.count + 1, kids := AddPath(n.kids, segs, depth + 1, n.prefix)),
                      segs[depth], prefix, MAX_PATH_DEPTH - 1 - depth)
    decreases |segs| - depth, 0
  {
    if depth + 1 < MAX_PATH_DEPTH { AddPathWellBuilt(n.kids, segs, depth + 1, n.prefix); }
  }

  lemma PutNode(into: map<string, PathNode>, prefix: string, levels: nat, seg: string, n: PathNode)
    requires WellBuilt(into, prefix, levels) && NodeBuilt(n, seg, prefix, levels)
    requires n.count == NodeFor(into, seg, prefix).count + 1
    ensures WellBuilt(into[seg := n], prefix, levels)
    ensures Sum(into[seg := n], NodeCount) == Sum(into, NodeCount) + 1
  {
    SumPut(into, NodeCount, seg, n);
  }

  lemma {:induction false} AddPathWellBuilt(into: map<string, PathNode>, segs: seq<string>, depth: nat, prefix: string)
    requires depth < MAX_PATH_DEPTH && depth <= |segs|
    requires WellBuilt(into, prefix, MAX_PATH_DEPTH - 1 - depth)
    ensures WellBuilt(AddPath(into, segs, depth, prefix), prefix, MAX_PATH_DEPTH - 1 - depth)
    ensures Sum(into, NodeCount) <= Sum(AddPath(into, segs, depth, prefix), NodeCount) <= Sum(into, NodeCount) + 1
    decreases |segs| - depth, 1
  {
    if depth < |segs| {
      var seg := segs[depth];
      var n := NodeFor(into, seg, prefix);
      NodeForBuilt(into, seg, prefix, MAX_PATH_DEPTH - 1 - depth);
      CountNode(n, segs, depth, prefix);
      PutNode(into, prefix, MAX_PATH_DEPTH - 1 - depth, seg,
              n.(count := n.count + 1, kids := AddPath(n.kids, segs, depth + 1, n.prefix)));
    }
  }

  /* ------------------------------- the pass ----------------------------- */

  /** How many flows a scope accepts. */
  function Matches(flows: seq<Flow>, s: Scope): nat
  {
    if flows == [] then 0 else (if MatchScope(flows[0], s, {}) then 1 else 0) + Matches(flows[1..], s)
  }

  /** How many flows go to a host by a path that starts with these segments. */
  function Through(flows: seq<Flow>, host: string, q: seq<string>): nat
  {
    if flows == [] then 0
    else (if flows[0].host == host && q <= SegmentsOf(flows[0].path) then 1 else 0) + Through(flows[1..], host, q)
  }

  lemma {:induction false} MatchesSnoc(flows: seq<Flow>, f: Flow, s: Scope)
    ensures Matches(flows + [f], s) == Matches(flows, s) + (if MatchScope(f, s, {}) then 1 else 0)
  {
    if flows == [] {
      assert [] + [f] == [f] && [f][1..] == [];
    } else {
      assert (flows + [f])[1..] == flows[1..] + [f];
      MatchesSnoc(flows[1..], f, s);
    }
  }

  lemma {:induction false} ThroughSnoc(flows: seq<Flow>, f: Flow, host: string, q: seq<string>)
    ensures Through(flows + [f], host, q)
         == Through(flows, host, q) + (if f.host == host && q <= SegmentsOf(f.path) then 1 else 0)
  {
    if flows == [] {
      assert [] + [f] == [f] && [f][1..] == [];
    } else {
      assert (flows + [f])[1..] == flows[1..] + [f];
      ThroughSnoc(flows[1..], f, host, q);
    }
  }

  ghost predicate AnyHttps(flows: seq<Flow>, host: string)
  {
    exists i :: 0 <= i < |flows| && flows[i].host == host && Https(flows[i])
  }

  function AppCount(t: Tree, name: string): nat { if name in t.apps then t.apps[name].count else 0 }

  function HostCount(t: Tree, host: string): nat { if host in t.hosts then t.hosts[host].count else 0 }

  function PairCount(t: Tree, name: string, host: string): nat
  {
    if name in t.apps && host in t.apps[name].hosts then t.apps[name].hosts[host] else 0
  }

  function PathCount(t: Tree, host: string, q: seq<string>): nat
  {
    if host in t.hosts then CountAt(t.hosts[host].kids, q) else 0
  }

  function OfApp(a: AppNode): nat { a.count }

  function OfHost(h: HostNode): nat { h.count }

  function Same(n: nat): nat { n }

  predicate Https(f: Flow) { Lower(f.scheme) == "https" }

  /** The scheme counts in whatever case it was captured. */
  lemma HttpsIff(f: Flow)
    ensures Https(f) <==> SameLetters(f.scheme, "https")
  {
    LowerIffSameLetters(f.scheme, "https");
    assert Lower("https") == "https";
  }

  function AppRow(t: Tree, name: string): AppNode { if name in t.apps then t.apps[name] else AppNode(0, map[]) }

  function HostRow(t: Tree, host: string): HostNode
  {
    if host in t.hosts then t.hosts[host] else HostNode(0, false, map[])
  }

  function AddHost(a: AppNode, host: string): AppNode
  {
    AppNode(a.count + 1, a.hosts[host := (if host in a.hosts then a.hosts[host] else 0) + 1])
  }

  function AddPathOf(h: HostNode, f: Flow): HostNode
  {
    HostNode(h.count + 1, h.tls || Https(f), AddPath(h.kids, SegmentsOf(f.path), 0, ""))
  }

  /** One flow counted into the tree. */
  function AddFlow(t: Tree, f: Flow): Tree
  {
    Tree(t.apps[AppOf(f) := AddHost(AppRow(t, AppOf(f)), f.host)],
         t.hosts[f.host := AddPathOf(HostRow(t, f.host), f)],
         t.total + 1)
  }

  /** An app's hosts add up to it. */
  ghost predicate AppAddsUp(a: AppNode) { Sum(a.hosts, Same) == a.count }

  /** A host's top path nodes are well built and count no more than it does. */
  ghost predicate HostAddsUp(h: HostNode)
  {
    Sum(h.kids, NodeCount) <= h.count && WellBuilt(h.kids, "", MAX_PATH_DEPTH - 1)
  }

  /** Counts of apps, of hosts, and of an app's hosts add up to what they divide. */
  ghost predicate AddsUp(t: Tree)
  {
    && Sum(t.apps, OfApp) == t.total && Sum(t.hosts, OfHost) == t.total
    && (forall name :: name in t.apps ==> AppAddsUp(t.apps[name]))
    && (forall host :: host in t.hosts ==> HostAddsUp(t.hosts[host]))
  }

  lemma AddToApp(a: AppNode, host: string)
    requires AppAddsUp(a)
    ensures AppAddsUp(AddHost(a, host))
  {
    SumPut(a.hosts, Same, host, AddHost(a, host).hosts[host]);
  }

  lemma AddToHost(h: HostNode, f: Flow)
    requires HostAddsUp(h)
    ensures HostAddsUp(AddPathOf(h, f))
  {
    AddPathWellBuilt(h.kids, SegmentsOf(f.path), 0, "");
  }

  lemma NewRowsAddUp()
    ensures AppAddsUp(AppNode(0, map[])) && HostAddsUp(HostNode(0, false, map[]))
  {
    assert Sum<string, nat>(map[], Same) == 0 && Sum<string, PathNode>(map[], NodeCount) == 0;
  }

  lemma AddFlowAddsUp(t: Tree, f: Flow)
    requires AddsUp(t)
    ensures AddsUp(AddFlow(t, f))
  {
    var u := AddFlow(t, f);
    NewRowsAddUp();
    AddToApp(AppRow(t, AppOf(f)), f.host);
    AddToHost(HostRow(t, f.host), f);
    SumPut(t.apps, OfApp, AppOf(f), u.apps[AppOf(f)]);
    SumPut(t.hosts, OfHost, f.host, u.hosts[f.host]);
  }

  /** The counts the tree shows are counts of flows; a host is marked for its HTTPS ones. */
  ghost predicate CountsFlows(t: Tree, flows: seq<Flow>)
  {
    && t.total == |flows|
    && (forall name :: AppCount(t, name) == Matches(flows, App(name)))
    && (forall host :: HostCount(t, host) == Matches(flows, Host(host)))
    && (forall host :: HostRow(t, host).tls <==> AnyHttps(flows, host))
    && (forall name, host :: PairCount(t, name, host) == Matches(flows, Set([name], [host])))
    && (forall host, q :: q != [] && |q| <= MAX_PATH_DEPTH ==> PathCount(t, host, q) == Through(flows, host, q))
  }

  lemma AddFlowPath(t: Tree, f: Flow, host: string, q: seq<string>)
    requires q != [] && |q| <= MAX_PATH_DEPTH
    ensures PathCount(AddFlow(t, f), host, q)
         == PathCount(t, host, q) + (if f.host == host && q <= SegmentsOf(f.path) then 1 else 0)
  {
    if f.host == host {
      var kids := if host in t.hosts then t.hosts[host].kids else map[];
      AddPathCounts(kids, SegmentsOf(f.path), 0, "", q);
      assert SegmentsOf(f.path)[0..] == SegmentsOf(f.path);
    }
  }

  lemma HttpsSnoc(flows: seq<Flow>, f: Flow, host: string)
    ensures AnyHttps(flows + [f], host) <==> AnyHttps(flows, host) || (f.host == host && Https(f))
  {
    var all := flows + [f];
    if AnyHttps(flows, host) {
      var i :| 0 <= i < |flows| && flows[i].host == host && Https(flows[i]);
      assert all[i] == flows[i];
    }
    assert all[|flows|] == f;
  }

  lemma AddFlowTls(t: Tree, flows: seq<Flow>, f: Flow, host: string)
    requires HostRow(t, host).tls <==> AnyHttps(flows, host)
    ensures HostRow(AddFlow(t, f), host).tls <==> AnyHttps(flows + [f], host)
  {
    HttpsSnoc(flows, f, host);
  }

  lemma AddFlowCounts(t: Tree, flows: seq<Flow>, f: Flow)
    requires CountsFlows(t, flows)
    ensures CountsFlows(AddFlow(t, f), flows + [f])
  {
    var u := AddFlow(t, f);
    forall name ensures AppCount(u, name) == Matches(flows + [f], App(name)) { MatchesSnoc(flows, f, App(name)); }
    forall host ensures HostCount(u, host) == Matches(flows + [f], Host(host)) { MatchesSnoc(flows, f, Host(host)); }
    forall host ensures HostRow(u, host).tls <==> AnyHttps(flows + [f], host) { AddFlowTls(t, flows, f, host); }
    forall name, host ensures PairCount(u, name, host) == Matches(flows + [f], Set([name], [host])) {
      MatchesSnoc(flows, f, Set([name], [host]));
    }
    forall host, q | q != [] && |q| <= MAX_PATH_DEPTH ensures PathCount(u, host, q) == Through(flows + [f], host, q) {
      ThroughSnoc(flows, f, host, q);
      AddFlowPath(t, f, host, q);
    }
  }

  /**
   * Builds the tree in one pass. Each app, host and app-and-host row counts exactly the
   * flows its scope accepts, each path node the flows of its host through its segments,
   * and the counts add up level by level.
   */
  method BuildScopeTree(flows: seq<Flow>) returns (t: Tree)
    ensures CountsFlows(t, flows)
    ensures AddsUp(t)
  {
    t := Tree(map[], map[], 0);
    assert flows[..0] == [];
    for i := 0 to |flows|
      invariant CountsFlows(t, flows[..i])
      invariant AddsUp(t)
    {
      assert flows[..i + 1] == flows[..i] + [flows[i]];
      AddFlowCounts(t, flows[..i], flows[i]);
      AddFlowAddsUp(t, flows[i]);
      t := AddFlow(t, flows[i]);
    }
    assert flows[..|flows|] == flows;
  }

  /* --------------------- path nodes and their scopes -------------------- */

  /** Every flow through a node's segments writes its path the way the node does. */
  ghost predicate AllWritten(flows: seq<Flow>, host: string, q: seq<string>)
  {
    forall i :: 0 <= i < |flows| && flows[i].host == host && q <= SegmentsOf(flows[i].path)
      ==> StartsWith(flows[i].path, PrefixOf(q))
  }

  /**
   * Exactly when a path node counts what selecting it shows: never fewer flows than its
   * scope accepts, and the same number if and only if every flow it counts starts with
   * its prefix as written.
   */
  lemma {:induction false} PathNodeCountIff(flows: seq<Flow>, host: string, q: seq<string>)
    requires AllSegments(q) && q != []
    ensures Matches(flows, Path(host, PrefixOf(q))) <= Through(flows, host, q)
    ensures Matches(flows, Path(host, PrefixOf(q))) == Through(flows, host, q) <==> AllWritten(flows, host, q)
  {
    if flows != [] {
      var f, rest := flows[0], flows[1..];
      UnderIff(f.path, q);
      PathNodeCountIff(rest, host, q);
      assert AllWritten(flows, host, q) <==>
        AllWritten(rest, host, q) &&
        (f.host == host && q <= SegmentsOf(f.path) ==> StartsWith(f.path, PrefixOf(q))) by {
        if AllWritten(flows, host, q) {
          forall i | 0 <= i < |rest| && rest[i].host == host && q <= SegmentsOf(rest[i].path)
            ensures StartsWith(rest[i].path, PrefixOf(q)) { assert rest[i] == flows[i + 1]; }
        }
      }
    }
  }

  /** So for paths with single slashes a node counts exactly the flows its scope accepts. */
  lemma SingleSlashedCounts(flows: seq<Flow>, host: string, q: seq<string>)
    requires AllSegments(q) && q != []
    requires forall i :: 0 <= i < |flows| && flows[i].host == host ==> SingleSlashed(Clean(flows[i].path))
    ensures Matches(flows, Path(host, PrefixOf(q))) == Through(flows, host, q)
  {
    forall i | 0 <= i < |flows| && flows[i].host == host && q <= SegmentsOf(flows[i].path)
      ensures StartsWith(flows[i].path, PrefixOf(q)) { SingleSlashedStarts(flows[i].path, q); }
    PathNodeCountIff(flows, host, q);
  }

  /** The node under these segments, if the tree has one. */
  function NodeAt(kids: map<string, PathNode>, q: seq<string>): Option<PathNode>
    decreases |q|
  {
    if q == [] || q[0] !in kids then None
    else if |q| == 1 then Some(kids[q[0]])
    else NodeAt(kids[q[0]].kids, q[1..])
  }

  lemma NoDeeper(kids: map<string, PathNode>, prefix: string, levels: nat, seg: string)
    requires WellBuilt(kids, prefix, levels) && seg in kids
    ensures kids[seg].kids != map[] ==> levels > 0
  {}

  /** A node's prefix is its segments, slash by slash. */
  lemma {:induction false} NodePrefix(kids: map<string, PathNode>, prefix: string, levels: nat, q: seq<string>)
    requires WellBuilt(kids, prefix, levels) && NodeAt(kids, q).Some?
    ensures NodeAt(kids, q).value.prefix == prefix + PrefixOf(q)
    ensures NodeAt(kids, q).value.count == CountAt(kids, q)
    ensures |q| <= levels + 1
    decreases |q|
  {
    var full := prefix + "/" + q[0];
    if |q| == 1 {
      assert PrefixOf(q[1..]) == "" && PrefixOf(q) == "/" + q[0];
    } else {
      NoDeeper(kids, prefix, levels, q[0]);
      NodePrefix(kids[q[0]].kids, full, levels - 1, q[1..]);
      assert full + PrefixOf(q[1..]) == prefix + PrefixOf(q);
    }
  }

  /** Selecting a path node of the tree shows what it counts iff its flows are written its way. */
  lemma PathRowIff(t: Tree, flows: seq<Flow>, host: string, q: seq<string>)
    requires CountsFlows(t, flows) && AddsUp(t) && AllSegments(q)
    requires host in t.hosts && NodeAt(t.hosts[host].kids, q).Some?
    ensures var n := NodeAt(t.hosts[host].kids, q).value;
            && Matches(flows, Path(host, n.prefix)) <= n.count
            && (Matches(flows, Path(host, n.prefix)) == n.count <==> AllWritten(flows, host, q))
  {
    assert HostAddsUp(t.hosts[host]);
    NodePrefix(t.hosts[host].kids, "", MAX_PATH_DEPTH - 1, q);
    assert PathCount(t, host, q) == Through(flows, host, q);
    assert "" + PrefixOf(q) == PrefixOf(q);
    PathNodeCountIff(flows, host, q);
  }

  /** A doubled slash: the row `/a` counts a flow of `//a`, and selecting it shows none. */
  lemma DoubledSlashMiscounts(f: Flow)
    requires f.path == "//a"
    ensures Through([f], f.host, ["a"]) == 1
    ensures PrefixOf(["a"]) == "/a" && Matches([f], Path(f.host, "/a")) == 0
  {
    var p := "//a";
    assert p[1..] == "/a" && p[1..][1..] == "a" && p[1..][1..][1..] == "";
    assert QueryAt(p) == 3 && Clean(p) == p;
    assert UpToSlash("a") == 1 && "a"[..1] == "a" && "a"[1..] == "";
    assert Pieces("a") == ["a"] + Pieces("") == ["a"];
    assert SegmentsOf(p) == ["a"];
    assert [f][1..] == [] && ["a"][1..] == [];
    assert p[1] != "/a"[1];
  }
}
