/** Which flows a row of the sidebar stands for, and paths as it reads them (src/scope.ts). */
module Scope {
  import opened Wrappers
  import opened Proto
  import opened Coalesce

  datatype Scope =
    | All
    | Pinned
    | App(name: string)
    | Host(host: string)
    | Path(pathHost: string, prefix: string)
    | Set(apps: seq<string>, hosts: seq<string>)
    | Insight(flowIds: set<string>)

  function AppOf(f: Flow): string
  {
    if f.process.Some? then f.process.value else ""
  }

  predicate StartsWith(s: string, p: string) { |p| <= |s| && s[..|p|] == p }

  /** The path is the prefix, or goes on from it at a slash or a query. */
  predicate IsUnder(path: string, prefix: string)
  {
    path == prefix ||
    (StartsWith(path, prefix) && |path| > |prefix| && (path[|prefix|] == '/' || path[|prefix|] == '?'))
  }

  predicate MatchScope(f: Flow, s: Scope, pinned: set<string>)
  {
    match s
    case All => true
    case Pinned => f.id in pinned
    case App(name) => AppOf(f) == name
    case Host(host) => f.host == host
    case Path(host, prefix) => f.host == host && IsUnder(f.path, prefix)
    case Set(apps, hosts) => (apps == [] || AppOf(f) in apps) && (hosts == [] || f.host in hosts)
    case Insight(ids) => f.id in ids
  }

  /** What picking these apps and hosts selects; a single pick selects what its row does. */
  function ScopeOf(apps: seq<string>, hosts: seq<string>): Scope
  {
    if |apps| + |hosts| == 0 then All
    else if |apps| == 1 && |hosts| == 0 then App(apps[0])
    else if |hosts| == 1 && |apps| == 0 then Host(hosts[0])
    else Set(apps, hosts)
  }

  /** What the picker shows as picked. */
  function PicksOf(s: Scope): (seq<string>, seq<string>)
  {
    match s
    case App(name) => ([name], [])
    case Host(host) => ([], [host])
    case Set(apps, hosts) => (apps, hosts)
    case _ => ([], [])
  }

  /** Picking is remembered as it was, and one pick is never a set: it is the row itself. */
  lemma PicksRoundTrip(apps: seq<string>, hosts: seq<string>)
    ensures PicksOf(ScopeOf(apps, hosts)) == (apps, hosts)
    ensures ScopeOf(apps, hosts).Set? <==> |apps| + |hosts| >= 2
  {
    if |apps| == 1 { assert apps == [apps[0]]; }
    if |hosts| == 1 { assert hosts == [hosts[0]]; }
  }

  /** However many rows are picked, the scope accepts what the set of picks would. */
  lemma PicksAgree(f: Flow, apps: seq<string>, hosts: seq<string>, pinned: set<string>)
    ensures MatchScope(f, ScopeOf(apps, hosts), pinned) == MatchScope(f, Set(apps, hosts), pinned)
  {
    if |apps| == 1 { assert apps == [apps[0]]; }
    if |hosts| == 1 { assert hosts == [hosts[0]]; }
  }

  /** A flow is in its app's row and no other; one without attribution in the nameless one. */
  lemma OneAppRow(f: Flow, name: string, pinned: set<string>)
    ensures MatchScope(f, App(name), pinned) <==> (f.process == Some(name) || (f.process.None? && name == ""))
  {}

  /** The ids of the flows a scope accepts. */
  function Selected(flows: seq<Flow>, s: Scope, pinned: set<string>): set<string>
  {
    set i | 0 <= i < |flows| && MatchScope(flows[i], s, pinned) :: flows[i].id
  }

  /** Pins and findings name flows: selected are the listed ones among those named. */
  lemma NamedAreSelected(flows: seq<Flow>, ids: set<string>, pinned: set<string>)
    ensures Selected(flows, Pinned, ids) == Selected(flows, Insight(ids), pinned) == Ids(flows) * ids
  {
    forall id | id in Ids(flows) * ids ensures id in Selected(flows, Pinned, ids) {
      var i :| 0 <= i < |flows| && flows[i].id == id;
      assert MatchScope(flows[i], Pinned, ids);
    }
    assert forall id :: id in Ids(flows) * ids ==> id in Selected(flows, Pinned, ids);
    forall id | id in Ids(flows) * ids ensures id in Selected(flows, Insight(ids), pinned) {
      var i :| 0 <= i < |flows| && flows[i].id == id;
      assert MatchScope(flows[i], Insight(ids), pinned);
    }
  }

  /* -------------------------------- paths ------------------------------- */

  function QueryAt(path: string): (n: nat)
    ensures n <= |path|
  {
    if path == "" || path[0] == '?' then 0 else 1 + QueryAt(path[1..])
  }

  function Clean(path: string): string { path[..QueryAt(path)] }

  function UpToSlash(s: string): (n: nat)
    ensures n <= |s|
  {
    if s == "" || s[0] == '/' then 0 else 1 + UpToSlash(s[1..])
  }

  /** The pieces between slashes, empty ones left out. */
  function Pieces(s: string): seq<string>
    decreases |s|
  {
    if s == "" then []
    else if s[0] == '/' then Pieces(s[1..])
    else [s[..UpToSlash(s)]] + Pieces(s[UpToSlash(s)..])
  }

  function SegmentsOf(path: string): seq<string> { Pieces(Clean(path)) }

  /** The prefix of a node under these segments: `/v3/shoots`. */
  function PrefixOf(segs: seq<string>): string
  {
    if segs == [] then "" else "/" + segs[0] + PrefixOf(segs[1..])
  }

  predicate IsSegment(s: string) { s != "" && '/' !in s && '?' !in s }

  ghost predicate AllSegments(q: seq<string>) { forall i :: 0 <= i < |q| ==> IsSegment(q[i]) }

  lemma {:induction false} UpToSlashThen(w: string, rest: string)
    requires '/' !in w
    ensures UpToSlash(w + rest) == |w| + UpToSlash(rest)
  {
    if w == "" {
      assert w + rest == rest;
    } else {
      assert w[0] in w && (w + rest)[1..] == w[1..] + rest;
      assert forall c :: c in w[1..] ==> c in w;
      UpToSlashThen(w[1..], rest);
    }
  }

  lemma {:induction false} PiecesThen(seg: string, rest: string)
    requires IsSegment(seg)
    ensures var n := UpToSlash(rest);
            Pieces("/" + seg + rest) == [seg + rest[..n]] + Pieces(rest[n..])
  {
    var s := "/" + seg + rest;
    assert s[1..] == seg + rest;
    assert seg[0] in seg;
    UpToSlashThen(seg, rest);
    var n := UpToSlash(rest);
    assert (seg + rest)[..|seg| + n] == seg + rest[..n] && (seg + rest)[|seg| + n..] == rest[n..];
  }

  lemma {:induction false} QueryAtThen(p: string, rest: string)
    requires '?' !in p
    ensures QueryAt(p + rest) == |p| + QueryAt(rest)
    ensures Clean(p + rest) == p + Clean(rest)
  {
    if p == "" {
      assert p + rest == rest;
    } else {
      assert p[0] in p && (p + rest)[1..] == p[1..] + rest;
      assert forall c :: c in p[1..] ==> c in p;
      QueryAtThen(p[1..], rest);
      assert (p + rest)[..|p| + QueryAt(rest)] == p + Clean(rest);
    }
  }

  lemma {:induction false} PrefixHasNoQuery(q: seq<string>)
    requires AllSegments(q)
    ensures '?' !in PrefixOf(q)
  {
    if q != [] { PrefixHasNoQuery(q[1..]); }
  }

  /** What follows a prefix ends its last segment. */
  predicate AtBoundary(rest: string) { rest == "" || rest[0] == '/' }

  lemma LastSegmentUnder(seg: string, rest: string)
    requires IsSegment(seg)
    ensures AtBoundary(rest) ==> Pieces("/" + seg + rest) == [seg] + Pieces(rest)
    ensures Pieces("/" + seg + rest) != []
    ensures Pieces("/" + seg + rest)[0] == seg <==> AtBoundary(rest)
  {
    PiecesThen(seg, rest);
    var n := UpToSlash(rest);
    if AtBoundary(rest) {
      assert n == 0 && rest[..0] == "" && rest[0..] == rest && seg + "" == seg;
    } else {
      assert |seg + rest[..n]| > |seg|;
    }
  }

  /** A cleaned path that starts with a node's prefix has its segments iff one ends there. */
  lemma {:induction false} PiecesUnder(q: seq<string>, rest: string)
    requires AllSegments(q) && q != []
    ensures q <= Pieces(PrefixOf(q) + rest) <==> AtBoundary(rest)
  {
    var more := PrefixOf(q[1..]) + rest;
    assert PrefixOf(q) + rest == "/" + q[0] + more;
    LastSegmentUnder(q[0], more);
    if |q| == 1 {
      assert PrefixOf(q[1..]) == "" && more == rest && q == [q[0]];
      PrefixOfOne(q[0], Pieces("/" + q[0] + more));
    } else {
      assert PrefixOf(q[1..])[0] == '/' && more[0] == '/';
      PiecesUnder(q[1..], rest);
      PrefixStep(q, Pieces(more));
    }
  }

  lemma PrefixOfOne(seg: string, p: seq<string>)
    requires p != []
    ensures [seg] <= p <==> p[0] == seg
  {}

  lemma PrefixStep(q: seq<string>, p: seq<string>)
    requires q != []
    ensures q <= [q[0]] + p <==> q[1..] <= p
  {
    if q[1..] <= p { assert q == [q[0]] + q[1..]; }
    if q <= [q[0]] + p {
      assert forall i :: 0 <= i < |q| ==> q[i] == ([q[0]] + p)[i];
      assert forall i :: 0 <= i < |q| - 1 ==> q[1..][i] == p[i];
    }
  }

  /**
   * A path is under a node's prefix exactly when the node's segments are its first ones
   * and it starts with the prefix as written.
   */
  lemma UnderIff(path: string, q: seq<string>)
    requires AllSegments(q) && q != []
    ensures IsUnder(path, PrefixOf(q)) <==> q <= SegmentsOf(path) && StartsWith(path, PrefixOf(q))
  {
    var p := PrefixOf(q);
    if StartsWith(path, p) {
      var rest := path[|p|..];
      assert path == p + rest;
      PrefixHasNoQuery(q);
      QueryAtThen(p, rest);
      PiecesUnder(q, Clean(rest));
      assert AtBoundary(Clean(rest)) <==> rest == "" || rest[0] == '/' || rest[0] == '?';
    }
  }

  /* --------------------------- well-written paths ----------------------- */

  /** Starts with one slash and has no empty segment inside, query aside. */
  predicate SingleSlashed(s: string)
  {
    s != "" && s[0] == '/' && forall i :: 0 <= i < |s| - 2 ==> !(s[i] == '/' && s[i + 1] == '/')
  }

  /** Such a path starts with the prefix of every node that counts it. */
  lemma SingleSlashedStarts(path: string, q: seq<string>)
    requires SingleSlashed(Clean(path)) && q <= SegmentsOf(path)
    ensures StartsWith(path, PrefixOf(q))
  {
    PiecesStart(Clean(path), q);
    assert StartsWith(Clean(path), PrefixOf(q));
  }

  lemma {:induction false} PiecesStart(s: string, q: seq<string>)
    requires SingleSlashed(s) && q <= Pieces(s)
    ensures StartsWith(s, PrefixOf(q))
    decreases |s|
  {
    if q != [] {
      var t := s[1..];
      OnlySlashes(s);
      var n := UpToSlash(t);
      SlashAt(t);
      assert Pieces(s) == [t[..n]] + Pieces(t[n..]);
      assert q[0] == t[..n] && q[1..] <= Pieces(t[n..]) by {
        assert q == [q[0]] + q[1..];
        PrefixStep(q, Pieces(t[n..]));
      }
      if q[1..] != [] {
        assert t[n..] != "" && t[n..][0] == '/';
        assert t[n..] == s[n + 1..];
        PiecesStart(t[n..], q[1..]);
      }
      assert s == "/" + q[0] + t[n..];
    }
  }

  lemma OnlySlashes(s: string)
    ensures |s| == 1 && s[0] == '/' ==> Pieces(s) == []
    ensures |s| == 2 && s[0] == '/' && s[1] == '/' ==> Pieces(s) == []
  {
    if |s| == 1 { assert s[1..] == ""; }
    if |s| == 2 { assert s[1..][1..] == ""; }
  }

  lemma {:induction false} SlashAt(t: string)
    ensures UpToSlash(t) < |t| ==> t[UpToSlash(t)] == '/'
    ensures t != "" && t[0] != '/' ==> UpToSlash(t) > 0
  {
    if t != "" && t[0] != '/' { SlashAt(t[1..]); }
  }
}
