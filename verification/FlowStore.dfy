/** The retained flow store: bounded, insertion-ordered, packed (crates/nova-core/src/flowstore.rs). */
module FlowStore {
  import opened Wrappers
  import opened Proto
  import opened MapSum
  import opened PackedFlows

  /** The store as its readers see it: ids oldest first, and each id's flow. */
  datatype Plain = Plain(order: seq<string>, flows: map<string, Flow>)

  const EMPTY := Plain([], map[])

  /** The order lists exactly the keys, once each. */
  predicate Lists(order: seq<string>, keys: set<string>)
    decreases |order|
  {
    if order == [] then keys == {} else order[0] in keys && Lists(order[1..], keys - {order[0]})
  }

  lemma {:induction false} ListsAppend(order: seq<string>, keys: set<string>, id: string)
    requires Lists(order, keys) && id !in keys
    ensures Lists(order + [id], keys + {id})
    decreases |order|
  {
    if order == [] {
      assert (order + [id])[1..] == [] && keys + {id} - {id} == {};
    } else {
      ListsAppend(order[1..], keys - {order[0]}, id);
      assert (order + [id])[1..] == order[1..] + [id];
      assert keys + {id} - {order[0]} == keys - {order[0]} + {id};
    }
  }

  lemma {:induction false} ListsExactly(order: seq<string>, keys: set<string>)
    requires Lists(order, keys)
    ensures |order| == |keys|
    ensures forall id :: id in order <==> id in keys
    decreases |order|
  {
    if order != [] {
      ListsExactly(order[1..], keys - {order[0]});
      assert order == [order[0]] + order[1..];
    }
  }

  function EvictOldest(p: Plain, max: nat): Plain
    decreases |p.order|
  {
    if |p.order| > max && p.order != [] then EvictOldest(Plain(p.order[1..], p.flows - {p.order[0]}), max) else p
  }

  function Added(p: Plain, f: Flow): Plain
  {
    Plain(if f.id in p.flows then p.order else p.order + [f.id], p.flows[f.id := f])
  }

  function Insert(p: Plain, f: Flow, max: nat): Plain { EvictOldest(Added(p, f), max) }

  function Update(p: Plain, id: string, f: Flow): Plain
  {
    if id in p.flows then p.(flows := p.flows[id := f]) else p
  }

  /** Eviction leaves the newest `max` ids, with their flows untouched. */
  lemma {:induction false} EvictOldestKeepsNewest(p: Plain, max: nat)
    requires Lists(p.order, p.flows.Keys)
    ensures var q := EvictOldest(p, max);
            && q.order == p.order[if |p.order| > max then |p.order| - max else 0..]
            && Lists(q.order, q.flows.Keys)
            && forall id :: id in q.flows ==> id in p.flows && q.flows[id] == p.flows[id]
    decreases |p.order|
  {
    if |p.order| > max && p.order != [] {
      EvictKeys(p);
      EvictOldestKeepsNewest(Plain(p.order[1..], p.flows - {p.order[0]}), max);
    }
  }

  lemma EvictKeys(p: Plain)
    requires Lists(p.order, p.flows.Keys) && p.order != []
    ensures p.order[0] in p.flows && Lists(p.order[1..], (p.flows - {p.order[0]}).Keys)
  {
    assert (p.flows - {p.order[0]}).Keys == p.flows.Keys - {p.order[0]};
  }

  /** A first insert is listed last; a second one of an id keeps its place. */
  lemma AddedLists(p: Plain, f: Flow)
    requires Lists(p.order, p.flows.Keys)
    ensures Lists(Added(p, f).order, Added(p, f).flows.Keys)
  {
    assert p.flows[f.id := f].Keys == p.flows.Keys + {f.id};
    if f.id in p.flows {
      assert p.flows.Keys + {f.id} == p.flows.Keys;
    } else {
      ListsAppend(p.order, p.flows.Keys, f.id);
    }
  }

  /* ------------------------------- reading ------------------------------ */

  /** Flows of `order`, last id first. */
  function Backwards(order: seq<string>, flows: map<string, Flow>): seq<Flow>
  {
    if order == [] then []
    else
      var id := order[|order| - 1];
      (if id in flows then [flows[id]] else []) + Backwards(order[..|order| - 1], flows)
  }

  function NewestFirst(p: Plain): seq<Flow> { Backwards(p.order, p.flows) }

  function Filter(fs: seq<Flow>, pred: Flow -> bool): seq<Flow>
  {
    if fs == [] then [] else (if pred(fs[0]) then [fs[0]] else []) + Filter(fs[1..], pred)
  }

  function First(fs: seq<Flow>, limit: nat): seq<Flow>
  {
    if |fs| <= limit then fs else fs[..limit]
  }

  /** What `find` promises: the first `limit` matches, newest first. */
  function Find(p: Plain, pred: Flow -> bool, limit: nat): seq<Flow>
  {
    First(Filter(NewestFirst(p), pred), limit)
  }

  /** The plain flows in order of arrival, each stripped of its body bytes. */
  function Shells(order: seq<string>, flows: map<string, Flow>): seq<Flow>
  {
    if order == [] then []
    else (if order[0] in flows then [WithoutBytes(flows[order[0]])] else []) + Shells(order[1..], flows)
  }

  lemma {:induction false} FilterConcat(a: seq<Flow>, b: seq<Flow>, pred: Flow -> bool)
    ensures Filter(a + b, pred) == Filter(a, pred) + Filter(b, pred)
  {
    if a == [] {
      assert a + b == b;
    } else {
      assert (a + b)[1..] == a[1..] + b;
      FilterConcat(a[1..], b, pred);
      var head := if pred(a[0]) then [a[0]] else [];
      assert head + (Filter(a[1..], pred) + Filter(b, pred)) == head + Filter(a[1..], pred) + Filter(b, pred);
    }
  }

  /** The flow of an id, if it is stored. */
  function At(id: string, flows: map<string, Flow>): seq<Flow>
  {
    if id in flows then [flows[id]] else []
  }

  lemma BackwardsStep(out: seq<Flow>, order: seq<string>, i: nat, flows: map<string, Flow>)
    requires i < |order|
    ensures out + Backwards(order[..i + 1], flows) == out + At(order[i], flows) + Backwards(order[..i], flows)
    ensures order[i] !in flows ==> out + At(order[i], flows) == out
  {
    assert order[..i + 1][..i] == order[..i];
  }

  lemma MatchStep(out: seq<Flow>, order: seq<string>, i: nat, flows: map<string, Flow>, pred: Flow -> bool)
    requires i < |order|
    ensures out + Filter(Backwards(order[..i + 1], flows), pred)
         == out + Filter(At(order[i], flows), pred) + Filter(Backwards(order[..i], flows), pred)
    ensures Filter(At(order[i], flows), pred)
         == if order[i] in flows && pred(flows[order[i]]) then [flows[order[i]]] else []
    ensures out + [] == out
  {
    assert order[..i + 1][..i] == order[..i];
    FilterConcat(At(order[i], flows), Backwards(order[..i], flows), pred);
    if order[i] in flows { assert [flows[order[i]]][1..] == []; }
  }

  lemma ShellsStep(out: seq<Flow>, order: seq<string>, i: nat, flows: map<string, Flow>)
    requires i < |order|
    ensures out + Shells(order[i..], flows)
         == out + (if order[i] in flows then [WithoutBytes(flows[order[i]])] else []) + Shells(order[i + 1..], flows)
    ensures out + [] == out
  {
    assert order[i..][1..] == order[i + 1..];
  }

  /** Both ways of reading everything agree with the order: place by place. */
  lemma {:induction false} ReadersFollowOrder(order: seq<string>, flows: map<string, Flow>)
    requires forall id :: id in order ==> id in flows
    ensures |Backwards(order, flows)| == |Shells(order, flows)| == |order|
    ensures forall i :: 0 <= i < |order| ==>
      && Backwards(order, flows)[i] == flows[order[|order| - 1 - i]]
      && Shells(order, flows)[i] == WithoutBytes(flows[order[i]])
    decreases |order|
  {
    if order != [] {
      BackwardsFollows(order, flows);
      ReadersFollowOrder(order[1..], flows);
      assert Shells(order, flows) == [WithoutBytes(flows[order[0]])] + Shells(order[1..], flows);
    }
  }

  lemma {:induction false} BackwardsFollows(order: seq<string>, flows: map<string, Flow>)
    requires forall id :: id in order ==> id in flows
    ensures |Backwards(order, flows)| == |order|
    ensures forall i :: 0 <= i < |order| ==> Backwards(order, flows)[i] == flows[order[|order| - 1 - i]]
    decreases |order|
  {
    if order != [] { BackwardsFollows(order[..|order| - 1], flows); }
  }

  predicate IsMatch(order: seq<string>, j: nat, flows: map<string, Flow>, pred: Flow -> bool)
  {
    j < |order| && order[j] in flows && pred(flows[order[j]])
  }

  /** Where the matches are in the order of arrival, last one first. */
  function Places(order: seq<string>, flows: map<string, Flow>, pred: Flow -> bool): seq<nat>
  {
    if order == [] then []
    else
      var last := |order| - 1;
      (if IsMatch(order, last, flows, pred) then [last] else []) + Places(order[..last], flows, pred)
  }

  /** Every match has its place there, and no other flow has. */
  lemma {:induction false} PlacesExact(order: seq<string>, flows: map<string, Flow>, pred: Flow -> bool, j: nat)
    ensures j in Places(order, flows, pred) <==> IsMatch(order, j, flows, pred)
    decreases |order|
  {
    if order != [] {
      var front := order[..|order| - 1];
      PlacesExact(front, flows, pred, j);
      assert j < |front| ==> (IsMatch(front, j, flows, pred) <==> IsMatch(order, j, flows, pred));
    }
  }

  predicate Descending(at: seq<nat>, bound: nat)
  {
    && (forall k :: 0 <= k < |at| ==> at[k] < bound)
    && (forall i, k :: 0 <= i < k < |at| ==> at[k] < at[i])
  }

  /** Later ones come first. */
  lemma {:induction false} PlacesDescend(order: seq<string>, flows: map<string, Flow>, pred: Flow -> bool)
    ensures Descending(Places(order, flows, pred), |order|)
    decreases |order|
  {
    if order != [] {
      var last := |order| - 1;
      PlacesDescend(order[..last], flows, pred);
      var rest := Places(order[..last], flows, pred);
      assert Places(order, flows, pred) == if IsMatch(order, last, flows, pred) then [last] + rest else rest;
    }
  }

  lemma {:induction false} MatchesInPlace(order: seq<string>, flows: map<string, Flow>, pred: Flow -> bool)
    ensures var at, out := Places(order, flows, pred), Filter(Backwards(order, flows), pred);
            |at| == |out| && forall k :: 0 <= k < |at| ==>
              IsMatch(order, at[k], flows, pred) && out[k] == flows[order[at[k]]]
    decreases |order|
  {
    if order != [] {
      var front, last := order[..|order| - 1], |order| - 1;
      MatchesInPlace(front, flows, pred);
      FilterConcat(At(order[last], flows), Backwards(front, flows), pred);
      if order[last] in flows { assert [flows[order[last]]][1..] == []; }
      var at := Places(front, flows, pred);
      assert forall k :: 0 <= k < |at| ==> order[at[k]] == front[at[k]];
    }
  }

  /**
   * What `find` gives is matches, newest first, and if it leaves one out then it is full
   * and all it gives is newer.
   */
  lemma FindIsNewest(p: Plain, pred: Flow -> bool, limit: nat)
    ensures var out := Find(p, pred, limit);
            var at := Places(p.order, p.flows, pred);
            && |out| <= limit && |out| <= |at| && (|out| < limit ==> |out| == |at|)
            && (forall k :: 0 <= k < |out| ==>
                  IsMatch(p.order, at[k], p.flows, pred) && out[k] == p.flows[p.order[at[k]]])
            && Descending(at, |p.order|)
            && (forall j: nat :: IsMatch(p.order, j, p.flows, pred) ==> j in at)
  {
    forall j: nat | IsMatch(p.order, j, p.flows, pred) ensures j in Places(p.order, p.flows, pred) {
      PlacesExact(p.order, p.flows, pred, j);
    }
    PlacesDescend(p.order, p.flows, pred);
    MatchesInPlace(p.order, p.flows, pred);
  }

  /* --------------------------------- runs ------------------------------- */

  datatype Op = InsertOp(flow: Flow) | UpdateOp(id: string, change: Flow -> Flow) | ClearOp

  function Do(p: Plain, op: Op, max: nat): Plain
  {
    match op
    case InsertOp(f) => Insert(p, f, max)
    case UpdateOp(id, change) => if id in p.flows then Update(p, id, change(p.flows[id])) else p
    case ClearOp => EMPTY
  }

  function After(ops: seq<Op>, max: nat): Plain
  {
    if ops == [] then EMPTY else Do(After(ops[..|ops| - 1], max), ops[|ops| - 1], max)
  }

  /** What was last written under an id, eviction aside: inserted, or made by an update. */
  function Written(ops: seq<Op>, id: string): Option<Flow>
  {
    if ops == [] then None
    else
      var before := Written(ops[..|ops| - 1], id);
      match ops[|ops| - 1]
      case InsertOp(f) => if f.id == id then Some(f) else before
      case UpdateOp(k, change) => if k == id && before.Some? then Some(change(before.value)) else before
      case ClearOp => None
  }

  /** After any run, a flow that is retained is what was last written under its id. */
  lemma {:induction false} RetainedIsWritten(ops: seq<Op>, max: nat, id: string)
    requires max >= 1
    ensures var p := After(ops, max);
            && Lists(p.order, p.flows.Keys) && |p.order| <= max
            && (id in p.flows ==> Written(ops, id) == Some(p.flows[id]))
    decreases |ops|
  {
    if ops != [] {
      var p, op := After(ops[..|ops| - 1], max), ops[|ops| - 1];
      RetainedIsWritten(ops[..|ops| - 1], max, id);
      match op {
        case InsertOp(f) =>
          AddedLists(p, f);
          EvictOldestKeepsNewest(Added(p, f), max);
        case UpdateOp(k, change) =>
          if k in p.flows { SameKeys(p.flows, k, change(p.flows[k])); }
        case ClearOp =>
      }
    }
  }

  /** An id among the newest `max` is retained, with its flow. */
  lemma NewestStays(p: Plain, max: nat, i: nat)
    requires Lists(p.order, p.flows.Keys) && i < |p.order| && i + max >= |p.order|
    ensures var q, id := EvictOldest(p, max), p.order[i];
            id in q.flows && id in p.flows && q.flows[id] == p.flows[id]
  {
    var q := EvictOldest(p, max);
    EvictOldestKeepsNewest(p, max);
    SuffixHas(p.order, if |p.order| > max then |p.order| - max else 0, i);
    ListsExactly(q.order, q.flows.Keys);
  }

  lemma SuffixHas(order: seq<string>, k: nat, i: nat)
    requires k <= i < |order|
    ensures order[i] in order[k..]
  {
    assert order[k..][i - k] == order[i];
  }

  /** What is inserted is retained, and is what a reader gets. */
  lemma InsertedStays(p: Plain, f: Flow, max: nat)
    requires Lists(p.order, p.flows.Keys) && |p.order| <= max && max >= 1
    ensures var q := Insert(p, f, max);
            f.id in q.flows && q.flows[f.id] == f
  {
    var a := Added(p, f);
    AddedLists(p, f);
    if f.id in p.flows {
      ListsExactly(p.order, p.flows.Keys);
      var i :| 0 <= i < |p.order| && p.order[i] == f.id;
      NewestStays(a, max, i);
    } else {
      NewestStays(a, max, |p.order|);
    }
  }

  function AtLeastZero(n: int): nat { if n < 0 then 0 else n }

  /* ------------------------------ the class ----------------------------- */

  lemma PackedExactly(packer: Packer, stored: Stored, before: Flow, after: Flow)
    requires Exact(packer) && stored == packer.pack(before)
    ensures packer.unpack(stored) == before && packer.repack(after, stored, before) == packer.pack(after)
  {}

  lemma SameKeys(flows: map<string, Flow>, id: string, flow: Flow)
    requires id in flows
    ensures flows[id := flow].Keys == flows.Keys
  {}

  lemma HeadMoves(evicted: seq<string>, order: seq<string>)
    requires order != []
    ensures evicted + [order[0]] + order[1..] == evicted + order
  {}

  class FlowStore {
    const packer: Packer
    const maxFlows: nat
    var flows: map<string, Stored>
    var order: seq<string>
    var totalCaptured: nat
    var generation: nat
    var heldBytes: int
    var rawBytes: int
    /** What the packed map holds, as every reader sees it. */
    ghost var plain: map<string, Flow>

    ghost function Abs(): Plain
      reads this
    {
      Plain(order, plain)
    }

    /** Each stored flow is exactly what packing its plain form gives. */
    ghost predicate Canonical()
      reads this
    {
      flows.Keys == plain.Keys && forall id :: id in plain ==> flows[id] == packer.pack(plain[id])
    }

    /** The byte counters are exactly the sums over the stored flows. */
    ghost predicate Counted()
      reads this
    {
      heldBytes == Sum(flows, HeldBytes) && rawBytes == Sum(flows, RawBytes)
    }

    ghost predicate Valid()
      reads this
    {
      && Exact(packer) && maxFlows >= 1 && |order| <= maxFlows
      && Lists(order, plain.Keys) && Canonical() && Counted()
    }

    constructor (codec: Codec, max: nat)
      requires Lossless(codec)
      ensures Valid() && Abs() == EMPTY && generation == 0
      ensures packer == PackerOf(codec) && maxFlows == if max < 1 then 1 else max
    {
      PackerExact(codec);
      packer, maxFlows := PackerOf(codec), if max < 1 then 1 else max;
      flows, order, totalCaptured, generation, heldBytes, rawBytes := map[], [], 0, 0, 0, 0;
      plain := map[];
    }

    /** Move both counters by one stored flow's sizes, up or down by the sign. */
    method Count(stored: Stored, sign: int)
      modifies this`heldBytes, this`rawBytes
      ensures heldBytes == old(heldBytes) + sign * HeldBytes(stored)
      ensures rawBytes == old(rawBytes) + sign * RawBytes(stored)
    {
      heldBytes := heldBytes + sign * HeldBytes(stored);
      rawBytes := rawBytes + sign * RawBytes(stored);
    }

    /** Put a packed flow under an id, keeping the counters exact. */
    method Put(id: string, stored: Stored, ghost flow: Flow)
      requires Counted() && Canonical() && stored == packer.pack(flow)
      modifies this`flows, this`heldBytes, this`rawBytes, this`plain
      ensures Counted() && Canonical() && plain == old(plain)[id := flow]
    {
      SumPut(flows, HeldBytes, id, stored);
      SumPut(flows, RawBytes, id, stored);
      Count(stored, 1);
      if id in flows { Count(flows[id], -1); }
      flows := flows[id := stored];
      plain := plain[id := flow];
    }

    /** Take the oldest flow out of the window. */
    method DropOldest()
      requires Counted() && Canonical() && Lists(order, plain.Keys) && order != []
      modifies this`flows, this`order, this`heldBytes, this`rawBytes, this`plain
      ensures Counted() && Canonical() && Lists(order, plain.Keys)
      ensures order == old(order)[1..] && plain == old(plain) - {old(order)[0]}
    {
      var id := order[0];
      EvictKeys(Abs());
      SumSplit(flows, HeldBytes, id);
      SumSplit(flows, RawBytes, id);
      Count(flows[id], -1);
      flows := flows - {id};
      plain := plain - {id};
      order := order[1..];
    }

    method EvictPastWindow() returns (evicted: seq<string>)
      requires Canonical() && Counted() && Lists(order, plain.Keys)
      modifies this`flows, this`order, this`heldBytes, this`rawBytes, this`plain
      ensures Canonical() && Counted() && Lists(order, plain.Keys)
      ensures Abs() == EvictOldest(old(Abs()), maxFlows)
      ensures |order| <= maxFlows && evicted + order == old(order)
    {
      evicted := [];
      while |order| > maxFlows
        invariant Canonical() && Counted() && Lists(order, plain.Keys)
        invariant evicted + order == old(order)
        invariant EvictOldest(Abs(), maxFlows) == EvictOldest(old(Abs()), maxFlows)
        decreases |order|
      {
        HeadMoves(evicted, order);
        evicted := evicted + [order[0]];
        DropOldest();
      }
    }

    /**
     * The plain store with the flow added and then cut to its window. `evicted` names, in
     * order, the flows whose body files have to go too.
     */
    method InsertFlow(flow: Flow) returns (evicted: seq<string>)
      requires Valid()
      modifies this
      ensures Valid() && Abs() == Insert(old(Abs()), flow, maxFlows)
      ensures generation == old(generation) + 1 && totalCaptured == old(totalCaptured) + 1
      ensures evicted + order == old(order) + (if flow.id in old(plain) then [] else [flow.id])
      ensures flow.id in plain && plain[flow.id] == flow
    {
      InsertedStays(Abs(), flow, maxFlows);
      totalCaptured := totalCaptured + 1;
      generation := generation + 1;
      Admit(flow);
      evicted := EvictPastWindow();
    }

    /** Puts the flow in before anything is evicted; an id already there keeps its place. */
    method Admit(flow: Flow)
      requires Canonical() && Counted() && Lists(order, plain.Keys)
      modifies this`flows, this`order, this`heldBytes, this`rawBytes, this`plain
      ensures Canonical() && Counted() && Lists(order, plain.Keys)
      ensures Abs() == Added(old(Abs()), flow)
    {
      AddedLists(Abs(), flow);
      var known := flow.id in flows;
      Put(flow.id, packer.pack(flow), flow);
      if !known { order := order + [flow.id]; }
    }

    /**
     * The plain store with one flow changed by `f`, which is given what a reader would
     * get. An id that is not stored gives `None` and moves nothing.
     */
    method UpdateFlow(id: string, f: Flow -> Flow) returns (snapshot: Option<Flow>)
      requires Valid()
      modifies this
      ensures Valid() && totalCaptured == old(totalCaptured)
      ensures id in old(plain) ==> snapshot == Some(f(old(plain)[id])) && generation == old(generation) + 1
      ensures id !in old(plain) ==> snapshot == None && generation == old(generation)
      ensures Abs() == if snapshot.Some? then Update(old(Abs()), id, snapshot.value) else old(Abs())
      ensures order == old(order)
      ensures plain == if id in old(plain) then old(plain)[id := f(old(plain)[id])] else old(plain)
    {
      if id !in flows { return None; }
      generation := generation + 1;
      var stored := flows[id];
      var before := packer.unpack(stored);
      var flow := f(before);
      PackedExactly(packer, stored, plain[id], flow);
      Swap(id, packer.repack(flow, stored, before), flow);
      snapshot := Some(flow);
    }

    /** Store another flow under an id already there. */
    method Swap(id: string, stored: Stored, ghost flow: Flow)
      requires Lists(order, plain.Keys) && Canonical() && Counted() && id in plain && stored == packer.pack(flow)
      modifies this`flows, this`heldBytes, this`rawBytes, this`plain
      ensures Lists(order, plain.Keys) && Canonical() && Counted() && plain == old(plain)[id := flow]
    {
      SameKeys(plain, id, flow);
      Put(id, stored, flow);
    }

    method Get(id: string) returns (flow: Option<Flow>)
      requires Valid()
      ensures flow == if id in plain then Some(plain[id]) else None
    {
      flow := if id in flows then Some(packer.unpack(flows[id])) else None;
    }

    method ReadNewestFirst() returns (out: seq<Flow>)
      requires Valid()
      ensures out == NewestFirst(Abs())
    {
      out := [];
      assert order[..|order|] == order;
      for i := |order| downto 0
        invariant out + Backwards(order[..i], plain) == NewestFirst(Abs())
      {
        BackwardsStep(out, order, i, plain);
        var flow := Get(order[i]);
        if flow.Some? { out := out + [flow.value]; }
      }
    }

    /** Newest-first matches, walked backwards so a small limit reads little. */
    method FindFlows(pred: Flow -> bool, limit: nat) returns (out: seq<Flow>)
      requires Valid()
      ensures out == Find(Abs(), pred, limit)
    {
      out := [];
      var i := |order|;
      assert order[..|order|] == order;
      while i > 0 && |out| < limit
        invariant 0 <= i <= |order| && |out| <= limit
        invariant out + Filter(Backwards(order[..i], plain), pred) == Filter(NewestFirst(Abs()), pred)
      {
        i := i - 1;
        MatchStep(out, order, i, plain, pred);
        var flow := Get(order[i]);
        if flow.Some? && pred(flow.value) { out := out + [flow.value]; }
      }
    }

    method ReadShells() returns (out: seq<Flow>)
      requires Valid()
      ensures out == Shells(order, plain)
    {
      out := [];
      for i := 0 to |order|
        invariant out + Shells(order[i..], plain) == Shells(order, plain)
      {
        ShellsStep(out, order, i, plain);
        if order[i] in flows { out := out + [flows[order[i]].flow]; }
      }
    }

    /** Back to the empty plain store, naming what it held. */
    method Clear() returns (ids: set<string>)
      requires Valid()
      modifies this
      ensures Valid() && Abs() == EMPTY && generation == old(generation) + 1
      ensures ids == old(plain).Keys && totalCaptured == old(totalCaptured)
    {
      ids := flows.Keys;
      order, flows, heldBytes, rawBytes := [], map[], 0, 0;
      plain := map[];
      generation := generation + 1;
    }

    /** The clamp at zero is never needed. */
    method PreviewBytes() returns (held: nat, raw: nat)
      requires Valid()
      ensures held == Sum(flows, HeldBytes) && raw == Sum(flows, RawBytes)
    {
      held, raw := AtLeastZero(heldBytes), AtLeastZero(rawBytes);
    }
  }

  /** What the byte counters stand for, in terms of the flows themselves. */
  lemma CountersCoverPreviews(c: Codec, flows: map<string, Stored>, plain: map<string, Flow>)
    requires flows.Keys == plain.Keys && forall id :: id in plain ==> flows[id] == Pack(c, plain[id])
    ensures Sum(flows, RawBytes) == Sum(plain, RawOf(c))
    ensures Sum(flows, HeldBytes) == Sum(plain, HeldOf(c)) <= Sum(plain, RawOf(c))
  {
    forall id | id in plain
      ensures RawBytes(flows[id]) == RawOf(c)(plain[id])
      ensures HeldBytes(flows[id]) == HeldOf(c)(plain[id]) <= RawOf(c)(plain[id]) { PackedSizes(c, plain[id]); }
    SumMonotone(flows, RawBytes, plain, RawOf(c));
    SumMonotone(plain, RawOf(c), flows, RawBytes);
    SumMonotone(flows, HeldBytes, plain, HeldOf(c));
    SumMonotone(plain, HeldOf(c), flows, HeldBytes);
    SumMonotone(plain, HeldOf(c), plain, RawOf(c));
  }
}
