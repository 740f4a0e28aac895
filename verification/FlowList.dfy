/** The list's side of the stream: applying a batch of snapshots (src/store.ts). */
module FlowList {
  import opened Wrappers
  import opened Proto
  import opened Frames
  import opened Coalesce

  type FramesById = map<string, seq<WsMessage>>

  /** What the list panel holds. */
  datatype Panel = Panel(flows: seq<Flow>, recording: bool, ws: FramesById, dropped: map<string, nat>)

  /** A store update: what is `None` keeps its identity, so nothing re-renders. */
  datatype Change = Change(
    flows: Option<seq<Flow>>, ws: Option<FramesById>, dropped: Option<map<string, nat>>)

  const NO_CHANGE := Change(None, None, None)

  function Or<T>(o: Option<T>, t: T): T { if o.Some? then o.value else t }

  function Merge(p: Panel, c: Change): Panel
  {
    Panel(Or(c.flows, p.flows), p.recording, Or(c.ws, p.ws), Or(c.dropped, p.dropped))
  }

  predicate HadFrames(gone: seq<Flow>, ws: FramesById, dropped: map<string, nat>)
  {
    exists i :: 0 <= i < |gone| && (gone[i].id in ws || Get(dropped, gone[i].id) > 0)
  }

  /** Prepend a new flow; the frames of flows this evicts go with them. */
  function PrependWithinCap(flow: Flow, flows: seq<Flow>, ws: FramesById, dropped: map<string, nat>, cap: nat): Change
    requires cap >= 1
  {
    if |flows| < cap then Change(Some([flow] + flows), None, None)
    else
      var kept := [flow] + flows[..cap - 1];
      var gone := flows[cap - 1..];
      if !HadFrames(gone, ws, dropped) then Change(Some(kept), None, None)
      else Change(Some(kept), Some(ws - Ids(gone)), Some(dropped - Ids(gone)))
  }

  /** One snapshot applied to the panel. */
  function ApplyOne(p: Panel, raw: Flow, cap: nat): Panel
    requires cap >= 1
  {
    var flow := WithoutBytes(raw);
    if Has(p.flows, flow.id) then p.(flows := p.flows[Find(p.flows, flow.id) := flow])
    else if p.recording then Merge(p, PrependWithinCap(flow, p.flows, p.ws, p.dropped, cap))
    else p
  }

  function ApplyBatch(p: Panel, batch: seq<Flow>, cap: nat): Panel
    requires cap >= 1
    decreases |batch|
  {
    if batch == [] then p else ApplyBatch(ApplyOne(p, batch[0], cap), batch[1..], cap)
  }

  function Stripped(batch: seq<Flow>): (r: seq<Flow>)
    ensures |r| == |batch| && forall i :: 0 <= i < |r| ==> r[i] == WithoutBytes(batch[i])
  {
    seq(|batch|, i requires 0 <= i < |batch| => WithoutBytes(batch[i]))
  }

  /** Frames or not, the list itself moves as `Coalesce.ApplyAll` says. */
  lemma {:induction false} ApplyBatchFlows(p: Panel, batch: seq<Flow>, cap: nat)
    requires cap >= 1
    ensures ApplyBatch(p, batch, cap).flows == ApplyAll(p.flows, Stripped(batch), p.recording, cap)
    ensures ApplyBatch(p, batch, cap).recording == p.recording
    decreases |batch|
  {
    if batch != [] {
      assert Stripped(batch)[1..] == Stripped(batch[1..]);
      ApplyBatchFlows(ApplyOne(p, batch[0], cap), batch[1..], cap);
    }
  }

  /* --------------------------- the shifted index ------------------------ */

  /** Ids are unique and every listed flow is found through the index and the shift. */
  ghost predicate Indexed(flows: seq<Flow>, index: map<string, int>, shift: int)
  {
    Distinct(flows) && forall k :: 0 <= k < |flows| ==> flows[k].id in index && index[flows[k].id] + shift == k
  }

  /** An entry that does not lead to its flow is stale, and the flow is not listed. */
  lemma LookupExact(flows: seq<Flow>, index: map<string, int>, shift: int, id: string)
    requires Indexed(flows, index, shift)
    ensures var at := if id in index then index[id] + shift else -1;
            if 0 <= at < |flows| && flows[at].id == id then at == Find(flows, id) else !Has(flows, id)
  {
    var i := Find(flows, id);
    if i < |flows| { assert flows[i].id == id; }
  }

  lemma IndexedReplace(flows: seq<Flow>, index: map<string, int>, shift: int, f: Flow)
    requires Indexed(flows, index, shift) && Has(flows, f.id)
    ensures Indexed(flows[Find(flows, f.id) := f], index, shift)
  {
    var r := flows[Find(flows, f.id) := f];
    assert forall k :: 0 <= k < |r| ==> r[k].id == flows[k].id;
  }

  lemma IndexedPrepend(flows: seq<Flow>, index: map<string, int>, shift: int, f: Flow, cap: nat)
    requires cap >= 1 && Indexed(flows, index, shift) && !Has(flows, f.id)
    ensures Indexed(Prepend(flows, f, cap), index[f.id := -(shift + 1)], shift + 1)
  {
    var r := Prepend(flows, f, cap);
    ApplyKeeps(flows, f, true, cap);
    assert forall k :: 1 <= k < |r| ==> r[k] == flows[k - 1];
  }

  /** What the loop over a batch carries: the panel so far, the index and its shift. */
  datatype Work = Work(next: Panel, index: map<string, int>, shift: int, copied: bool, evicted: bool)

  /** The loop's body: one snapshot, placed through the index. */
  method ApplySnapshot(w: Work, raw: Flow, cap: nat) returns (r: Work)
    requires cap >= 1
    ensures r.next.recording == w.next.recording
    ensures if r.copied then true else r.next == w.next && !w.copied
    ensures r.evicted || (!w.evicted && r.next.ws == w.next.ws && r.next.dropped == w.next.dropped)
    ensures Indexed(w.next.flows, w.index, w.shift) ==>
      && Indexed(r.next.flows, r.index, r.shift)
      && r.next == ApplyOne(w.next, raw, cap)
      && (!w.next.recording && !Has(w.next.flows, raw.id) ==> r == w)
  {
    var next := w.next;
    var flow := WithoutBytes(raw);
    var at := if flow.id in w.index then w.index[flow.id] + w.shift else -1;
    ghost var tracked := Indexed(next.flows, w.index, w.shift);
    if tracked { LookupExact(next.flows, w.index, w.shift, flow.id); }
    if 0 <= at < |next.flows| && next.flows[at].id == flow.id {
      if tracked { IndexedReplace(next.flows, w.index, w.shift, flow); }
      return w.(next := next.(flows := next.flows[at := flow]), copied := true);
    }
    if !next.recording { return w; }
    if tracked { IndexedPrepend(next.flows, w.index, w.shift, flow, cap); }
    var out := PrependWithinCap(flow, next.flows, next.ws, next.dropped, cap);
    return Work(Merge(next, out), w.index[flow.id := -(w.shift + 1)], w.shift + 1, true, w.evicted || out.ws.Some?);
  }

  predicate NoneListed(batch: seq<Flow>, flows: seq<Flow>)
  {
    forall i :: 0 <= i < |batch| ==> !Has(flows, batch[i].id)
  }

  /**
   * A whole batch through the shifted index. For a list with unique ids the
   * outcome is that of applying each snapshot on its own, whatever the batch evicts and
   * sends again and however long the list was; a batch of flows unknown to a list that
   * is not recording changes nothing at all.
   */
  method ApplyFlowBatch(batch: seq<Flow>, p: Panel, cap: nat) returns (change: Change)
    requires cap >= 1
    ensures Distinct(p.flows) ==> Merge(p, change) == ApplyBatch(p, batch, cap)
    ensures Distinct(p.flows) && !p.recording && NoneListed(batch, p.flows) ==> change == NO_CHANGE
  {
    if batch == [] { return NO_CHANGE; }
    var index := BuildIndex(p.flows);
    ghost var unique := Distinct(p.flows);
    ghost var quiet := !p.recording && NoneListed(batch, p.flows);
    var w := Work(p, index, 0, false, false);
    for i := 0 to |batch|
      invariant w.next.recording == p.recording
      invariant !w.copied ==> w.next == p
      invariant !w.evicted ==> w.next.ws == p.ws && w.next.dropped == p.dropped
      invariant unique ==> Indexed(w.next.flows, w.index, w.shift)
      invariant unique ==> ApplyBatch(w.next, batch[i..], cap) == ApplyBatch(p, batch, cap)
      invariant unique && quiet ==> !w.copied
    {
      assert batch[i..][1..] == batch[i + 1..];
      w := ApplySnapshot(w, batch[i], cap);
    }
    if !w.copied { return NO_CHANGE; }
    return Change(Some(w.next.flows), if w.evicted then Some(w.next.ws) else None,
                  if w.evicted then Some(w.next.dropped) else None);
  }

  method BuildIndex(flows: seq<Flow>) returns (index: map<string, int>)
    ensures Distinct(flows) ==> Indexed(flows, index, 0)
    ensures forall id :: id in index <==> Has(flows, id)
  {
    index := map[];
    for i := 0 to |flows|
      invariant Distinct(flows) ==> Indexed(flows[..i], index, 0)
      invariant index.Keys == Ids(flows[..i])
    {
      IdsSplit(flows[..i], [flows[i]]);
      assert flows[..i + 1] == flows[..i] + [flows[i]];
      IdsHead([flows[i]]);
      index := index[flows[i].id := i];
    }
    assert flows[..|flows|] == flows;
    forall id ensures id in index <==> Has(flows, id) { HasIds(flows, id); }
  }
}
