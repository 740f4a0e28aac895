/** The webview's store: its live-capture actions and what they all keep (src/store.ts). */
module ListStore {
  import opened Wrappers
  import opened Proto
  import opened Frames
  import opened Coalesce
  import opened FlowList
  import opened MapSum
  import opened FramePanel

  const MAX_FLOWS: nat := 10_000
  const MAX_WS_FRAMES: nat := 2_000
  const MAX_WS_BYTES: nat := 64 * 1024 * 1024

  const EMPTY := Panel([], false, map[], map[])

  /**
   * At most `MAX_FLOWS` flows with unique ids; frames and drop counts only for listed
   * flows; no socket over its frame cap, the sockets together within the byte budget.
   */
  ghost predicate Bounded(p: Panel)
  {
    && Distinct(p.flows) && |p.flows| <= MAX_FLOWS
    && (forall id :: id in p.ws ==> Has(p.flows, id) && |p.ws[id]| <= MAX_WS_FRAMES)
    && (forall id :: Get(p.dropped, id) > 0 ==> Has(p.flows, id))
    && Total(p.ws) <= MAX_WS_BYTES
  }

  /* ------------------------------- snapshots ---------------------------- */

  lemma ReplaceKeepsHas(flows: seq<Flow>, f: Flow, id: string)
    requires Has(flows, f.id)
    ensures Has(flows[Find(flows, f.id) := f], id) <==> Has(flows, id)
  {
    SameFind(flows, flows[Find(flows, f.id) := f], id);
  }

  /** A flow that a prepend pushes out is one of the evicted tail. */
  lemma PushedOutIsGone(flows: seq<Flow>, f: Flow, cap: nat, id: string)
    requires cap >= 1 && Distinct(flows) && !Has(flows, f.id) && Has(flows, id)
    ensures Has(Prepend(flows, f, cap), id) <==> (|flows| < cap || id !in Ids(flows[cap - 1..]))
  {
    var i := Find(flows, id);
    var r := Prepend(flows, f, cap);
    HasIds(r, id);
    if |flows| < cap {
      assert r[i + 1].id == id;
    } else if i < cap - 1 {
      assert r[i + 1].id == id;
    } else {
      assert flows[cap - 1..][i - (cap - 1)].id == id;
      assert forall k :: 1 <= k < |r| ==> r[k] == flows[k - 1];
    }
  }

  lemma GoneHadFrames(gone: seq<Flow>, ws: FramesById, dropped: map<string, nat>, id: string)
    requires id in Ids(gone) && (id in ws || Get(dropped, id) > 0)
    ensures HadFrames(gone, ws, dropped)
  {
    var i :| 0 <= i < |gone| && gone[i].id == id;
  }

  lemma TotalWithout(ws: FramesById, gone: set<string>)
    ensures Total(ws - gone) <= Total(ws)
  {
    SumMonotone(ws - gone, Payload, ws, Payload);
  }

  lemma FramesStayListed(p: Panel, flow: Flow, id: string)
    requires Bounded(p) && !Has(p.flows, flow.id)
    ensures var q := Merge(p, PrependWithinCap(flow, p.flows, p.ws, p.dropped, MAX_FLOWS));
            id in q.ws || Get(q.dropped, id) > 0 ==> Has(q.flows, id)
  {
    if id in p.ws || Get(p.dropped, id) > 0 {
      PushedOutIsGone(p.flows, flow, MAX_FLOWS, id);
      if |p.flows| >= MAX_FLOWS && id in Ids(p.flows[MAX_FLOWS - 1..]) {
        GoneHadFrames(p.flows[MAX_FLOWS - 1..], p.ws, p.dropped, id);
      }
    }
  }

  lemma ApplyOneBounded(p: Panel, raw: Flow)
    requires Bounded(p)
    ensures Bounded(ApplyOne(p, raw, MAX_FLOWS))
  {
    var flow := WithoutBytes(raw);
    if Has(p.flows, flow.id) {
      ApplyKeeps(p.flows, flow, p.recording, MAX_FLOWS);
      forall id ensures Has(p.flows[Find(p.flows, flow.id) := flow], id) <==> Has(p.flows, id) {
        ReplaceKeepsHas(p.flows, flow, id);
      }
    } else if p.recording {
      var q := Merge(p, PrependWithinCap(flow, p.flows, p.ws, p.dropped, MAX_FLOWS));
      assert q.flows == Prepend(p.flows, flow, MAX_FLOWS);
      ApplyKeeps(p.flows, flow, true, MAX_FLOWS);
      if |p.flows| >= MAX_FLOWS { TotalWithout(p.ws, Ids(p.flows[MAX_FLOWS - 1..])); }
      forall id | id in q.ws || Get(q.dropped, id) > 0 ensures Has(q.flows, id) {
        FramesStayListed(p, flow, id);
      }
    }
  }

  lemma {:induction false} ApplyBatchBounded(p: Panel, batch: seq<Flow>)
    requires Bounded(p)
    ensures Bounded(ApplyBatch(p, batch, MAX_FLOWS))
    decreases |batch|
  {
    if batch != [] {
      ApplyOneBounded(p, batch[0]);
      ApplyBatchBounded(ApplyOne(p, batch[0], MAX_FLOWS), batch[1..]);
    }
  }

  /* -------------------------------- frames ------------------------------ */

  /** What stays of `all` is a suffix, and the count grows by `told` and by each frame that went. */
  ghost predicate KeepsTail(all: seq<WsMessage>, kept: seq<WsMessage>, before: nat, told: nat, after: nat)
  {
    && |kept| <= |all| && kept == all[|all| - |kept|..]
    && after == before + told + |all| - |kept|
  }

  /**
   * Frame accounting of one append, for every socket: what is held afterwards is a
   * suffix of what was held plus what reached it, and each frame that went is counted.
   */
  lemma AppendAccounts(p: Panel, batch: seq<WsMessage>, upstream: map<string, nat>, cap: nat,
                       budget: Option<nat>, q: Panel, lost: map<string, nat>, id: string)
    requires AppendSpec(p, batch, upstream, cap, budget, q, lost)
    ensures KeepsTail(Held(p.ws, id) + Added(p, batch, id), Held(q.ws, id), Get(p.dropped, id),
                      if Has(p.flows, id) then Get(upstream, id) else 0, Get(q.dropped, id))
  {
    if AddsNothing(p, batch) {
      assert Added(p, batch, id) == [] && Held(p.ws, id) + [] == Held(p.ws, id);
      KeepsFrom(Held(p.ws, id), Held(q.ws, id), 0);
    } else {
      EvictedAccounts(p, batch, cap, budget, q, lost, id);
    }
  }

  ghost predicate CutTo(all: seq<WsMessage>, kept: seq<WsMessage>, cut: nat)
  {
    |kept| <= |all| && cut == |all| - |kept| && kept == all[|all| - |kept|..]
  }

  lemma EvictedAccounts(p: Panel, batch: seq<WsMessage>, cap: nat, budget: Option<nat>, q: Panel, lost: map<string,
                        nat>, id: string)
    requires Evicted(BeforeBudget(p, batch, cap), q.ws, lost, budget)
    ensures var all, kept := Held(p.ws, id) + Added(p, batch, id), Held(q.ws, id);
            CutTo(all, kept, OverCap(p, batch, cap, id) + Get(lost, id))
  {
    KeptOf(BeforeBudget(p, batch, cap), q.ws, lost, budget, id);
    SocketKept(p, batch, cap, Held(q.ws, id), Get(lost, id), id);
  }

  lemma KeepsFrom(all: seq<WsMessage>, kept: seq<WsMessage>, cut: nat)
    requires cut <= |all| && kept == all[cut..]
    ensures CutTo(all, kept, cut)
  {}

  /** The one fact about one socket that the byte budget leaves. */
  lemma KeptOf(held: FramesById, kept: FramesById, lost: map<string, nat>, budget: Option<nat>, id: string)
    requires Evicted(held, kept, lost, budget)
    ensures Get(lost, id) <= |Held(held, id)| && Held(kept, id) == Held(held, id)[Get(lost, id)..]
  {}

  lemma SocketKept(p: Panel, batch: seq<WsMessage>, cap: nat, kept: seq<WsMessage>, evicted: nat, id: string)
    requires var mid := Held(BeforeBudget(p, batch, cap), id); evicted <= |mid| && kept == mid[evicted..]
    ensures CutTo(Held(p.ws, id) + Added(p, batch, id), kept, OverCap(p, batch, cap, id) + evicted)
  {
    HasIds(p.flows, id);
    AppendedIsTail(p, batch, cap, id);
    KeepsFrom(Held(p.ws, id) + Added(p, batch, id), kept, OverCap(p, batch, cap, id) + evicted);
  }

  lemma AppendedIsTail(p: Panel, batch: seq<WsMessage>, cap: nat, id: string)
    ensures OverCap(p, batch, cap, id) <= |Held(p.ws, id) + Added(p, batch, id)|
    ensures Appended(p, batch, cap, id) == (Held(p.ws, id) + Added(p, batch, id))[OverCap(p, batch, cap, id)..]
  {}

  lemma AppendSocketBounded(p: Panel, batch: seq<WsMessage>, id: string)
    requires id in p.ws ==> |p.ws[id]| <= MAX_WS_FRAMES
    ensures |Appended(p, batch, MAX_WS_FRAMES, id)| <= MAX_WS_FRAMES
  {}

  lemma AppendBounded(p: Panel, batch: seq<WsMessage>, upstream: map<string, nat>, q: Panel, lost: map<string, nat>)
    requires Bounded(p)
    requires AppendSpec(p, batch, upstream, MAX_WS_FRAMES, Some(MAX_WS_BYTES), q, lost)
    ensures Bounded(q)
  {
    forall id | id in q.ws ensures Has(q.flows, id) && |q.ws[id]| <= MAX_WS_FRAMES {
      AppendAccounts(p, batch, upstream, MAX_WS_FRAMES, Some(MAX_WS_BYTES), q, lost, id);
      if !AddsNothing(p, batch) {
        assert id in BeforeBudget(p, batch, MAX_WS_FRAMES);
        HasIds(p.flows, id);
        AppendSocketBounded(p, batch, id);
      }
    }
    forall id | Get(q.dropped, id) > 0 ensures Has(q.flows, id) {
      AppendAccounts(p, batch, upstream, MAX_WS_FRAMES, Some(MAX_WS_BYTES), q, lost, id);
    }
  }

  /* --------------------------------- runs ------------------------------- */

  datatype Action =
    | UpsertFlows(batch: seq<Flow>)
    | AddWsMessages(frames: seq<WsMessage>, upstream: map<string, nat>)
    | LoadFlows(flows: seq<Flow>)
    | Clear
    | SetRecording(on: bool)

  /** One store action; eviction may break ties either way, hence a relation. */
  ghost predicate Step(p: Panel, a: Action, q: Panel)
  {
    match a
    case UpsertFlows(batch) => q == ApplyBatch(p, batch, MAX_FLOWS)
    case AddWsMessages(frames, upstream) =>
      exists lost :: AppendSpec(p, frames, upstream, MAX_WS_FRAMES, Some(MAX_WS_BYTES), q, lost)
    case LoadFlows(flows) => q == Panel(flows, p.recording, map[], map[])
    case Clear => q == Panel([], p.recording, map[], map[])
    case SetRecording(on) => q == p.(recording := on)
  }

  /** An imported list is taken as it is; this is all that is asked of it. */
  ghost predicate Loadable(flows: seq<Flow>)
  {
    Distinct(flows) && |flows| <= MAX_FLOWS
  }

  /** Importing keeps the store's invariant exactly when the file is fit for it. */
  lemma LoadBoundedIff(p: Panel, flows: seq<Flow>, q: Panel)
    requires Step(p, LoadFlows(flows), q)
    ensures Bounded(q) <==> Loadable(flows)
  {
    assert Total(map[]) == 0;
  }

  /** Every state of every run of actions from the empty store is bounded. */
  lemma {:induction false} RunBounded(states: seq<Panel>, actions: seq<Action>, n: nat)
    requires |states| == |actions| + 1 && n < |states| && states[0] == EMPTY
    requires forall i {:trigger actions[i]} :: 0 <= i < |actions| ==> Step(states[i], actions[i], states[i + 1])
    requires forall i :: 0 <= i < |actions| && actions[i].LoadFlows? ==> Loadable(actions[i].flows)
    ensures Bounded(states[n])
  {
    if n == 0 {
      assert Total(map[]) == 0;
    } else {
      RunBounded(states, actions, n - 1);
      assert Step(states[n - 1], actions[n - 1], states[n - 1 + 1]);
      var p, q := states[n - 1], states[n];
      match actions[n - 1] {
        case UpsertFlows(batch) => ApplyBatchBounded(p, batch);
        case AddWsMessages(frames, upstream) =>
          var lost :| AppendSpec(p, frames, upstream, MAX_WS_FRAMES, Some(MAX_WS_BYTES), q, lost);
          AppendBounded(p, frames, upstream, q, lost);
        case LoadFlows(flows) => LoadBoundedIff(p, flows, q);
        case Clear => LoadBoundedIff(p, [], q);
        case SetRecording(_) =>
      }
    }
  }

  /* ------------------------------- the class ---------------------------- */

  class Store {
    var flows: seq<Flow>
    var recording: bool
    var wsMessages: FramesById
    var wsDropped: map<string, nat>

    ghost function Abs(): Panel
      reads this
    {
      Panel(flows, recording, wsMessages, wsDropped)
    }

    constructor ()
      ensures Abs() == EMPTY
    {
      flows, recording, wsMessages, wsDropped := [], false, map[], map[];
    }

    method Set(p: Panel)
      modifies this
      ensures Abs() == p
    {
      flows, recording, wsMessages, wsDropped := p.flows, p.recording, p.ws, p.dropped;
    }

    method UpsertFlows(batch: seq<Flow>)
      requires Bounded(Abs())
      modifies this
      ensures Bounded(Abs())
      ensures Step(old(Abs()), Action.UpsertFlows(batch), Abs())
    {
      ApplyBatchBounded(Abs(), batch);
      var p := Panel(flows, recording, wsMessages, wsDropped);
      var change := ApplyFlowBatch(batch, p, MAX_FLOWS);
      Set(Merge(p, change));
    }

    method AddWsMessages(batch: seq<WsMessage>, upstream: map<string, nat>)
      requires Bounded(Abs())
      modifies this
      ensures Bounded(Abs())
      ensures Step(old(Abs()), Action.AddWsMessages(batch, upstream), Abs())
      ensures old(Total(wsMessages)) + Bytes(Utf16, batch) <= MAX_WS_BYTES ==>
        forall id :: Has(flows, id) && Of(id, batch) != [] ==>
          var total := |old(Held(wsMessages, id))| + |Of(id, batch)|;
          |Held(wsMessages, id)| == if total <= MAX_WS_FRAMES then total else MAX_WS_FRAMES
    {
      var p := Panel(flows, recording, wsMessages, wsDropped);
      var q := AppendWsMessages(batch, p, MAX_WS_FRAMES, Some(MAX_WS_BYTES), upstream);
      ghost var lost :| AppendSpec(p, batch, upstream, MAX_WS_FRAMES, Some(MAX_WS_BYTES), q, lost);
      AppendBounded(p, batch, upstream, q, lost);
      if Total(p.ws) + Bytes(Utf16, batch) <= MAX_WS_BYTES {
        forall id | Added(p, batch, id) != []
          ensures var total := |Held(p.ws, id)| + |Added(p, batch, id)|;
                  |Held(q.ws, id)| == if total <= MAX_WS_FRAMES then total else MAX_WS_FRAMES {
          FitsSoFull(p, batch, upstream, MAX_WS_FRAMES, MAX_WS_BYTES, q, lost, id);
        }
      }
      Set(q);
    }

    method LoadFlows(list: seq<Flow>)
      modifies this
      ensures Step(old(Abs()), Action.LoadFlows(list), Abs())
    {
      flows, wsMessages, wsDropped := list, map[], map[];
    }

    method Clear()
      modifies this
      ensures Step(old(Abs()), Action.Clear, Abs())
    {
      flows, wsMessages, wsDropped := [], map[], map[];
    }

    method SetRecording(on: bool)
      modifies this
      ensures Step(old(Abs()), Action.SetRecording(on), Abs())
    {
      recording := on;
    }
  }
}
