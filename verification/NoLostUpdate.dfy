/**
 * The retained store and the stream it feeds, together (crates/nova-core/src/flow.rs,
 * src-tauri/src/state.rs): no update of a flow the UI was shown is ever lost, through any
 * interleaving of inserts, updates, flushes, pauses, resumes, clears and reloads. A store
 * change and the emit that follows it are one step.
 */
module NoLostUpdate {
  import opened Wrappers
  import opened Proto
  import opened Coalesce
  import opened UiStream

  /** `shown`: flows emitted to the bound page while it was not paused, still retained. */
  datatype World = World(store: map<string, Flow>, stream: Stream, shown: set<string>)

  const START := World(map[], UNBOUND, {})

  datatype Event =
    | Insert(flow: Flow, evicted: set<string>)
    | Update(id: string, flow: Flow)
    | FlushTick
    | PauseUi
    | ResumeUi
    | ClearAll
    | BindPage

  function Emitting(s: Stream): bool { s.bound && s.paused.None? }

  function Next(w: World, e: Event): World
  {
    match e
    case Insert(f, evicted) =>
      World(w.store[f.id := f] - evicted, EmitFlow(w.stream, f),
            (if Emitting(w.stream) then w.shown + {f.id} else w.shown) - evicted)
    case Update(id, f) =>
      if id !in w.store then w
      else World(w.store[id := f], EmitFlow(w.stream, f), if Emitting(w.stream) then w.shown + {id} else w.shown)
    case FlushTick => w.(stream := Flush(w.stream))
    case PauseUi => w.(stream := Pause(w.stream))
    case ResumeUi => w.(stream := Resume(w.stream, w.store))
    case ClearAll => World(map[], Discard(w.stream), {})
    case BindPage => w.(stream := Bind(w.stream), shown := {})
  }

  /** Ids are minted once per exchange, and an update keeps a flow's id and number. */
  predicate Allowed(w: World, e: Event)
  {
    match e
    case Insert(f, _) => f.id !in w.store
    case Update(id, f) => id in w.store ==> f.id == id && f.number == w.store[id].number
    case _ => true
  }

  /** The last snapshot of a flow in a row of them. */
  function Last(fs: seq<Flow>, id: string): Option<Flow>
  {
    if fs == [] then None
    else if fs[|fs| - 1].id == id then Some(fs[|fs| - 1])
    else Last(fs[..|fs| - 1], id)
  }

  /** The copy of a flow the page holds: the last one sent to it. */
  function Delivered(s: Stream, id: string): Option<Flow>
  {
    Last(AllFlows(s.outbox), id)
  }

  function Queued(s: Stream, id: string): Option<Flow>
  {
    if Has(s.flows, id) then Some(s.flows[Find(s.flows, id)]) else None
  }

  /** Where a flow's current state is: noted for a resume, queued, or with the page. */
  predicate Reaches(s: Stream, id: string, current: Flow)
  {
    || (s.paused.Some? && id in s.paused.value.changed)
    || Queued(s, id) == Some(current)
    || (Queued(s, id).None? && Delivered(s, id) == Some(current))
  }

  /** The highest number a flow that existed before the current pause can have. */
  function Horizon(s: Stream): nat
  {
    if s.paused.Some? then s.paused.value.throughSeq else s.lastSeq
  }

  ghost predicate Tracked(w: World, id: string)
  {
    && id in w.store && w.stream.bound
    && w.store[id].number <= Horizon(w.stream)
    && Reaches(w.stream, id, WithoutBytes(w.store[id]))
  }

  ghost predicate Inv(w: World)
  {
    && Distinct(w.stream.flows)
    && Horizon(w.stream) <= w.stream.lastSeq
    && (forall id :: id in w.store ==> w.store[id].id == id)
    && (forall id :: id in w.shown ==> Tracked(w, id))
  }

  /* ----------------------------- what queues do ------------------------- */

  lemma UpsertQueued(q: seq<Flow>, f: Flow, id: string)
    requires Distinct(q)
    ensures Has(Upsert(q, f), id) <==> (id == f.id || Has(q, id))
    ensures id == f.id ==> Upsert(q, f)[Find(Upsert(q, f), id)] == f
    ensures id != f.id && Has(q, id) ==> Upsert(q, f)[Find(Upsert(q, f), id)] == q[Find(q, id)]
  {
    var r := Upsert(q, f);
    UpsertKeeps(q, f);
    HasIds(q, id);
    HasIds(r, id);
    if Has(r, id) { assert r[Find(r, id)].id == id; }
    if Has(q, f.id) { assert r[Find(q, f.id)] == f; } else { assert r[|q|] == f; }
    if Has(q, id) && id != f.id { assert r[Find(q, id)] == q[Find(q, id)]; }
  }

  /** Queueing the current state of noted flows: those get it, no other is touched. */
  lemma {:induction false} QueueCurrentQueued(q: seq<Flow>, ids: seq<string>, store: map<string, Flow>, id: string)
    requires Distinct(q) && forall k :: k in store ==> store[k].id == k
    ensures var r := QueueCurrent(q, ids, store);
            && Distinct(r)
            && (id in ids && id in store ==> Has(r, id) && r[Find(r, id)] == WithoutBytes(store[id]))
            && (Has(q, id) ==> Has(r, id) && (r[Find(r, id)] == q[Find(q, id)]
                                              || (id in store && r[Find(r, id)] == WithoutBytes(store[id]))))
            && (Has(r, id) ==> Has(q, id) || (id in store && r[Find(r, id)] == WithoutBytes(store[id])))
    decreases |ids|
  {
    if ids != [] && ids[0] in store {
      var f := WithoutBytes(store[ids[0]]);
      UpsertKeeps(q, f);
      UpsertQueued(q, f, id);
      QueueCurrentQueued(Upsert(q, f), ids[1..], store, id);
    } else if ids != [] {
      QueueCurrentQueued(q, ids[1..], store, id);
    }
  }

  lemma {:induction false} LastConcat(a: seq<Flow>, b: seq<Flow>, id: string)
    ensures Last(a + b, id) == if Last(b, id).Some? then Last(b, id) else Last(a, id)
    decreases |b|
  {
    if b == [] {
      assert a + b == a;
    } else {
      assert (a + b)[..|a + b| - 1] == a + b[..|b| - 1];
      LastConcat(a, b[..|b| - 1], id);
    }
  }

  lemma {:induction false} LastDistinct(q: seq<Flow>, id: string)
    requires Distinct(q)
    ensures Last(q, id) == if Has(q, id) then Some(q[Find(q, id)]) else None
    decreases |q|
  {
    if q != [] {
      var front := q[..|q| - 1];
      LastDistinct(front, id);
      if Has(front, id) { assert q[Find(front, id)].id == id; }
      if Has(q, id) { assert q[Find(q, id)].id == id; }
    }
  }

  lemma {:induction false} AllFlowsAppend(a: seq<StreamBatch>, b: seq<StreamBatch>)
    ensures AllFlows(a + b) == AllFlows(a) + AllFlows(b)
  {
    if a == [] {
      assert a + b == b;
    } else {
      assert (a + b)[1..] == a[1..] + b;
      AllFlowsAppend(a[1..], b);
      assert a[0].flows + (AllFlows(a[1..]) + AllFlows(b)) == AllFlows(a) + AllFlows(b);
    }
  }

  /** A flush delivers what was queued and leaves the rest as it was. */
  lemma FlushDelivers(s: Stream, id: string)
    requires s.bound && Distinct(s.flows)
    ensures Flush(s).flows == [] || Flush(s) == s
    ensures Delivered(Flush(s), id) == if Queued(s, id).Some? then Queued(s, id) else Delivered(s, id)
  {
    var t := Flush(s);
    if t != s {
      var ms := t.outbox[|s.outbox|..];
      assert t.outbox == s.outbox + ms;
      AllFlowsAppend(s.outbox, ms);
      var k := Frames.Fill(Utf8, s.ws, MAX_WS_BYTES_PER_TICK);
      assert ms == Messages(s.flows, s.ws[..k], s.dropped);
      MessagesWhole(s.flows, s.ws[..k], s.dropped);
      LastConcat(AllFlows(s.outbox), s.flows, id);
      LastDistinct(s.flows, id);
    }
  }

  /* -------------------------------- steps ------------------------------- */

  /** An emitted snapshot reaches the page or the pause's notes; no other flow's moves. */
  lemma EmitReaches(s: Stream, f: Flow, id: string, current: Flow)
    requires Distinct(s.flows) && s.bound
    requires id == f.id ==> current == WithoutBytes(f) && (s.paused.Some? ==> f.number <= Horizon(s))
    requires id != f.id ==> Reaches(s, id, current)
    ensures Reaches(EmitFlow(s, f), id, current)
  {
    if s.paused.None? {
      UpsertQueued(s.flows, WithoutBytes(f), id);
    }
  }

  lemma EmitKeeps(s: Stream, f: Flow)
    requires Distinct(s.flows) && Horizon(s) <= s.lastSeq
    ensures var t := EmitFlow(s, f);
            && Distinct(t.flows) && t.bound == s.bound && Horizon(s) <= Horizon(t) <= t.lastSeq
            && (Emitting(s) ==> f.number <= Horizon(t))
  {
    UpsertKeeps(s.flows, WithoutBytes(f));
  }

  lemma InsertKeeps(w: World, f: Flow, evicted: set<string>)
    requires Inv(w) && Allowed(w, Insert(f, evicted))
    ensures Inv(Next(w, Insert(f, evicted)))
  {
    var v := Next(w, Insert(f, evicted));
    EmitKeeps(w.stream, f);
    forall id | id in v.shown ensures Tracked(v, id) {
      if id != f.id { assert Tracked(w, id); } else { assert id !in w.shown; }
      EmitReaches(w.stream, f, id, WithoutBytes(v.store[id]));
    }
  }

  lemma UpdateKeeps(w: World, id: string, f: Flow)
    requires Inv(w) && Allowed(w, Update(id, f))
    ensures Inv(Next(w, Update(id, f)))
  {
    if id in w.store {
      var v := Next(w, Update(id, f));
      EmitKeeps(w.stream, f);
      forall k | k in v.shown ensures Tracked(v, k) {
        if k in w.shown { assert Tracked(w, k); }
        EmitReaches(w.stream, f, k, WithoutBytes(v.store[k]));
      }
    }
  }

  lemma FlushKeeps(w: World)
    requires Inv(w)
    ensures Inv(Next(w, FlushTick))
  {
    var v := Next(w, FlushTick);
    forall id | id in v.shown ensures Tracked(v, id) {
      assert Tracked(w, id);
      FlushDelivers(w.stream, id);
    }
  }

  lemma ResumeKeeps(w: World)
    requires Inv(w)
    ensures Inv(Next(w, ResumeUi))
    ensures forall id :: id in w.shown ==> Reaches(Next(w, ResumeUi).stream, id, WithoutBytes(w.store[id]))
  {
    var v := Next(w, ResumeUi);
    if w.stream.paused.Some? {
      var ids := w.stream.paused.value.changed;
      QueueCurrentQueued(w.stream.flows, ids, w.store, "");
      forall id | id in v.shown ensures Tracked(v, id) {
        assert Tracked(w, id);
        QueueCurrentQueued(w.stream.flows, ids, w.store, id);
      }
    } else {
      forall id | id in w.shown ensures Reaches(v.stream, id, WithoutBytes(w.store[id])) { assert Tracked(w, id); }
    }
  }

  function Run(w: World, events: seq<Event>): World
    decreases |events|
  {
    if events == [] then w else Run(Next(w, events[0]), events[1..])
  }

  predicate AllAllowed(w: World, events: seq<Event>)
    decreases |events|
  {
    events == [] || (Allowed(w, events[0]) && AllAllowed(Next(w, events[0]), events[1..]))
  }

  lemma {:induction false} RunKeeps(w: World, events: seq<Event>)
    requires Inv(w) && AllAllowed(w, events)
    ensures Inv(Run(w, events))
    decreases |events|
  {
    if events != [] {
      match events[0] {
        case Insert(f, evicted) => InsertKeeps(w, f, evicted);
        case Update(id, f) => UpdateKeeps(w, id, f);
        case FlushTick => FlushKeeps(w);
        case PauseUi =>
          forall id | id in w.shown ensures Tracked(Next(w, PauseUi), id) { assert Tracked(w, id); }
        case ResumeUi => ResumeKeeps(w);
        case _ =>
      }
      RunKeeps(Next(w, events[0]), events[1..]);
    }
  }

  /**
   * After any run, the current state of every shown flow is queued, with the page, or
   * noted for the resume.
   */
  lemma NothingLost(events: seq<Event>, id: string)
    requires AllAllowed(START, events) && id in Run(START, events).shown
    ensures var w := Run(START, events);
            id in w.store && Reaches(w.stream, id, WithoutBytes(w.store[id]))
  {
    RunKeeps(START, events);
    assert Tracked(Run(START, events), id);
  }

  /** And a resume followed by a flush brings every one of them up to date. */
  lemma ResumeAndFlushCatchUp(events: seq<Event>, id: string)
    requires AllAllowed(START, events) && id in Run(START, events).shown
    ensures var w := Run(START, events);
            && id in w.store
            && Delivered(Flush(Resume(w.stream, w.store)), id) == Some(WithoutBytes(w.store[id]))
  {
    var w := Run(START, events);
    RunKeeps(START, events);
    assert Tracked(w, id);
    ResumeKeeps(w);
    FlushDelivers(Resume(w.stream, w.store), id);
  }
}
