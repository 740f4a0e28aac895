/**
 * What the pipeline promises: a list that looks as if every snapshot had been applied
 * the moment it was emitted, although each stage keeps only the latest per flow.
 */
module Coalesce {
  import opened Proto

  /* ------------------------------- ids ------------------------------- */

  /** Position of the first flow with this id, or `|fs|`. */
  function Find(fs: seq<Flow>, id: string): (i: nat)
    ensures i <= |fs|
    ensures i < |fs| ==> fs[i].id == id
    ensures forall j :: 0 <= j < i ==> fs[j].id != id
  {
    if fs == [] || fs[0].id == id then 0 else 1 + Find(fs[1..], id)
  }

  predicate Has(fs: seq<Flow>, id: string)
  {
    Find(fs, id) < |fs|
  }

  ghost predicate Distinct(fs: seq<Flow>)
  {
    forall i, j :: 0 <= i < j < |fs| ==> fs[i].id != fs[j].id
  }

  function Ids(fs: seq<Flow>): set<string>
  {
    set i | 0 <= i < |fs| :: fs[i].id
  }

  lemma HasIds(fs: seq<Flow>, id: string)
    ensures Has(fs, id) <==> id in Ids(fs)
  {
    if Has(fs, id) { assert fs[Find(fs, id)].id == id; }
  }

  lemma {:induction false} DistinctCount(fs: seq<Flow>)
    requires Distinct(fs)
    ensures |Ids(fs)| == |fs|
  {
    if fs != [] {
      var last := fs[|fs| - 1];
      var front := fs[..|fs| - 1];
      DistinctCount(front);
      assert Ids(fs) == Ids(front) + {last.id};
    }
  }

  lemma {:induction false} SubsetSize(a: set<string>, b: set<string>)
    requires a <= b
    ensures |a| <= |b|
  {
    if a != {} {
      var x :| x in a;
      SubsetSize(a - {x}, b - {x});
    }
  }

  /** Distinct flows over a universe of ids are no more than the universe. */
  lemma DistinctFits(fs: seq<Flow>, universe: set<string>)
    requires Distinct(fs) && Ids(fs) <= universe
    ensures |fs| <= |universe|
  {
    DistinctCount(fs);
    SubsetSize(Ids(fs), universe);
  }

  /* ------------------------------ queueing ----------------------------- */

  /** Queue a snapshot: over the queued one of the same flow, else at the end. */
  function Upsert(q: seq<Flow>, f: Flow): seq<Flow>
  {
    if Has(q, f.id) then q[Find(q, f.id) := f] else q + [f]
  }

  function UpsertAll(q: seq<Flow>, batch: seq<Flow>): seq<Flow>
    decreases |batch|
  {
    if batch == [] then q else UpsertAll(Upsert(q, batch[0]), batch[1..])
  }

  lemma UpsertIds(q: seq<Flow>, f: Flow)
    ensures Ids(Upsert(q, f)) == Ids(q) + {f.id}
  {
    forall id ensures id in Ids(Upsert(q, f)) <==> id in Ids(q) || id == f.id {
      HasIds(q, id);
      HasIds(Upsert(q, f), id);
      if Has(q, f.id) {
        SameFind(q, Upsert(q, f), id);
      } else {
        IdsSplit(q, [f]);
        assert Ids([f]) == {f.id} by { assert [f][0] == f; }
      }
    }
  }

  lemma {:induction false} UpsertAllIds(q: seq<Flow>, batch: seq<Flow>)
    ensures Ids(UpsertAll(q, batch)) == Ids(q) + Ids(batch)
    decreases |batch|
  {
    if batch != [] {
      UpsertIds(q, batch[0]);
      UpsertAllIds(Upsert(q, batch[0]), batch[1..]);
      IdsHead(batch);
    }
  }

  lemma UpsertKeeps(q: seq<Flow>, f: Flow)
    requires Distinct(q)
    ensures Distinct(Upsert(q, f))
    ensures Ids(Upsert(q, f)) == Ids(q) + {f.id}
  {
    UpsertIds(q, f);
  }

  lemma {:induction false} UpsertAllKeeps(q: seq<Flow>, batch: seq<Flow>)
    requires Distinct(q)
    ensures Distinct(UpsertAll(q, batch))
    ensures Ids(UpsertAll(q, batch)) == Ids(q) + Ids(batch)
    decreases |batch|
  {
    if batch != [] {
      UpsertKeeps(q, batch[0]);
      UpsertAllKeeps(Upsert(q, batch[0]), batch[1..]);
      IdsHead(batch);
    }
  }

  lemma IdsSplit(a: seq<Flow>, b: seq<Flow>)
    ensures Ids(a + b) == Ids(a) + Ids(b)
  {
    forall id | id in Ids(a) + Ids(b) ensures id in Ids(a + b) {
      if id in Ids(a) {
        var i :| 0 <= i < |a| && a[i].id == id;
        assert (a + b)[i].id == id;
      } else {
        var i :| 0 <= i < |b| && b[i].id == id;
        assert (a + b)[|a| + i].id == id;
      }
    }
  }

  lemma IdsHead(fs: seq<Flow>)
    requires fs != []
    ensures Ids(fs) == {fs[0].id} + Ids(fs[1..])
  {
    IdsSplit([fs[0]], fs[1..]);
    assert [fs[0]] + fs[1..] == fs;
    assert Ids([fs[0]]) == {fs[0].id} by { assert [fs[0]][0] == fs[0]; }
  }

  /* ------------------------------- the list ---------------------------- */

  /** Put a new flow first, cutting the list at `cap`. */
  function Prepend(list: seq<Flow>, f: Flow, cap: nat): seq<Flow>
    requires cap >= 1
  {
    if |list| < cap then [f] + list else [f] + list[..cap - 1]
  }

  /** Apply one snapshot: in place if listed, else first in the list while recording. */
  function Apply(list: seq<Flow>, f: Flow, recording: bool, cap: nat): seq<Flow>
    requires cap >= 1
  {
    if Has(list, f.id) then list[Find(list, f.id) := f]
    else if recording then Prepend(list, f, cap)
    else list
  }

  function ApplyAll(list: seq<Flow>, batch: seq<Flow>, recording: bool, cap: nat): seq<Flow>
    requires cap >= 1
    decreases |batch|
  {
    if batch == [] then list else ApplyAll(Apply(list, batch[0], recording, cap), batch[1..], recording, cap)
  }

  lemma {:induction false} ApplyAllConcat(list: seq<Flow>, a: seq<Flow>, b: seq<Flow>, recording: bool, cap: nat)
    requires cap >= 1
    ensures ApplyAll(list, a + b, recording, cap) == ApplyAll(ApplyAll(list, a, recording, cap), b, recording, cap)
    decreases |a|
  {
    if a == [] {
      assert a + b == b;
    } else {
      assert (a + b)[1..] == a[1..] + b;
      ApplyAllConcat(Apply(list, a[0], recording, cap), a[1..], b, recording, cap);
    }
  }

  lemma ApplyAllSnoc(list: seq<Flow>, a: seq<Flow>, f: Flow, recording: bool, cap: nat)
    requires cap >= 1
    ensures ApplyAll(list, a + [f], recording, cap) == Apply(ApplyAll(list, a, recording, cap), f, recording, cap)
  {
    ApplyAllConcat(list, a, [f], recording, cap);
    assert [f][1..] == [];
  }

  /** One snapshot keeps ids unique and, within the cap, the list within it. */
  lemma ApplyKeeps(list: seq<Flow>, f: Flow, recording: bool, cap: nat)
    requires cap >= 1 && Distinct(list)
    ensures var r := Apply(list, f, recording, cap);
            && Distinct(r)
            && (|list| <= cap ==> |r| <= cap)
            && Ids(r) <= Ids(list) + {f.id}
            && (recording ==> f.id in Ids(r))
            && (recording && (Has(list, f.id) || |list| < cap) ==> Ids(r) == Ids(list) + {f.id})
  {
    var i := Find(list, f.id);
    var r := Apply(list, f, recording, cap);
    if i < |list| {
      assert forall k :: 0 <= k < |list| ==> r[k].id == list[k].id;
      assert r[i].id == f.id;
    } else if recording {
      assert r[0] == f;
      assert forall k :: 1 <= k < |r| ==> r[k] == list[k - 1];
      if |list| < cap { IdsSplit([f], list); }
    }
  }

  lemma {:induction false} ApplyAllKeeps(list: seq<Flow>, batch: seq<Flow>, recording: bool, cap: nat)
    requires cap >= 1 && Distinct(list)
    ensures var r := ApplyAll(list, batch, recording, cap);
            && Distinct(r)
            && (|list| <= cap ==> |r| <= cap)
            && Ids(r) <= Ids(list) + Ids(batch)
    decreases |batch|
  {
    if batch != [] {
      ApplyKeeps(list, batch[0], recording, cap);
      ApplyAllKeeps(Apply(list, batch[0], recording, cap), batch[1..], recording, cap);
      IdsHead(batch);
    }
  }

  /** Within a universe of at most `cap` ids nothing is ever evicted. */
  lemma {:induction false} ApplyAllEvictsNothing(list: seq<Flow>, batch: seq<Flow>, cap: nat, universe: set<string>)
    requires cap >= 1 && Distinct(list) && |universe| <= cap
    requires Ids(list) <= universe && Ids(batch) <= universe
    ensures Ids(ApplyAll(list, batch, true, cap)) == Ids(list) + Ids(batch)
    decreases |batch|
  {
    if batch != [] {
      var f := batch[0];
      IdsHead(batch);
      if !Has(list, f.id) { RoomFor(list, f.id, universe); }
      ApplyKeeps(list, f, true, cap);
      ApplyAllEvictsNothing(Apply(list, f, true, cap), batch[1..], cap, universe);
    }
  }

  lemma RoomFor(list: seq<Flow>, id: string, universe: set<string>)
    requires Distinct(list) && Ids(list) <= universe && id in universe && !Has(list, id)
    ensures |list| < |universe|
  {
    HasIds(list, id);
    DistinctCount(list);
    SubsetSize(Ids(list), universe - {id});
  }

  /* --------------------------- coalescing laws ------------------------- */

  /** Replacing a flow in place commutes with prepending another, evicted or not. */
  lemma ReplaceCommutesPrepend(list: seq<Flow>, f: Flow, g: Flow, cap: nat)
    requires cap >= 1 && Distinct(list) && f.id != g.id && !Has(list, g.id)
    ensures Prepend(Apply(list, f, false, cap), g, cap) == Apply(Prepend(list, g, cap), f, false, cap)
  {
    var i := Find(list, f.id);
    var x := Apply(list, f, false, cap);
    var y := Prepend(list, g, cap);
    ApplyKeeps(list, g, true, cap);
    if i < |list| && i + 1 < |y| {
      assert y[i + 1].id == f.id;
      assert Find(y, f.id) == i + 1;
      assert Prepend(x, g, cap) == y[i + 1 := f];
    } else {
      assert forall k :: 0 <= k < |y| ==> y[k].id != f.id;
      assert Prepend(x, g, cap) == y;
    }
  }

  /** Replacing a flow in place commutes with applying a snapshot of another. */
  lemma ReplaceCommutes(list: seq<Flow>, f: Flow, g: Flow, recording: bool, cap: nat)
    requires cap >= 1 && Distinct(list) && f.id != g.id
    ensures Apply(Apply(list, f, false, cap), g, recording, cap) == Apply(Apply(list, g, recording, cap), f, false, cap)
  {
    var x := Apply(list, f, false, cap);
    SameFind(list, x, g.id);
    if Has(list, g.id) {
      SameFind(list, Apply(list, g, recording, cap), f.id);
    } else if recording {
      ReplaceCommutesPrepend(list, f, g, cap);
    }
  }

  lemma SameFind(a: seq<Flow>, b: seq<Flow>, id: string)
    requires |a| == |b| && forall k :: 0 <= k < |a| ==> a[k].id == b[k].id
    ensures Find(a, id) == Find(b, id)
  {}

  /** The same, past a whole batch that does not name the flow. */
  lemma {:induction false} ReplaceCommutesAll(list: seq<Flow>, f: Flow, batch: seq<Flow>, recording: bool, cap: nat)
    requires cap >= 1 && Distinct(list) && f.id !in Ids(batch)
    ensures ApplyAll(Apply(list, f, false, cap), batch, recording, cap)
         == Apply(ApplyAll(list, batch, recording, cap), f, false, cap)
    decreases |batch|
  {
    if batch != [] {
      var g := batch[0];
      assert g.id in Ids(batch);
      assert Ids(batch[1..]) <= Ids(batch);
      ReplaceCommutes(list, f, g, recording, cap);
      ApplyKeeps(list, g, recording, cap);
      ReplaceCommutesAll(Apply(list, g, recording, cap), f, batch[1..], recording, cap);
    }
  }

  /** Applying a newer snapshot right after an older one leaves the newer. */
  lemma ApplyTwice(list: seq<Flow>, older: Flow, f: Flow, recording: bool, cap: nat)
    requires cap >= 1 && Distinct(list) && older.id == f.id
    ensures Apply(list, f, recording, cap) == Apply(Apply(list, older, recording, cap), f, false, cap)
  {
    var x := Apply(list, older, recording, cap);
    if Has(list, f.id) {
      SameFind(list, x, f.id);
    } else if recording {
      assert x[0] == older && Find(x, f.id) == 0;
    }
  }

  /** Coalescing a snapshot into a queue that holds the flow is a replacement at the end. */
  lemma CoalescedIsReplaced(list: seq<Flow>, q: seq<Flow>, f: Flow, recording: bool, cap: nat)
    requires cap >= 1 && Distinct(list) && Distinct(q) && Has(q, f.id)
    ensures ApplyAll(list, Upsert(q, f), recording, cap) == Apply(ApplyAll(list, q, recording, cap), f, false, cap)
  {
    var i := Find(q, f.id);
    var a, older, b := q[..i], q[i], q[i + 1..];
    UpsertSplits(q, f);
    LaterReplaces(list, a, older, f, b, recording, cap);
  }

  lemma {:induction false} UpsertSplits(q: seq<Flow>, f: Flow)
    requires Distinct(q) && Has(q, f.id)
    ensures var i := Find(q, f.id); var a, b := q[..i], q[i + 1..];
            && q == a + ([q[i]] + b) && Upsert(q, f) == a + ([f] + b)
            && f.id !in Ids(b)
  {
    var i := Find(q, f.id);
    SplitsAt(q, i, f);
    NotLater(q, i);
    assert q[i].id == f.id && Upsert(q, f) == q[i := f];
  }

  lemma NotLater(q: seq<Flow>, i: nat)
    requires Distinct(q) && i < |q|
    ensures q[i].id !in Ids(q[i + 1..])
  {}

  lemma SplitsAt(q: seq<Flow>, i: nat, f: Flow)
    requires i < |q|
    ensures q == q[..i] + ([q[i]] + q[i + 1..]) && q[i := f] == q[..i] + ([f] + q[i + 1..])
  {}

  lemma LaterReplaces(list: seq<Flow>, a: seq<Flow>, older: Flow, f: Flow, b: seq<Flow>, recording: bool, cap: nat)
    requires cap >= 1 && Distinct(list) && older.id == f.id && f.id !in Ids(b)
    ensures ApplyAll(list, a + ([f] + b), recording, cap)
         == Apply(ApplyAll(list, a + ([older] + b), recording, cap), f, false, cap)
  {
    var w := ApplyAll(list, a, recording, cap);
    ApplyAllKeeps(list, a, recording, cap);
    ApplyAllConcat(list, a, [older] + b, recording, cap);
    ApplyAllConcat(list, a, [f] + b, recording, cap);
    assert ([older] + b)[1..] == b && ([f] + b)[1..] == b;
    ApplyTwice(w, older, f, recording, cap);
    ApplyKeeps(w, older, recording, cap);
    ReplaceCommutesAll(Apply(w, older, recording, cap), f, b, recording, cap);
  }

  /**
   * Exactly when coalescing is invisible. A newer snapshot of a flow already queued
   * takes the older one's place; the list ends up as if it had been applied when it came
   * if and only if the list is not recording or still holds the flow once the queue is
   * applied. A flow not yet queued goes to the end, which is never visible.
   */
  lemma CoalesceExact(list: seq<Flow>, q: seq<Flow>, f: Flow, recording: bool, cap: nat)
    requires cap >= 1 && Distinct(list) && Distinct(q)
    ensures ApplyAll(list, Upsert(q, f), recording, cap) == ApplyAll(list, q + [f], recording, cap)
       <==> (!recording || !Has(q, f.id) || Has(ApplyAll(list, q, recording, cap), f.id))
  {
    ApplyAllSnoc(list, q, f, recording, cap);
    if Has(q, f.id) {
      CoalescedIsReplaced(list, q, f, recording, cap);
      var r := ApplyAll(list, q, recording, cap);
      if recording && !Has(r, f.id) {
        assert Apply(r, f, true, cap)[0] == f;
        assert Apply(r, f, false, cap) == r;
        assert r == [] || r[0].id != f.id;
      }
    }
  }

  lemma ApplyAllSwap(list: seq<Flow>, a: seq<Flow>, b: seq<Flow>, rest: seq<Flow>, recording: bool, cap: nat)
    requires cap >= 1
    requires ApplyAll(list, a, recording, cap) == ApplyAll(list, b, recording, cap)
    ensures ApplyAll(list, a + rest, recording, cap) == ApplyAll(list, b + rest, recording, cap)
  {
    ApplyAllConcat(list, a, rest, recording, cap);
    ApplyAllConcat(list, b, rest, recording, cap);
  }

  /** A whole batch coalesces invisibly when the ids involved fit the cap. */
  lemma {:induction false} CoalesceAll(list: seq<Flow>, q: seq<Flow>, batch: seq<Flow>, cap: nat, universe: set<string>)
    requires cap >= 1 && Distinct(list) && Distinct(q) && |universe| <= cap
    requires Ids(list) <= universe && Ids(q) <= universe && Ids(batch) <= universe
    ensures ApplyAll(list, UpsertAll(q, batch), true, cap) == ApplyAll(list, q + batch, true, cap)
    decreases |batch|
  {
    if batch == [] {
      assert q + batch == q;
    } else {
      var f, rest := batch[0], batch[1..];
      IdsHead(batch);
      UpsertKeeps(q, f);
      CoalesceAll(list, Upsert(q, f), rest, cap, universe);
      CoalesceHead(list, q, f, rest, cap, universe);
      HeadJoins(q, batch);
    }
  }

  lemma HeadJoins(q: seq<Flow>, batch: seq<Flow>)
    requires batch != []
    ensures q + batch == (q + [batch[0]]) + batch[1..]
  {}

  lemma CoalesceHead(list: seq<Flow>, q: seq<Flow>, f: Flow, rest: seq<Flow>, cap: nat, universe: set<string>)
    requires cap >= 1 && Distinct(list) && Distinct(q) && |universe| <= cap
    requires Ids(list) <= universe && Ids(q) <= universe && f.id in universe
    ensures ApplyAll(list, Upsert(q, f) + rest, true, cap) == ApplyAll(list, (q + [f]) + rest, true, cap)
  {
    CoalesceOne(list, q, f, cap, universe);
    ApplyAllSwap(list, Upsert(q, f), q + [f], rest, true, cap);
  }

  lemma CoalesceOne(list: seq<Flow>, q: seq<Flow>, f: Flow, cap: nat, universe: set<string>)
    requires cap >= 1 && Distinct(list) && Distinct(q) && |universe| <= cap
    requires Ids(list) <= universe && Ids(q) <= universe && f.id in universe
    ensures ApplyAll(list, Upsert(q, f), true, cap) == ApplyAll(list, q + [f], true, cap)
  {
    ApplyAllEvictsNothing(list, q, cap, universe);
    HasIds(q, f.id);
    HasIds(ApplyAll(list, q, true, cap), f.id);
    CoalesceExact(list, q, f, true, cap);
  }
}
