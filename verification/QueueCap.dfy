/**
 * The webview queue drops its oldest flows past a cap. Its comment
 * (src/streamQueue.ts:40-42) says that loses nothing the list would have kept. This
 * module says exactly when that is so.
 */
module QueueCap {
  import opened Wrappers
  import opened Proto
  import opened Coalesce
  import Q = StreamQueue

  function Reverse(s: seq<Flow>): (r: seq<Flow>)
    ensures |r| == |s|
  {
    if s == [] then [] else Reverse(s[1..]) + [s[0]]
  }

  /** The list as far as it can still be standing after `i` new flows came in. */
  function Standing(list: seq<Flow>, i: nat, cap: nat): seq<Flow>
    requires i <= cap
  {
    if |list| <= cap - i then list else list[..cap - i]
  }

  /* ----------------------- what new flows push out ---------------------- */

  /** How many snapshots of the batch find their flow not listed when their turn comes. */
  function NewOnes(list: seq<Flow>, batch: seq<Flow>, cap: nat): nat
    requires cap >= 1
    decreases |batch|
  {
    if batch == [] then 0
    else (if Has(list, batch[0].id) then 0 else 1) + NewOnes(Apply(list, batch[0], true, cap), batch[1..], cap)
  }

  /** Where a listed flow is after a snapshot of another; `cap` if it is gone. */
  lemma OnePlaceOn(list: seq<Flow>, f: Flow, id: string, cap: nat)
    requires Distinct(list) && Find(list, id) < |list| && Find(list, id) < cap && f.id != id
    ensures var r := Apply(list, f, true, cap);
            if Has(list, f.id) then Find(r, id) == Find(list, id) < |r|
            else if Find(list, id) + 1 < cap then Find(r, id) == Find(list, id) + 1 < |r|
            else !Has(r, id)
  {
    var at, r := Find(list, id), Apply(list, f, true, cap);
    if Has(list, f.id) {
      SameFind(list, r, id);
    } else {
      assert forall k :: 1 <= k < |r| ==> r[k] == list[k - 1];
      if at + 1 < cap { assert r[at + 1].id == id; }
    }
  }

  /** What is not listed stays so through a batch that does not name it. */
  lemma {:induction false} StaysOut(list: seq<Flow>, batch: seq<Flow>, id: string, cap: nat)
    requires cap >= 1 && !Has(list, id) && id !in Ids(batch)
    ensures !Has(ApplyAll(list, batch, true, cap), id)
    decreases |batch|
  {
    if batch != [] {
      IdsHead(batch);
      var r := Apply(list, batch[0], true, cap);
      if Has(list, batch[0].id) { SameFind(list, r, id); }
      StaysOut(r, batch[1..], id, cap);
    }
  }

  /** A listed flow is pushed out by exactly as many new flows as it has places left. */
  lemma {:induction false} PushedOut(list: seq<Flow>, batch: seq<Flow>, id: string, cap: nat)
    requires Distinct(list) && Find(list, id) < |list| && Find(list, id) < cap && id !in Ids(batch)
    ensures !Has(ApplyAll(list, batch, true, cap), id) <==> NewOnes(list, batch, cap) >= cap - Find(list, id)
    decreases |batch|
  {
    if batch != [] {
      IdsHead(batch);
      var next := Apply(list, batch[0], true, cap);
      OnePlaceOn(list, batch[0], id, cap);
      ApplyKeeps(list, batch[0], true, cap);
      if Has(next, id) { PushedOut(next, batch[1..], id, cap); } else { StaysOut(next, batch[1..], id, cap); }
    }
  }

  /**
   * Exactly when a dropped snapshot is one the list would have lost anyway. The queue
   * drops `gone` and keeps `kept`; applied in turn, `gone` would have left the list `w`.
   * The flow of any dropped snapshot is not in the list in the end if and only if it is
   * not in `w`, or as many of the kept flows are new to the list as `w` has places from
   * that flow to the end.
   */
  lemma DroppedLostIff(list: seq<Flow>, gone: seq<Flow>, kept: seq<Flow>, i: nat, cap: nat)
    requires cap >= 1 && Distinct(list) && |list| <= cap
    requires i < |gone| && gone[i].id !in Ids(kept)
    ensures var id, w := gone[i].id, ApplyAll(list, gone, true, cap);
            !Has(ApplyAll(list, gone + kept, true, cap), id) <==>
            !Has(w, id) || NewOnes(w, kept, cap) >= cap - Find(w, id)
  {
    var w := ApplyAll(list, gone, true, cap);
    ApplyAllKeeps(list, gone, true, cap);
    ApplyAllConcat(list, gone, kept, true, cap);
    if Has(w, gone[i].id) { PushedOut(w, kept, gone[i].id, cap); } else { StaysOut(w, kept, gone[i].id, cap); }
  }

  /* ------------------- the count, told before the batch ----------------- */

  /** A flow at this place of `w` is still listed once `n` new flows came in. */
  predicate StillListed(w: seq<Flow>, id: string, n: nat, cap: nat)
  {
    Find(w, id) < |w| && Find(w, id) + n < cap
  }

  /** The count from the list as it was: places in `w` and how many new flows came before. */
  function CountNew(w: seq<Flow>, batch: seq<Flow>, n: nat, cap: nat): nat
    decreases |batch|
  {
    if batch == [] then n
    else CountNew(w, batch[1..], if StillListed(w, batch[0].id, n, cap) then n else n + 1, cap)
  }

  /** `l` is `w` moved on by `n` flows of `seen`. */
  ghost predicate MovedOn(w: seq<Flow>, l: seq<Flow>, n: nat, seen: set<string>, cap: nat)
  {
    && |l| == (if |w| + n <= cap then |w| + n else cap)
    && (forall k :: 0 <= k < n && k < |l| ==> l[k].id in seen)
    && (forall k :: n <= k < |l| ==> l[k].id == w[k - n].id)
  }

  lemma MovedOnLists(w: seq<Flow>, l: seq<Flow>, n: nat, seen: set<string>, id: string, cap: nat)
    requires MovedOn(w, l, n, seen, cap) && id !in seen && |w| <= cap
    ensures Has(l, id) <==> StillListed(w, id, n, cap)
  {
    var at := Find(w, id);
    if StillListed(w, id, n, cap) { assert l[at + n].id == id; }
    if Has(l, id) { assert w[Find(l, id) - n].id == id; }
  }

  lemma MovedOnStep(w: seq<Flow>, l: seq<Flow>, n: nat, seen: set<string>, f: Flow, cap: nat)
    requires cap >= 1 && MovedOn(w, l, n, seen, cap) && f.id !in seen && |w| <= cap
    ensures MovedOn(w, Apply(l, f, true, cap), if StillListed(w, f.id, n, cap) then n else n + 1, seen + {f.id}, cap)
  {
    MovedOnLists(w, l, n, seen, f.id, cap);
    if Has(l, f.id) {
      assert forall k :: 0 <= k < |l| ==> Apply(l, f, true, cap)[k].id == l[k].id;
    } else {
      MovedOnByOne(w, l, n, seen, f, cap);
    }
  }

  lemma MovedOnByOne(w: seq<Flow>, l: seq<Flow>, n: nat, seen: set<string>, f: Flow, cap: nat)
    requires cap >= 1 && MovedOn(w, l, n, seen, cap)
    ensures MovedOn(w, Prepend(l, f, cap), n + 1, seen + {f.id}, cap)
  {
    var r := Prepend(l, f, cap);
    assert r[0] == f && forall k :: 1 <= k < |r| ==> r[k] == l[k - 1];
  }

  lemma {:induction false} CountFrom(w: seq<Flow>, l: seq<Flow>, batch: seq<Flow>, n: nat, seen: set<string>, cap: nat)
    requires cap >= 1 && |w| <= cap && MovedOn(w, l, n, seen, cap)
    requires Distinct(batch) && Ids(batch) !! seen
    ensures n + NewOnes(l, batch, cap) == CountNew(w, batch, n, cap)
    decreases |batch|
  {
    if batch != [] {
      var f := batch[0];
      IdsHead(batch);
      MovedOnLists(w, l, n, seen, f.id, cap);
      MovedOnStep(w, l, n, seen, f, cap);
      CountFrom(w, Apply(l, f, true, cap), batch[1..], if StillListed(w, f.id, n, cap) then n else n + 1,
                seen + {f.id}, cap);
    }
  }

  /** How many of the kept flows are new can be told from the list before they come. */
  lemma NewOnesToldBefore(w: seq<Flow>, kept: seq<Flow>, cap: nat)
    requires cap >= 1 && |w| <= cap && Distinct(kept)
    ensures NewOnes(w, kept, cap) == CountNew(w, kept, 0, cap)
  {
    CountFrom(w, w, kept, 0, {}, cap);
  }

  /* ----------------------- the whole of what is lost -------------------- */

  lemma {:induction false} CountNewConcat(w: seq<Flow>, a: seq<Flow>, b: seq<Flow>, n: nat, cap: nat)
    ensures CountNew(w, a + b, n, cap) == CountNew(w, b, CountNew(w, a, n, cap), cap)
    decreases |a|
  {
    if a == [] {
      assert a + b == b;
    } else {
      assert (a + b)[1..] == a[1..] + b;
      CountNewConcat(w, a[1..], b, if StillListed(w, a[0].id, n, cap) then n else n + 1, cap);
    }
  }

  /** The more new flows came before, the more there are in the end. */
  lemma {:induction false} CountNewMonotone(w: seq<Flow>, batch: seq<Flow>, n: nat, more: nat, cap: nat)
    requires n <= more
    ensures n <= CountNew(w, batch, n, cap) <= CountNew(w, batch, more, cap)
    decreases |batch|
  {
    if batch != [] {
      CountNewMonotone(w, batch[1..], if StillListed(w, batch[0].id, n, cap) then n else n + 1,
                       if StillListed(w, batch[0].id, more, cap) then more else more + 1, cap);
    }
  }

  lemma {:induction false} MovedOnAll(w: seq<Flow>, l: seq<Flow>, batch: seq<Flow>, n: nat, seen: set<string>, cap: nat)
    requires cap >= 1 && |w| <= cap && MovedOn(w, l, n, seen, cap)
    requires Distinct(batch) && Ids(batch) !! seen
    ensures MovedOn(w, ApplyAll(l, batch, true, cap), CountNew(w, batch, n, cap), seen + Ids(batch), cap)
    decreases |batch|
  {
    if batch == [] {
      assert seen + Ids(batch) == seen;
    } else {
      var f := batch[0];
      IdsHead(batch);
      MovedOnStep(w, l, n, seen, f, cap);
      MovedOnAll(w, Apply(l, f, true, cap), batch[1..], if StillListed(w, f.id, n, cap) then n else n + 1,
                 seen + {f.id}, cap);
      assert seen + {f.id} + Ids(batch[1..]) == seen + Ids(batch);
    }
  }

  /** Where the `j`-th flow of a batch is once it has come, told from the list before. */
  function PlaceThen(l: seq<Flow>, batch: seq<Flow>, j: nat, cap: nat): nat
    requires j < |batch|
  {
    var n := CountNew(l, batch[..j], 0, cap);
    if StillListed(l, batch[j].id, n, cap) then Find(l, batch[j].id) + n else 0
  }

  /** The `j`-th flow of a batch outlasts those after it, told from the list before. */
  predicate KeptStays(l: seq<Flow>, batch: seq<Flow>, j: nat, cap: nat)
    requires j < |batch|
  {
    CountNew(l, batch, 0, cap) - CountNew(l, batch[..j + 1], 0, cap) < cap - PlaceThen(l, batch, j, cap)
  }

  /** A listed flow that the batch does not name outlasts it, told from the list before. */
  predicate OtherStays(l: seq<Flow>, batch: seq<Flow>, id: string, cap: nat)
  {
    Has(l, id) && CountNew(l, batch, 0, cap) < cap - Find(l, id)
  }

  lemma {:induction false} MovedOnFind(w: seq<Flow>, l: seq<Flow>, n: nat, seen: set<string>, id: string, cap: nat)
    requires MovedOn(w, l, n, seen, cap) && id !in seen && |w| <= cap && StillListed(w, id, n, cap)
    ensures Find(l, id) == Find(w, id) + n < |l|
  {
    var at := Find(w, id);
    forall k | 0 <= k < at + n ensures l[k].id != id {
      if k >= n { assert l[k].id == w[k - n].id; }
    }
    FindAt(l, id, at + n);
  }

  lemma FindAt(fs: seq<Flow>, id: string, i: nat)
    requires i < |fs| && fs[i].id == id && forall k :: 0 <= k < i ==> fs[k].id != id
    ensures Find(fs, id) == i
  {}

  /** Where a flow is that the batch does not name, told from the list before. */
  lemma PlaceAfter(l: seq<Flow>, front: seq<Flow>, id: string, cap: nat)
    requires cap >= 1 && Distinct(l) && |l| <= cap && Distinct(front) && id !in Ids(front)
    ensures var y, n := ApplyAll(l, front, true, cap), CountNew(l, front, 0, cap);
            && Distinct(y) && |y| <= cap && (Has(y, id) <==> StillListed(l, id, n, cap))
            && (Has(y, id) ==> Find(y, id) == Find(l, id) + n)
  {
    var y, n := ApplyAll(l, front, true, cap), CountNew(l, front, 0, cap);
    ApplyAllKeeps(l, front, true, cap);
    MovedOnAll(l, l, front, 0, {}, cap);
    assert {} + Ids(front) == Ids(front);
    MovedOnLists(l, y, n, Ids(front), id, cap);
    if StillListed(l, id, n, cap) { MovedOnFind(l, y, n, Ids(front), id, cap); }
  }

  /** The `j`-th flow of a batch, its place once it has come. */
  lemma PlaceToldBefore(l: seq<Flow>, batch: seq<Flow>, j: nat, cap: nat)
    requires cap >= 1 && Distinct(l) && |l| <= cap && Distinct(batch) && j < |batch|
    ensures var x := ApplyAll(l, batch[..j + 1], true, cap);
            && Distinct(x) && Find(x, batch[j].id) == PlaceThen(l, batch, j, cap)
            && Has(x, batch[j].id) && Find(x, batch[j].id) < cap
  {
    var front, f := batch[..j], batch[j];
    NotEarlier(batch, j);
    PlaceAfter(l, front, f.id, cap);
    assert batch[..j + 1] == front + [f];
    ApplyAllSnoc(l, front, f, true, cap);
    PlaceComing(ApplyAll(l, front, true, cap), f, cap);
  }

  lemma NotEarlier(batch: seq<Flow>, j: nat)
    requires Distinct(batch) && j < |batch|
    ensures batch[j].id !in Ids(batch[..j]) && Distinct(batch[..j])
  {}

  /** Where a flow is once its snapshot has come. */
  lemma PlaceComing(l: seq<Flow>, f: Flow, cap: nat)
    requires cap >= 1 && Distinct(l) && |l| <= cap
    ensures var x := Apply(l, f, true, cap);
            && Distinct(x) && Find(x, f.id) == (if Has(l, f.id) then Find(l, f.id) else 0) < |x| <= cap
  {
    ApplyKeeps(l, f, true, cap);
    if Has(l, f.id) { SameFind(l, Apply(l, f, true, cap), f.id); }
  }

  /** Kept or lost, by the count of new flows behind: every flow of a batch. */
  lemma KeptHeldIff(l: seq<Flow>, batch: seq<Flow>, j: nat, cap: nat)
    requires cap >= 1 && Distinct(l) && |l| <= cap && Distinct(batch) && j < |batch|
    ensures var x := ApplyAll(l, batch[..j + 1], true, cap);
            Has(ApplyAll(l, batch, true, cap), batch[j].id) <==>
            NewOnes(x, batch[j + 1..], cap) < cap - Find(x, batch[j].id)
  {
    PlaceToldBefore(l, batch, j, cap);
    assert batch == batch[..j + 1] + batch[j + 1..];
    ApplyAllConcat(l, batch[..j + 1], batch[j + 1..], true, cap);
    NotLater(batch, j);
    PushedOut(ApplyAll(l, batch[..j + 1], true, cap), batch[j + 1..], batch[j].id, cap);
  }

  /** How many new flows come behind the `j`-th of a batch, told from the list before. */
  lemma CountBehind(l: seq<Flow>, batch: seq<Flow>, j: nat, cap: nat)
    requires cap >= 1 && Distinct(l) && |l| <= cap && Distinct(batch) && j < |batch|
    ensures CountNew(l, batch[..j + 1], 0, cap) + NewOnes(ApplyAll(l, batch[..j + 1], true, cap), batch[j + 1..], cap)
         == CountNew(l, batch, 0, cap)
  {
    var front, rest := batch[..j + 1], batch[j + 1..];
    assert batch == front + rest;
    PartsApart(front, rest);
    MovedOnAll(l, l, front, 0, {}, cap);
    CountNewConcat(l, front, rest, 0, cap);
    CountFrom(l, ApplyAll(l, front, true, cap), rest, CountNew(l, front, 0, cap), {} + Ids(front), cap);
  }

  lemma KeptStaysIff(l: seq<Flow>, batch: seq<Flow>, j: nat, cap: nat)
    requires cap >= 1 && Distinct(l) && |l| <= cap && Distinct(batch) && j < |batch|
    ensures Has(ApplyAll(l, batch, true, cap), batch[j].id) <==> KeptStays(l, batch, j, cap)
  {
    KeptHeldIff(l, batch, j, cap);
    PlaceToldBefore(l, batch, j, cap);
    CountBehind(l, batch, j, cap);
  }

  lemma PartsApart(a: seq<Flow>, b: seq<Flow>)
    requires Distinct(a + b)
    ensures Distinct(a) && Distinct(b) && Ids(a) !! Ids(b)
  {
    var q := a + b;
    assert forall i :: 0 <= i < |a| ==> q[i] == a[i];
    assert forall i :: 0 <= i < |b| ==> q[|a| + i] == b[i];
  }

  lemma {:induction false} OtherStaysIff(l: seq<Flow>, batch: seq<Flow>, id: string, cap: nat)
    requires cap >= 1 && Distinct(l) && |l| <= cap && Distinct(batch) && id !in Ids(batch)
    ensures Has(ApplyAll(l, batch, true, cap), id) <==> OtherStays(l, batch, id, cap)
  {
    NewOnesToldBefore(l, batch, cap);
    if Has(l, id) { PushedOut(l, batch, id, cap); } else { StaysOut(l, batch, id, cap); }
  }

  /** A listed flow that no queued snapshot names is not lost by a drop. */
  lemma UntouchedStays(list: seq<Flow>, gone: seq<Flow>, kept: seq<Flow>, id: string, cap: nat)
    requires cap >= 1 && Distinct(list) && |list| <= cap && Distinct(gone + kept) && id !in Ids(gone + kept)
    ensures Has(ApplyAll(list, gone + kept, true, cap), id) ==> Has(ApplyAll(list, kept, true, cap), id)
  {
    PartsApart(gone, kept);
    IdsSplit(gone, kept);
    OtherStaysIff(list, gone + kept, id, cap);
    OtherStaysIff(list, kept, id, cap);
    CountNewConcat(list, gone, kept, 0, cap);
    CountNewMonotone(list, kept, 0, CountNew(list, gone, 0, cap), cap);
  }

  /**
   * Each flow of a drop, told before the kept ones come: `w` is the list the dropped ones
   * would have left, and `list` is the list without them.
   */
  lemma EachFlowIff(list: seq<Flow>, gone: seq<Flow>, kept: seq<Flow>, cap: nat)
    requires cap >= 1 && Distinct(list) && |list| <= cap && Distinct(gone + kept)
    ensures var w := ApplyAll(list, gone, true, cap);
            var direct, queued := ApplyAll(list, gone + kept, true, cap), ApplyAll(list, kept, true, cap);
            && (forall i :: 0 <= i < |gone| ==>
                  && (Has(direct, gone[i].id) <==> OtherStays(w, kept, gone[i].id, cap))
                  && (Has(queued, gone[i].id) <==> OtherStays(list, kept, gone[i].id, cap)))
            && (forall j :: 0 <= j < |kept| ==>
                  && (Has(direct, kept[j].id) <==> KeptStays(w, kept, j, cap))
                  && (Has(queued, kept[j].id) <==> KeptStays(list, kept, j, cap)))
  {
    var w := ApplyAll(list, gone, true, cap);
    PartsApart(gone, kept);
    ApplyAllKeeps(list, gone, true, cap);
    ApplyAllConcat(list, gone, kept, true, cap);
    forall i | 0 <= i < |gone|
      ensures Has(ApplyAll(w, kept, true, cap), gone[i].id) <==> OtherStays(w, kept, gone[i].id, cap)
      ensures Has(ApplyAll(list, kept, true, cap), gone[i].id) <==> OtherStays(list, kept, gone[i].id, cap)
    {
      assert gone[i].id in Ids(gone);
      OtherStaysIff(w, kept, gone[i].id, cap);
      OtherStaysIff(list, kept, gone[i].id, cap);
    }
    forall j | 0 <= j < |kept|
      ensures Has(ApplyAll(w, kept, true, cap), kept[j].id) <==> KeptStays(w, kept, j, cap)
      ensures Has(ApplyAll(list, kept, true, cap), kept[j].id) <==> KeptStays(list, kept, j, cap)
    {
      KeptStaysIff(w, kept, j, cap);
      KeptStaysIff(list, kept, j, cap);
    }
  }

  /** No kept flow is lost for want of the dropped ones before it. */
  predicate KeptStay(w: seq<Flow>, list: seq<Flow>, kept: seq<Flow>, cap: nat)
  {
    forall j :: 0 <= j < |kept| ==> KeptStays(w, kept, j, cap) ==> KeptStays(list, kept, j, cap)
  }

  /**
   * Exactly when a drop loses no flow the list would have kept: when each dropped flow it
   * would have kept is listed and stays without the drop's snapshot, and each kept flow
   * that would have stayed stays.
   */
  lemma DropLosesNoFlowIff(list: seq<Flow>, gone: seq<Flow>, kept: seq<Flow>, cap: nat)
    requires cap >= 1 && Distinct(list) && |list| <= cap && Distinct(gone + kept)
    ensures var w := ApplyAll(list, gone, true, cap);
            Ids(ApplyAll(list, gone + kept, true, cap)) <= Ids(ApplyAll(list, kept, true, cap)) <==>
            && KeptStay(w, list, kept, cap)
            && forall i :: 0 <= i < |gone| ==>
                 OtherStays(w, kept, gone[i].id, cap) ==> OtherStays(list, kept, gone[i].id, cap)
  {
    var w := ApplyAll(list, gone, true, cap);
    var direct, queued := ApplyAll(list, gone + kept, true, cap), ApplyAll(list, kept, true, cap);
    EachFlowIff(list, gone, kept, cap);
    forall id ensures (Has(direct, id) <==> id in Ids(direct)) && (Has(queued, id) <==> id in Ids(queued)) {
      HasIds(direct, id);
      HasIds(queued, id);
    }
    IdsSplit(gone, kept);
    forall id | id in Ids(direct) && id !in Ids(gone) && id !in Ids(kept) ensures id in Ids(queued) {
      UntouchedStays(list, gone, kept, id, cap);
    }
  }

  /**
   * Exactly when a drop loses nothing the list would have kept, neither a flow nor a
   * dropped snapshot: when as many of the kept flows are new to the list as it has places
   * from each dropped flow to the end, and no kept flow that would have stayed is lost.
   */
  lemma {:induction false} DropLosesNothingIff(list: seq<Flow>, gone: seq<Flow>, kept: seq<Flow>, cap: nat)
    requires cap >= 1 && Distinct(list) && |list| <= cap && Distinct(gone + kept)
    ensures var w := ApplyAll(list, gone, true, cap);
            var direct := ApplyAll(list, gone + kept, true, cap);
            (Ids(direct) <= Ids(ApplyAll(list, kept, true, cap)) && Ids(direct) !! Ids(gone)) <==>
            (KeptStay(w, list, kept, cap) && forall i :: 0 <= i < |gone| ==> !OtherStays(w, kept, gone[i].id, cap))
  {
    var direct := ApplyAll(list, gone + kept, true, cap);
    DropLosesNoFlowIff(list, gone, kept, cap);
    EachFlowIff(list, gone, kept, cap);
    forall id ensures Has(direct, id) <==> id in Ids(direct) { HasIds(direct, id); }
  }

  /* -------------------------- coalescing, counted ----------------------- */

  /**
   * When coalescing shows, counted: a newer snapshot takes the place of `older` in the
   * queue unseen if and only if the snapshots queued behind it bring fewer new flows than
   * the list has places from that flow to its end.
   */
  lemma CoalesceExactByCount(list: seq<Flow>, a: seq<Flow>, older: Flow, b: seq<Flow>, f: Flow, cap: nat)
    requires cap >= 1 && Distinct(list) && |list| <= cap && older.id == f.id
    requires Distinct(a + [older] + b)
    ensures var q, w := a + [older] + b, ApplyAll(list, a + [older], true, cap);
            ApplyAll(list, Upsert(q, f), true, cap) == ApplyAll(list, q + [f], true, cap) <==>
            NewOnes(w, b, cap) < cap - Find(w, f.id)
  {
    var q, w := a + [older] + b, ApplyAll(list, a + [older], true, cap);
    QueuedAt(a, older, b);
    CoalesceExact(list, q, f, true, cap);
    ApplyAllConcat(list, a + [older], b, true, cap);
    ApplyAllKeeps(list, a + [older], true, cap);
    ApplyAllSnoc(list, a, older, true, cap);
    ApplyAllKeeps(list, a, true, cap);
    ApplyKeeps(ApplyAll(list, a, true, cap), older, true, cap);
    HasIds(w, f.id);
    PushedOut(w, b, f.id, cap);
  }

  lemma QueuedAt(a: seq<Flow>, older: Flow, b: seq<Flow>)
    requires Distinct(a + [older] + b)
    ensures Has(a + [older] + b, older.id) && older.id !in Ids(b)
  {
    var q := a + [older] + b;
    assert q[|a|] == older && forall k :: 0 <= k < |b| ==> q[|a| + 1 + k] == b[k];
  }

  /** Each snapshot of a batch is coalesced unseen at its turn. */
  predicate NothingHidden(list: seq<Flow>, q: seq<Flow>, batch: seq<Flow>, cap: nat)
    requires cap >= 1
    decreases |batch|
  {
    batch == [] ||
    ((Has(q, batch[0].id) ==> Has(ApplyAll(list, q, true, cap), batch[0].id))
     && NothingHidden(list, Upsert(q, batch[0]), batch[1..], cap))
  }

  /** Then so is the batch. */
  lemma {:induction false} CoalesceBatch(list: seq<Flow>, q: seq<Flow>, batch: seq<Flow>, cap: nat)
    requires cap >= 1 && Distinct(list) && Distinct(q) && NothingHidden(list, q, batch, cap)
    ensures ApplyAll(list, UpsertAll(q, batch), true, cap) == ApplyAll(list, q + batch, true, cap)
    decreases |batch|
  {
    if batch == [] {
      assert q + batch == q;
    } else {
      var f, rest := batch[0], batch[1..];
      UpsertKeeps(q, f);
      CoalesceBatch(list, Upsert(q, f), rest, cap);
      CoalesceExact(list, q, f, true, cap);
      ApplyAllSwap(list, Upsert(q, f), q + [f], rest, true, cap);
      HeadJoins(q, batch);
    }
  }

  /** New flows come to stand first in the list, the newest in front. */
  lemma {:induction false} AllNewReverses(list: seq<Flow>, batch: seq<Flow>, cap: nat)
    requires cap >= 1 && |list| <= cap && |batch| <= cap
    requires Distinct(list) && Distinct(batch) && Ids(batch) !! Ids(list)
    ensures ApplyAll(list, batch, true, cap) == Reverse(batch) + Standing(list, |batch|, cap)
    decreases |batch|
  {
    if batch == [] {
      assert Reverse(batch) + Standing(list, 0, cap) == list;
    } else {
      var f, rest := batch[0], batch[1..];
      IdsHead(batch);
      HasIds(list, f.id);
      ApplyKeeps(list, f, true, cap);
      NotLater(batch, 0);
      AllNewReverses(Prepend(list, f, cap), rest, cap);
      StandingPrepend(list, f, |rest|, cap);
      SeqShift(Reverse(rest), f, Standing(list, |batch|, cap));
    }
  }

  lemma StandingPrepend(list: seq<Flow>, f: Flow, i: nat, cap: nat)
    requires cap >= 1 && |list| <= cap && i + 1 <= cap
    ensures Standing(Prepend(list, f, cap), i, cap) == [f] + Standing(list, i + 1, cap)
  {}

  lemma SeqShift(a: seq<Flow>, f: Flow, b: seq<Flow>)
    ensures a + ([f] + b) == a + [f] + b
  {}

  /**
   * The comment's case: when no kept flow is listed, dropping the older part of the
   * queue changes nothing at all, and the list ends up as the kept flows, newest first.
   */
  lemma DropInvisibleForNewFlows(list: seq<Flow>, older: seq<Flow>, kept: seq<Flow>, cap: nat)
    requires cap >= 1 && Distinct(list) && |list| <= cap
    requires |kept| == cap && Distinct(kept)
    requires Ids(kept) !! Ids(list) && Ids(kept) !! Ids(older)
    ensures ApplyAll(list, older + kept, true, cap) == ApplyAll(list, kept, true, cap) == Reverse(kept)
  {
    ApplyAllConcat(list, older, kept, true, cap);
    var w := ApplyAll(list, older, true, cap);
    ApplyAllKeeps(list, older, true, cap);
    AllNewReverses(w, kept, cap);
    AllNewReverses(list, kept, cap);
    assert Reverse(kept) + [] == Reverse(kept);
  }

  /* ---------------------------- pushing a message ----------------------- */

  /** The queued flows that a push drops. */
  function DroppedBy(q: Q.Queue, batch: StreamBatch, caps: Q.Caps): seq<Flow>
  {
    var all := UpsertAll(q.flows, batch.flows);
    if |all| <= caps.flows then [] else all[..|all| - caps.flows]
  }

  lemma PushSplits(q: Q.Queue, batch: StreamBatch, caps: Q.Caps)
    requires Distinct(q.flows)
    ensures UpsertAll(q.flows, batch.flows) == DroppedBy(q, batch, caps) + Q.Push(q, batch, caps).flows
    ensures Distinct(DroppedBy(q, batch, caps) + Q.Push(q, batch, caps).flows)
  {
    UpsertAllKeeps(q.flows, batch.flows);
    var all, kept := UpsertAll(q.flows, batch.flows), Q.Push(q, batch, caps).flows;
    Q.NewestDropsOldest(all, caps.flows);
    var gone: seq<Flow> :| all == gone + kept;
    assert DroppedBy(q, batch, caps) == gone;
  }

  /**
   * What a push costs the list: it loses neither a flow nor a dropped snapshot that it
   * would have kept, had the push dropped nothing, exactly under the condition above.
   */
  lemma PushLosesNothingIff(list: seq<Flow>, q: Q.Queue, batch: StreamBatch, caps: Q.Caps)
    requires caps.flows >= 1 && Distinct(list) && |list| <= caps.flows && Distinct(q.flows)
    ensures var gone, kept := DroppedBy(q, batch, caps), Q.Push(q, batch, caps).flows;
            var w := ApplyAll(list, gone, true, caps.flows);
            var direct := ApplyAll(list, UpsertAll(q.flows, batch.flows), true, caps.flows);
            (Ids(direct) <= Ids(ApplyAll(list, kept, true, caps.flows)) && Ids(direct) !! Ids(gone)) <==>
            (KeptStay(w, list, kept, caps.flows)
             && forall i :: 0 <= i < |gone| ==> !OtherStays(w, kept, gone[i].id, caps.flows))
  {
    PushSplits(q, batch, caps);
    DropLosesNothingIff(list, DroppedBy(q, batch, caps), Q.Push(q, batch, caps).flows, caps.flows);
  }

  /** A push that fills the queue with new flows only: the list ends up as the queue, newest first. */
  lemma PushInvisibleForNewFlows(list: seq<Flow>, q: Q.Queue, batch: StreamBatch, caps: Q.Caps)
    requires caps.flows >= 1 && Distinct(list) && |list| <= caps.flows && Distinct(q.flows)
    requires |UpsertAll(q.flows, batch.flows)| >= caps.flows && Ids(Q.Push(q, batch, caps).flows) !! Ids(list)
    ensures var all, kept := UpsertAll(q.flows, batch.flows), Q.Push(q, batch, caps).flows;
            ApplyAll(list, all, true, caps.flows) == ApplyAll(list, kept, true, caps.flows) == Reverse(kept)
  {
    var gone, kept := DroppedBy(q, batch, caps), Q.Push(q, batch, caps).flows;
    PushSplits(q, batch, caps);
    PartsApart(gone, kept);
    DropInvisibleForNewFlows(list, gone, kept, caps.flows);
  }

  function Sample(id: string, state: FlowState): Flow
  {
    Flow(id, 1, "GET", "https", "example.com", "/", "https://example.com/", None, state, [], None, None, "")
  }

  /**
   * The comment is too strong: with a cap of two and `a` listed, the queue drops `p` to
   * make room for an update of `a` and a new `b`, but the list would have kept `p`.
   */
  lemma DroppedFlowWouldHaveBeenKept()
    ensures var a, done := Sample("a", Started), Sample("a", Completed);
            var p, b := Sample("p", Started), Sample("b", Started);
            && ApplyAll([a], [p, done, b], true, 2) == [b, p]
            && ApplyAll([a], [done, b], true, 2) == [b, done]
  {
    var a, done, p, b := Sample("a", Started), Sample("a", Completed), Sample("p", Started), Sample("b", Started);
    assert "a"[0] != "p"[0] && "a"[0] != "b"[0] && "p"[0] != "b"[0];
    assert Apply([a], p, true, 2) == [p, a];
    assert Find([p, a], "a") == 1;
    assert Apply([p, a], done, true, 2) == [p, done];
    assert Find([p, done], "b") == 2;
    assert Apply([p, done], b, true, 2) == [b, p];
    ApplyThree([a], p, done, b, 2);
    assert Apply([a], done, true, 2) == [done];
    assert Apply([done], b, true, 2) == [b, done];
    ApplyTwo([a], done, b, 2);
  }

  /**
   * Nor is it only whole flows that are lost: with a cap of three, an update of `x` is
   * dropped for updates of `y` and `z` and a new `b`, and the list keeps `x` as it was.
   */
  lemma DroppedUpdateStaysStale()
    ensures var x, y, z := Sample("x", Started), Sample("y", Started), Sample("z", Started);
            var x2, y2, z2 := Sample("x", Completed), Sample("y", Completed), Sample("z", Completed);
            var b := Sample("b", Started);
            && ApplyAll([y, x, z], [x2, y2, z2, b], true, 3) == [b, y2, x2]
            && ApplyAll([y, x, z], [y2, z2, b], true, 3) == [b, y2, x]
  {
    var x, y, z := Sample("x", Started), Sample("y", Started), Sample("z", Started);
    var x2, y2, z2, b := Sample("x", Completed), Sample("y", Completed), Sample("z", Completed), Sample("b", Started);
    assert "x"[0] != "y"[0] && "x"[0] != "z"[0] && "y"[0] != "z"[0];
    assert "b"[0] != "x"[0] && "b"[0] != "y"[0] && "b"[0] != "z"[0];
    assert Find([y, x, z], "x") == 1;
    assert Apply([y, x, z], x2, true, 3) == [y, x2, z];
    LastThree(x2, y, z, y2, z2, b);
    LastThree(x, y, z, y2, z2, b);
    assert [x2, y2, z2, b] == [x2] + [y2, z2, b];
    ApplyAllConcat([y, x, z], [x2], [y2, z2, b], true, 3);
    ApplyAllSnoc([y, x, z], [], x2, true, 3);
    assert [] + [x2] == [x2];
  }

  /**
   * Nor only what was dropped: with a cap of two, dropping a new `p`, which the list would
   * have lost anyway, makes it lose `b`, whose update was kept, and hold on to `a`.
   */
  lemma DropLosesKeptFlow()
    ensures var a, b, p := Sample("a", Started), Sample("b", Started), Sample("p", Started);
            var b2, c := Sample("b", Completed), Sample("c", Started);
            && ApplyAll([a, b], [p, b2, c], true, 2) == [c, b2]
            && ApplyAll([a, b], [b2, c], true, 2) == [c, a]
  {
    var a, b, p := Sample("a", Started), Sample("b", Started), Sample("p", Started);
    var b2, c := Sample("b", Completed), Sample("c", Started);
    assert "a"[0] != "b"[0] && "a"[0] != "p"[0] && "b"[0] != "p"[0] && "c"[0] != "a"[0] && "c"[0] != "b"[0];
    assert Apply([a, b], p, true, 2) == [p, a];
    assert Apply([p, a], b2, true, 2) == [b2, p];
    assert Apply([b2, p], c, true, 2) == [c, b2];
    ApplyThree([a, b], p, b2, c, 2);
    assert [a, b][0].id != b2.id && [a, b][1].id == b2.id;
    assert Apply([a, b], b2, true, 2) == [a, b2];
    assert Apply([a, b2], c, true, 2) == [c, a];
    ApplyTwo([a, b], b2, c, 2);
  }

  /** Two updates, and a new flow that pushes the last one out. */
  lemma LastThree(x: Flow, y: Flow, z: Flow, y2: Flow, z2: Flow, b: Flow)
    requires x.id != y.id && x.id != z.id && y.id != z.id && b.id != x.id && b.id != y.id && b.id != z.id
    requires y2.id == y.id && z2.id == z.id
    ensures ApplyAll([y, x, z], [y2, z2, b], true, 3) == [b, y2, x]
  {
    assert Find([y, x, z], y.id) == 0;
    assert Apply([y, x, z], y2, true, 3) == [y2, x, z];
    assert [y2, x, z][0].id != z.id && [y2, x, z][1].id != z.id && [y2, x, z][2].id == z.id;
    assert Apply([y2, x, z], z2, true, 3) == [y2, x, z2];
    assert !Has([y2, x, z2], b.id);
    assert Apply([y2, x, z2], b, true, 3) == [b, y2, x];
    ApplyThree([y, x, z], y2, z2, b, 3);
  }

  /**
   * Coalescing shows when a flow is evicted and sent again inside one batch: with room
   * for one flow, `a`, `b`, then `a` again leaves `a` listed, but the queue holds the
   * newer `a` in the place of the older, before `b`.
   */
  lemma CoalescingShowsAfterEviction()
    ensures var a, b, done := Sample("a", Started), Sample("b", Started), Sample("a", Completed);
            && ApplyAll([], [a, b, done], true, 1) == [done]
            && ApplyAll([], UpsertAll([], [a, b, done]), true, 1) == [b]
  {
    var a, b, done := Sample("a", Started), Sample("b", Started), Sample("a", Completed);
    assert "a"[0] != "b"[0];
    assert Apply([], a, true, 1) == [a];
    assert Apply([a], b, true, 1) == [b];
    assert Apply([b], done, true, 1) == [done];
    ApplyThree([], a, b, done, 1);
    assert Upsert([], a) == [a];
    assert Upsert([a], b) == [a, b];
    assert Upsert([a, b], done) == [done, b];
    assert UpsertAll([], [a, b, done]) == [done, b] by {
      assert [a, b, done][1..] == [b, done] && [b, done][1..] == [done] && [done][1..] == [];
      assert UpsertAll([a, b], [done]) == UpsertAll([done, b], []);
      assert UpsertAll([a], [b, done]) == UpsertAll([a, b], [done]);
    }
    assert Apply([], done, true, 1) == [done];
    assert Apply([done], b, true, 1) == [b];
    ApplyTwo([], done, b, 1);
  }

  lemma ApplyTwo(list: seq<Flow>, x: Flow, y: Flow, cap: nat)
    requires cap >= 1
    ensures ApplyAll(list, [x, y], true, cap) == Apply(Apply(list, x, true, cap), y, true, cap)
  {
    assert [x, y] == [x] + [y];
    ApplyAllSnoc(list, [x], y, true, cap);
    ApplyAllSnoc(list, [], x, true, cap);
    assert [] + [x] == [x];
  }

  lemma ApplyThree(list: seq<Flow>, x: Flow, y: Flow, z: Flow, cap: nat)
    requires cap >= 1
    ensures ApplyAll(list, [x, y, z], true, cap) == Apply(Apply(Apply(list, x, true, cap), y, true, cap), z, true, cap)
  {
    assert [x, y, z] == [x, y] + [z];
    ApplyAllSnoc(list, [x, y], z, true, cap);
    ApplyTwo(list, x, y, cap);
  }
}
