/**
 * One body captured chunk by chunk (crates/nova-core/src/bodystore.rs): a preview in
 * memory, and from the chunk that outgrows the preview on, a file that holds it all.
 */
module BodyCapture {
  import opened Wrappers
  import opened BodyStore

  /** Which of a push's file operations work: opening, writing the preview, the rest. */
  datatype Io = Io(create: bool, header: bool, tail: bool)

  const ALL_WELL := Io(true, true, true)

  datatype Captured = Captured(inline: seq<Byte>, total: nat, truncated: bool, spilled: bool)

  function Prefix(b: seq<Byte>, n: nat): seq<Byte> { b[..Min(n, |b|)] }

  /** What the spill file of a body holds: the preview is written whatever its length. */
  function Mirror(body: seq<Byte>, inlineCap: nat, perBodyCap: nat): seq<Byte>
  {
    Prefix(body, Max(inlineCap, perBodyCap))
  }

  /**
   * The file keeps to the per-body cap, as documented, exactly when the preview
   * cap is no larger than the per-body cap.
   */
  lemma MirrorIsCappedIff(body: seq<Byte>, inlineCap: nat, perBodyCap: nat)
    requires |body| > inlineCap
    ensures Mirror(body, inlineCap, perBodyCap) == Prefix(body, perBodyCap) <==> inlineCap <= perBodyCap
  {
    if inlineCap > perBodyCap {
      assert |Prefix(body, perBodyCap)| == perBodyCap < |Mirror(body, inlineCap, perBodyCap)|;
    }
  }

  /** `content` with as much of the chunk as the per-body cap leaves room for. */
  function Extended(content: seq<Byte>, chunk: seq<Byte>, perBodyCap: nat): seq<Byte>
  {
    if |content| >= perBodyCap then content else content + Prefix(chunk, perBodyCap - |content|)
  }

  /** Mirroring a longer body appends the part of the new chunk there is room for. */
  lemma MirrorGrows(body: seq<Byte>, chunk: seq<Byte>, inlineCap: nat, perBodyCap: nat)
    requires |body| > inlineCap
    ensures Mirror(body + chunk, inlineCap, perBodyCap)
         == Extended(Mirror(body, inlineCap, perBodyCap), chunk, perBodyCap)
  {}

  /** The first mirror: the preview, then the part of the chunk that is not in it. */
  lemma MirrorStarts(body: seq<Byte>, chunk: seq<Byte>, inlineCap: nat, perBodyCap: nat)
    requires |body| <= inlineCap < |body + chunk|
    ensures Prefix(body, inlineCap) + chunk[..inlineCap - |body|] == Prefix(body + chunk, inlineCap)
    ensures Mirror(body + chunk, inlineCap, perBodyCap)
         == Extended(Prefix(body + chunk, inlineCap), chunk[inlineCap - |body|..], perBodyCap)
  {}

  class BodyCapture {
    const store: BodyStore
    var path: Option<string>
    var file: bool
    var written: nat
    var inline: seq<Byte>
    var total: nat
    var truncated: bool
    /** Everything pushed so far. */
    ghost var body: seq<Byte>

    ghost predicate Valid()
      reads this, store
    {
      Previews() && Mirrors(body) && (store.dir.None? ==> path.None?)
    }

    /** The preview, length and truncation flag are the body's. */
    ghost predicate Previews()
      reads this
    {
      && inline == Prefix(body, store.inlineCap) && total == |body|
      && (truncated <==> |body| > store.inlineCap)
    }

    /** The file, if one is open, mirrors `b`. */
    ghost predicate Mirrors(b: seq<Byte>)
      reads this, store
    {
      file ==>
        && path.Some? && store.Spills() && |b| > store.inlineCap
        && path.value in store.disk
        && store.disk[path.value] == Mirror(b, store.inlineCap, store.perBodyCap)
        && written == |store.disk[path.value]|
    }

    /** The body outgrew its preview, but no file was opened and none was given up on. */
    ghost predicate Stuck()
      reads this, store
    {
      path.Some? && !file && store.Spills() && |body| > store.inlineCap
    }

    constructor (store: BodyStore, id: string, side: Side)
      ensures Valid() && body == [] && !Stuck() && this.store == store && path == store.PathFor(id, side)
    {
      this.store, path := store, store.PathFor(id, side);
      file, written, inline, total, truncated, body := false, 0, [], 0, false, [];
    }

    /**
     * Take in one chunk. Whatever fails, the preview, length and truncation flag are
     * right, and the file, while one is open, mirrors the body. The subtraction that
     * finds the part of the chunk not yet in the preview underflows exactly when an
     * earlier push opened the file but could not write the preview, and this one can.
     */
    method Push(chunk: seq<Byte>, io: Io) returns (underflow: bool)
      requires Valid()
      modifies this, store`disk
      ensures underflow <==> old(Stuck()) && io.create && io.header
      ensures !underflow ==>
        (Stuck() <==> old(path).Some? && !old(file) && store.Spills() && |body| > store.inlineCap
                      && io.create && !io.header)
      ensures !underflow ==> Valid() && body == old(body) + chunk
      ensures !underflow && io == ALL_WELL ==> !Stuck() && path == old(path)
      ensures !underflow && io == ALL_WELL && path.Some? && store.Spills() ==> (file <==> |body| > store.inlineCap)
    {
      ghost var before := body;
      Preview(chunk);
      underflow := false;
      if !store.Spills() { return; }
      if !file && total > store.inlineCap {
        if path.None? { return; }
        underflow := OpenFile(chunk, io, before);
        return;
      }
      if file {
        MirrorGrows(before, chunk, store.inlineCap, store.perBodyCap);
        Write(chunk, io.tail);
      }
    }

    /** The in-memory half of a push. */
    method Preview(chunk: seq<Byte>)
      requires Previews()
      modifies this`total, this`inline, this`truncated, this`body
      ensures Previews() && body == old(body) + chunk
    {
      total := total + |chunk|;
      if |inline| < store.inlineCap {
        var take := Min(store.inlineCap - |inline|, |chunk|);
        inline := inline + chunk[..take];
      }
      if total > |inline| { truncated := true; }
      body := body + chunk;
    }

    /** The body outgrew its preview: open the file and mirror all of it so far. */
    method OpenFile(chunk: seq<Byte>, io: Io, ghost before: seq<Byte>) returns (underflow: bool)
      requires Previews() && !file && path.Some? && store.Spills()
      requires body == before + chunk && |body| > store.inlineCap
      modifies this`path, this`file, this`written, store`disk
      ensures underflow <==> |before| > store.inlineCap && io.create && io.header
      ensures !underflow ==> Mirrors(body)
      ensures !underflow ==> (path.Some? && !file <==> io.create && !io.header)
      ensures !underflow && io == ALL_WELL ==> file && path == old(path)
    {
      underflow := false;
      if !io.create {
        path := None;
        return;
      }
      store.disk := store.disk[path.value := []];
      if !io.header { return; }
      store.disk := store.disk[path.value := inline];
      written, file := |inline|, true;
      if total - |inline| > |chunk| { return true; }
      var inlined := |chunk| - (total - |inline|);
      MirrorStarts(before, chunk, store.inlineCap, store.perBodyCap);
      Write(chunk[inlined..], io.tail);
    }

    /** Extends the file by what the per-body cap leaves room for, or gives the file up. */
    method Write(chunk: seq<Byte>, works: bool)
      requires file && path.Some? && path.value in store.disk && written == |store.disk[path.value]|
      modifies this`file, this`path, this`written, store`disk
      ensures if works || old(written) >= store.perBodyCap
              then file && path == old(path) && store.disk.Keys == old(store.disk).Keys
              else !file && path.None? && store.disk == old(store.disk)
      ensures file ==> store.disk[path.value] == Extended(old(store.disk[path.value]), chunk, store.perBodyCap)
      ensures file ==> written == |store.disk[path.value]|
    {
      if written >= store.perBodyCap { return; }
      var room := store.perBodyCap - written;
      var slice := chunk[..Min(room, |chunk|)];
      if !works {
        file, path := false, None;
        return;
      }
      store.disk := store.disk[path.value := store.disk[path.value] + slice];
      written := written + |slice|;
    }

    /** Finish the body: register its file, if one is open, and report what was kept. */
    method Finish(flushes: bool) returns (c: Captured)
      requires Valid() && store.Valid() && (file ==> store.used + written <= U64_MAX)
      modifies this, store
      ensures store.Valid()
      ensures c == Captured(Prefix(old(body), store.inlineCap), |old(body)|, |old(body)| > store.inlineCap,
                            old(file) && flushes)
      ensures c.spilled ==>
        var all := old(store.files) + [Spill(old(path).value, old(written))];
        var k := Overdue(all, store.diskBudget);
        store.files == all[k..] && store.disk == old(store.disk) - Paths(all[..k])
      ensures !c.spilled ==> store.files == old(store.files) && store.disk == old(store.disk)
    {
      var spilled := false;
      if file {
        file := false;
        if flushes {
          store.Register(path.value, written);
          spilled := true;
        }
      }
      c := Captured(inline, total, truncated, spilled);
    }
  }

  function Concat(chunks: seq<seq<Byte>>): seq<Byte>
  {
    if chunks == [] then [] else chunks[0] + Concat(chunks[1..])
  }

  /** The file just registered is still there exactly when it fits the budget. */
  lemma RegisteredStays(files: seq<Spill>, path: string, len: nat, budget: nat)
    requires path !in Paths(files)
    ensures var all := files + [Spill(path, len)];
            path in Paths(all[..Overdue(all, budget)]) <==> len > budget
  {
    var newest := Spill(path, len);
    var all := files + [newest];
    var k := Overdue(all, budget);
    NewestSurvives(files, newest, budget);
    if k <= |files| {
      assert all[..k] == files[..k];
      forall i | 0 <= i < k ensures files[..k][i].path != path { assert files[i].path in Paths(files); }
    } else {
      assert all[..k][|files|].path == path;
    }
  }

  /**
   * Capturing depends on the body alone, not on how it was cut into chunks: the preview
   * is its first bytes, length and truncation are its own, and its file, if it outgrew
   * the preview and fits the budget, is its mirror.
   */
  method CaptureAll(store: BodyStore, id: string, side: Side, chunks: seq<seq<Byte>>) returns (c: Captured)
    requires store.Valid()
    requires store.used + Max(store.inlineCap, store.perBodyCap) <= U64_MAX
    requires store.dir.Some? ==> PathIn(store.dir.value, id, side) !in Paths(store.files)
    modifies store
    ensures store.Valid()
    ensures var body := Concat(chunks);
            c == Captured(Prefix(body, store.inlineCap), |body|, |body| > store.inlineCap,
                          store.Spills() && |body| > store.inlineCap)
    ensures c.spilled <==> store.dir.Some? && store.perBodyCap > 0 && store.diskBudget > 0 && c.truncated
    ensures c.spilled ==>
      var mirror := Mirror(Concat(chunks), store.inlineCap, store.perBodyCap);
      store.FileOf(id, side) == if |mirror| <= store.diskBudget then Some(mirror) else None
  {
    var capture := new BodyCapture(store, id, side);
    for i := 0 to |chunks|
      invariant capture.Valid() && !capture.Stuck() && fresh(capture) && capture.store == store
      invariant capture.path == store.PathFor(id, side)
      invariant store.Valid() && store.files == old(store.files) && store.used == old(store.used)
      invariant capture.body + Concat(chunks[i..]) == Concat(chunks)
      invariant store.Spills() ==> (capture.file <==> |capture.body| > store.inlineCap)
    {
      assert chunks[i..][1..] == chunks[i + 1..];
      assert capture.body + (chunks[i] + Concat(chunks[i + 1..])) == capture.body + chunks[i] + Concat(chunks[i + 1..]);
      var underflow := capture.Push(chunks[i], ALL_WELL);
      assert !underflow;
    }
    assert capture.body == Concat(chunks);
    if capture.file { RegisteredStays(store.files, capture.path.value, capture.written, store.diskBudget); }
    c := capture.Finish(true);
  }

  /**
   * Capturing a body and reading it back: a spilled body that fits the budget is read as
   * the first bytes of its mirror, with the mirror's length, cut exactly when that is
   * longer than what was asked for.
   */
  method CaptureThenRead(store: BodyStore, id: string, side: Side, chunks: seq<seq<Byte>>, max: nat) returns (r: Read)
    requires store.Valid()
    requires store.used + Max(store.inlineCap, store.perBodyCap) <= U64_MAX
    requires store.dir.Some? ==> PathIn(store.dir.value, id, side) !in Paths(store.files)
    modifies store
    ensures var body := Concat(chunks);
            var mirror := Mirror(body, store.inlineCap, store.perBodyCap);
            store.Spills() && |body| > store.inlineCap ==>
              r == if |mirror| <= store.diskBudget then Body(Prefix(mirror, max), |mirror|, |mirror| > max) else NoBody
  {
    var c := CaptureAll(store, id, side, chunks);
    r := store.ReadBody(id, side, max);
  }

  /**
   * Two pushes that underflow: one outgrows the preview and opens the file but cannot
   * write the preview to it; the next opens it again and takes its own chunk for one that
   * is partly in the preview.
   */
  method FailedHeaderUnderflows(store: BodyStore, id: string, side: Side, chunk: seq<Byte>) returns (underflow: bool)
    requires store.Spills() && |chunk| > store.inlineCap
    modifies store
    ensures underflow
  {
    var capture := new BodyCapture(store, id, side);
    var first := capture.Push(chunk, Io(true, false, true));
    underflow := capture.Push([], ALL_WELL);
  }
}
