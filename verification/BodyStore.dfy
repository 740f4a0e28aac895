/** Captured bodies: a preview in memory, the rest on disk (crates/nova-core/src/bodystore.rs). */
module BodyStore {
  import opened Wrappers
  import opened Decimals

  type Byte = b: int | 0 <= b < 256

  datatype Side = Request | Response

  const U64_MAX: nat := 0xFFFF_FFFF_FFFF_FFFF

  function Min(a: nat, b: nat): nat { if a < b then a else b }

  function SatSub(a: nat, b: nat): nat { if a < b then 0 else a - b }

  function Max(a: nat, b: nat): nat { if a < b then b else a }

  /* -------------------------------- paths ------------------------------- */

  function SideTag(side: Side): string
  {
    match side case Request => "req" case Response => "res"
  }

  predicate SafeChar(c: char)
  {
    '0' <= c <= '9' || 'a' <= c <= 'z' || 'A' <= c <= 'Z' || c == '-' || c == '_'
  }

  function Sanitize(id: string): (r: string)
    ensures |r| == |id| && forall i :: 0 <= i < |r| ==> SafeChar(r[i])
  {
    seq(|id|, i requires 0 <= i < |id| => if SafeChar(id[i]) then id[i] else '_')
  }

  function FileName(id: string, side: Side): string
  {
    Sanitize(id) + "-" + SideTag(side) + ".bin"
  }

  function PathIn(dir: string, id: string, side: Side): string
  {
    dir + "/" + FileName(id, side)
  }

  /** No id, of whatever scheme, names a file outside the bodies directory. */
  lemma FileStaysInDirectory(id: string, side: Side)
    ensures '/' !in FileName(id, side) && '\\' !in FileName(id, side) && FileName(id, side) != ".."
  {
    var tag := SideTag(side);
    assert forall i :: 0 <= i < |tag| ==> SafeChar(tag[i]);
  }

  /** An id names its file as it is exactly when every character of it is safe. */
  lemma SanitizeKeepsIff(id: string)
    ensures Sanitize(id) == id <==> forall i :: 0 <= i < |id| ==> SafeChar(id[i])
  {
    if Sanitize(id) == id {
      forall i | 0 <= i < |id| ensures SafeChar(id[i]) { assert Sanitize(id)[i] == id[i]; }
    }
  }

  /** The engine numbers its flows `f0`, `f1`, ...; no two of their bodies share a file. */
  lemma EngineFilesDistinct(dir: string, n: nat, side: Side, n': nat, side': Side)
    ensures var id, id' := "f" + Decimal(n), "f" + Decimal(n');
            PathIn(dir, id, side) == PathIn(dir, id', side') ==> n == n' && side == side'
  {
    var id, id' := "f" + Decimal(n), "f" + Decimal(n');
    SanitizeKeepsIff(id);
    SanitizeKeepsIff(id');
    if PathIn(dir, id, side) == PathIn(dir, id', side') {
      PathsDistinct(dir, id, side, id', side');
      assert id[1..] == Decimal(n) && id'[1..] == Decimal(n');
      ValueOfDecimal(n);
      ValueOfDecimal(n');
    }
  }

  /** Ids that need no sanitizing never share a file, nor do the two sides of one. */
  lemma PathsDistinct(dir: string, id: string, side: Side, id': string, side': Side)
    requires Sanitize(id) == id && Sanitize(id') == id'
    requires PathIn(dir, id, side) == PathIn(dir, id', side')
    ensures id == id' && side == side'
  {
    var p, q := PathIn(dir, id, side), PathIn(dir, id', side');
    var d := |dir| + 1;
    assert |id| == |id'|;
    assert p[d..d + |id|] == id && q[d..d + |id|] == id';
    assert p[d + |id| + 3] == SideTag(side)[2] && q[d + |id| + 3] == SideTag(side')[2];
  }

  /* ------------------------------ the budget ---------------------------- */

  datatype Spill = Spill(path: string, size: nat)

  function Sizes(files: seq<Spill>): nat
  {
    if files == [] then 0 else files[0].size + Sizes(files[1..])
  }

  lemma {:induction false} SizesConcat(a: seq<Spill>, b: seq<Spill>)
    ensures Sizes(a + b) == Sizes(a) + Sizes(b)
  {
    if a == [] {
      assert a + b == b;
    } else {
      assert (a + b)[1..] == a[1..] + b;
      SizesConcat(a[1..], b);
    }
  }

  /** How many of the oldest files go until the rest fits. */
  function Overdue(files: seq<Spill>, budget: nat): (k: nat)
    ensures k <= |files|
  {
    if Sizes(files) > budget && files != [] then 1 + Overdue(files[1..], budget) else 0
  }

  /** What is left is the longest suffix in write order that fits. */
  lemma {:induction false} OverdueIsLeast(files: seq<Spill>, budget: nat)
    ensures var k := Overdue(files, budget);
            && Sizes(files[k..]) <= budget
            && forall j :: 0 <= j < k ==> Sizes(files[j..]) > budget
  {
    if Sizes(files) > budget && files != [] {
      var k := Overdue(files[1..], budget);
      OverdueIsLeast(files[1..], budget);
      assert files[1..][k..] == files[k + 1..];
      forall j | 0 <= j < k + 1 ensures Sizes(files[j..]) > budget {
        if j == 0 { assert files[0..] == files; } else { assert files[1..][j - 1..] == files[j..]; }
      }
    }
  }

  /** A file that fits on its own survives its own registration. */
  lemma NewestSurvives(files: seq<Spill>, newest: Spill, budget: nat)
    ensures Overdue(files + [newest], budget) <= |files| <==> newest.size <= budget
  {
    var all, k := files + [newest], Overdue(files + [newest], budget);
    OverdueIsLeast(all, budget);
    assert [newest][1..] == [];
    if k <= |files| {
      assert all[k..] == files[k..] + [newest];
      SizesConcat(files[k..], [newest]);
    } else {
      assert all[|files|..] == [newest];
      assert Sizes(all[|files|..]) > budget;
    }
  }

  function Paths(files: seq<Spill>): set<string>
  {
    set i | 0 <= i < |files| :: files[i].path
  }

  /** The files a flow's removal leaves. */
  function Without(files: seq<Spill>, paths: set<string>): seq<Spill>
  {
    if files == [] then []
    else if files[0].path in paths then Without(files[1..], paths)
    else [files[0]] + Without(files[1..], paths)
  }

  lemma {:induction false} WithoutSizes(files: seq<Spill>, paths: set<string>)
    ensures Sizes(Without(files, paths)) <= Sizes(files)
    ensures Paths(Without(files, paths)) !! paths
  {
    if files != [] {
      WithoutSizes(files[1..], paths);
      var r := Without(files, paths);
      if files[0].path !in paths {
        assert r[1..] == Without(files[1..], paths);
        forall i | 0 <= i < |r| ensures r[i].path !in paths {
          if i > 0 { assert r[i].path in Paths(r[1..]) by { assert r[1..][i - 1] == r[i]; } }
        }
      }
    }
  }

  /** Exactly the files outside `paths` stay, each as often and in the order it was. */
  lemma {:induction false} WithoutConcat(a: seq<Spill>, b: seq<Spill>, paths: set<string>)
    ensures Without(a + b, paths) == Without(a, paths) + Without(b, paths)
    ensures |a| == 1 ==> Without(a, paths) == if a[0].path in paths then [] else a
  {
    if a == [] {
      assert a + b == b;
    } else {
      assert (a + b)[1..] == a[1..] + b;
      WithoutConcat(a[1..], b, paths);
    }
  }

  lemma SizesStep(kept: seq<Spill>, all: seq<Spill>, i: nat)
    requires i < |all|
    ensures Sizes(all[i..]) == all[i].size + Sizes(all[i + 1..])
    ensures Sizes(kept + [all[i]]) == Sizes(kept) + all[i].size
  {
    assert all[i..][1..] == all[i + 1..];
    SizesConcat(kept, [all[i]]);
    assert [all[i]][1..] == [];
  }

  lemma RetainOne(kept: seq<Spill>, all: seq<Spill>, i: nat, paths: set<string>)
    requires i < |all|
    ensures kept + Without(all[i..], paths)
         == (if all[i].path in paths then kept else kept + [all[i]]) + Without(all[i + 1..], paths)
  {
    var more := Without(all[i + 1..], paths);
    assert all[i..][1..] == all[i + 1..];
    assert kept + ([all[i]] + more) == (kept + [all[i]]) + more;
  }

  datatype Read = NoBody | Body(bytes: seq<Byte>, total: nat, truncated: bool)

  /** What reading up to `max` bytes of a file gives: a prefix, its full length, whether it was cut. */
  function ReadOf(file: Option<seq<Byte>>, max: nat): Read
  {
    if file.None? then NoBody
    else Body(file.value[..Min(max, |file.value|)], |file.value|, |file.value| > max)
  }

  class BodyStore {
    const dir: Option<string>
    const inlineCap: nat
    const perBodyCap: nat
    const diskBudget: nat
    /** The registered files and their sizes, in the order they were registered. */
    var files: seq<Spill>
    var used: nat
    /** What the bodies directory holds. */
    var disk: map<string, seq<Byte>>

    ghost predicate Valid()
      reads this
    {
      used == Sizes(files) && used <= diskBudget
    }

    /** What holds even after the counter was clipped: it may fall short of the sizes. */
    ghost predicate Counted()
      reads this
    {
      used <= Sizes(files) && used <= diskBudget
    }

    ghost function Short(): nat
      reads this
    {
      SatSub(Sizes(files), used)
    }

    constructor (dir: Option<string>, inlineCap: nat, perBodyCap: nat, diskBudget: nat)
      ensures Valid() && files == [] && disk == map[]
      ensures this.dir == dir && this.inlineCap == inlineCap
      ensures this.perBodyCap == perBodyCap && this.diskBudget == diskBudget
    {
      this.dir, this.inlineCap, this.perBodyCap, this.diskBudget := dir, inlineCap, perBodyCap, diskBudget;
      files, used, disk := [], 0, map[];
    }

    predicate Spills()
    {
      dir.Some? && perBodyCap > 0 && diskBudget > 0
    }

    function PathFor(id: string, side: Side): Option<string>
    {
      if dir.Some? then Some(PathIn(dir.value, id, side)) else None
    }

    /**
     * Record a finished file, dropping the oldest until the total fits: exactly the
     * longest suffix that fits stays, and `used` stays its exact size. A total past 64
     * bits is clipped, and by so much, and what was clipped before, the budget is overrun
     * and `used` falls short.
     */
    method Register(path: string, len: nat)
      requires Counted()
      modifies this`files, this`used, this`disk
      ensures Counted() && (old(Valid()) && old(used) + len <= U64_MAX ==> Valid())
      ensures var all := old(files) + [Spill(path, len)];
              var clipped := old(Short()) + SatSub(old(used) + len, U64_MAX);
              var k := Overdue(all, diskBudget + clipped);
              && files == all[k..] && disk == old(disk) - Paths(all[..k])
              && used == SatSub(Sizes(files), clipped) <= diskBudget
    {
      SizesConcat(files, [Spill(path, len)]);
      assert [Spill(path, len)][1..] == [];
      ghost var clipped := Short() + SatSub(used + len, U64_MAX);
      used := Min(used + len, U64_MAX);
      files := files + [Spill(path, len)];
      EvictOldest(clipped);
    }

    /** Drop the oldest files until the counter, short by `clipped`, is within the budget. */
    method EvictOldest(ghost clipped: nat)
      requires used == SatSub(Sizes(files), clipped)
      modifies this`files, this`used, this`disk
      ensures used == SatSub(Sizes(files), clipped) <= diskBudget
      ensures var k := Overdue(old(files), diskBudget + clipped);
              files == old(files)[k..] && disk == old(disk) - Paths(old(files)[..k])
    {
      ghost var all := files;
      ghost var k := 0;
      assert all[..0] == [] && disk == old(disk) - Paths([]);
      while used > diskBudget
        invariant k <= |all| && files == all[k..] && used == SatSub(Sizes(files), clipped)
        invariant k + Overdue(files, diskBudget + clipped) == Overdue(all, diskBudget + clipped)
        invariant disk == old(disk) - Paths(all[..k])
        decreases |files|
      {
        if files == [] { break; }
        Popped(all, k, diskBudget + clipped);
        var oldest := files[0];
        files := files[1..];
        disk := disk - {oldest.path};
        used := SatSub(used, oldest.size);
        k := k + 1;
      }
    }

    /** Delete both spill files of a flow. */
    method RemoveFlow(id: string)
      requires Counted()
      modifies this`files, this`used, this`disk
      ensures Counted() && used == SatSub(Sizes(files), old(Short())) && (old(Valid()) ==> Valid())
      ensures dir.None? ==> files == old(files) && disk == old(disk)
      ensures dir.Some? ==>
        var paths := {PathIn(dir.value, id, Request), PathIn(dir.value, id, Response)};
        files == Without(old(files), paths) && disk == old(disk) - paths
    {
      if dir.None? { return; }
      var paths := {PathIn(dir.value, id, Request), PathIn(dir.value, id, Response)};
      var freed := Retain(paths);
      used := SatSub(used, freed);
      disk := disk - paths;
    }

    /** Keep the files outside `paths`; how many bytes went with the others. */
    method Retain(paths: set<string>) returns (freed: nat)
      modifies this`files
      ensures files == Without(old(files), paths)
      ensures freed + Sizes(files) == Sizes(old(files))
    {
      var kept, all := [], files;
      freed := 0;
      for i := 0 to |all|
        invariant kept + Without(all[i..], paths) == Without(all, paths)
        invariant freed + Sizes(kept) + Sizes(all[i..]) == Sizes(all)
      {
        SizesStep(kept, all, i);
        RetainOne(kept, all, i, paths);
        if all[i].path in paths {
          freed := freed + all[i].size;
        } else {
          kept := kept + [all[i]];
        }
      }
      files := kept;
    }

    /** A body's spill file, if the directory has it. */
    ghost function FileOf(id: string, side: Side): Option<seq<Byte>>
      reads this
    {
      var path := PathFor(id, side);
      if path.None? || path.value !in disk then None else Some(disk[path.value])
    }

    /** Read a spilled body back, cut to `max` bytes. */
    method ReadBody(id: string, side: Side, max: nat) returns (r: Read)
      ensures r == ReadOf(FileOf(id, side), max)
    {
      var path := PathFor(id, side);
      if path.None? || path.value !in disk { return NoBody; }
      var bytes := disk[path.value];
      if |bytes| > max { return Body(bytes[..max], |bytes|, true); }
      assert bytes[..|bytes|] == bytes;
      return Body(bytes, |bytes|, false);
    }
  }

  lemma Popped(all: seq<Spill>, k: nat, budget: nat)
    requires k < |all|
    ensures Sizes(all[k..]) == all[k].size + Sizes(all[k + 1..])
    ensures Sizes(all[k..]) > budget ==> Overdue(all[k..], budget) == 1 + Overdue(all[k + 1..], budget)
    ensures Paths(all[..k + 1]) == Paths(all[..k]) + {all[k].path}
  {
    assert all[k..][1..] == all[k + 1..];
    PathsSnoc(all, k);
  }

  lemma PathsSnoc(all: seq<Spill>, k: nat)
    requires k < |all|
    ensures Paths(all[..k + 1]) == Paths(all[..k]) + {all[k].path}
  {
    forall p | p in Paths(all[..k]) + {all[k].path} ensures p in Paths(all[..k + 1]) {
      if p == all[k].path {
        assert all[..k + 1][k].path == p;
      } else {
        var i :| 0 <= i < k && all[..k][i].path == p;
        assert all[..k + 1][i].path == p;
      }
    }
  }
}
