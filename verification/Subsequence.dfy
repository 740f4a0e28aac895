/** One sequence being another with elements left out. */
module Subsequence {
  predicate Sub<T(==)>(a: seq<T>, b: seq<T>)
    decreases |b|
  {
    a == [] ||
    (b != [] && ((a[0] == b[0] && Sub(a[1..], b[1..])) || Sub(a, b[1..])))
  }

  lemma {:induction false} SubSelf<T>(a: seq<T>)
    ensures Sub(a, a)
  {
    if a != [] { SubSelf(a[1..]); }
  }

  /** A suffix leaves out the front. */
  lemma {:induction false} SubSuffix<T>(a: seq<T>, k: nat)
    requires k <= |a|
    ensures Sub(a[k..], a)
    decreases |a|
  {
    if k == 0 {
      assert a[0..] == a;
      SubSelf(a);
    } else {
      SubSuffix(a[1..], k - 1);
      assert a[1..][k - 1..] == a[k..];
    }
  }

  lemma {:induction false} SubConcat<T>(a: seq<T>, b: seq<T>, c: seq<T>, d: seq<T>)
    requires Sub(a, b) && Sub(c, d)
    ensures Sub(a + c, b + d)
    decreases |b|
  {
    if b == [] {
      assert a + c == c && b + d == d;
    } else {
      assert (b + d)[1..] == b[1..] + d;
      if a != [] && a[0] == b[0] && Sub(a[1..], b[1..]) {
        SubConcat(a[1..], b[1..], c, d);
        assert (a + c)[1..] == a[1..] + c;
      } else {
        SubConcat(a, b[1..], c, d);
      }
    }
  }

  lemma {:induction false} SubTrans<T>(a: seq<T>, b: seq<T>, c: seq<T>)
    requires Sub(a, b) && Sub(b, c)
    ensures Sub(a, c)
    decreases |c|
  {
    if a != [] {
      if b[0] == c[0] && Sub(b[1..], c[1..]) {
        if a[0] == b[0] && Sub(a[1..], b[1..]) {
          SubTrans(a[1..], b[1..], c[1..]);
        } else {
          SubTrans(a, b[1..], c[1..]);
        }
      } else {
        SubTrans(a, b, c[1..]);
      }
    }
  }

  /* ------------------------------- putting together --------------------- */

  /** Leaving the front of the middle part out of a trail. */
  lemma TrailCut<T>(front: seq<T>, all: seq<T>, c: nat, back: seq<T>)
    requires c <= |all|
    ensures Sub(front + all[c..] + back, front + all + back)
  {
    SubSelf(front);
    SubSuffix(all, c);
    SubConcat(front, front, all[c..], all);
    SubSelf(back);
    SubConcat(front + all[c..], front + all, back, back);
  }

  lemma Regroup<T>(a: seq<T>, b: seq<T>, c: seq<T>, d: seq<T>)
    ensures a + b + c + d == a + b + (c + d)
  {}

  lemma Reassociate<T>(a: seq<T>, b: seq<T>, c: seq<T>, d: seq<T>, e: seq<T>)
    ensures a + b + (c + d) + e == a + (b + c) + (d + e)
  {}

  lemma SubPrefix<T>(a: seq<T>, b: seq<T>)
    ensures Sub(a, a + b)
  {
    SubSelf(a);
    SubConcat(a, a, [], b);
    assert a + [] == a;
  }

  lemma EndMoved<T>(a: seq<T>, b: seq<T>, c: seq<T>)
    ensures a + (b + c) + [] == a + b + c && a + b + [] == a + b
  {}

  lemma MiddleMoved<T>(a: seq<T>, b: seq<T>, c: seq<T>, d: seq<T>)
    ensures a + (b + c) + d == a + b + (c + d)
  {}

  lemma Lengths<T>(a: seq<T>, b: seq<T>)
    ensures |a + b| == |a| + |b|
  {}

  /** A tail of a subsequence is one, whatever follows. */
  lemma {:induction false} TailStays<T>(all: seq<T>, kept: seq<T>, whole: seq<T>, back: seq<T>)
    requires |kept| <= |all| && kept == all[|all| - |kept|..] && Sub(all, whole)
    ensures Sub(kept + back, whole + back)
  {
    SubSuffix(all, |all| - |kept|);
    SubTrans(kept, all, whole);
    SubSelf(back);
    SubConcat(kept, whole, back, back);
  }

  lemma GapClosed<T>(a: seq<T>, b: seq<T>, c: seq<T>)
    ensures a + [] + b + c == a + (b + c)
  {}

  lemma PartsAreSub<T>(a: seq<T>, b: seq<T>, noA: bool, withB: bool)
    ensures Sub((if noA then [] else a) + (if withB then b else []), a + b)
  {
    SubSelf(a);
    SubSelf(b);
    SubConcat(if noA then [] else a, a, if withB then b else [], b);
  }

  lemma FrontMoved<T>(a: seq<T>, b: seq<T>, c: seq<T>, d: seq<T>)
    ensures a + b + c + d == a + (b + c + d) && [] + b + c + d == b + c + d
  {}

  lemma SubBack<T>(a: seq<T>, b: seq<T>)
    ensures Sub(b, a + b)
  {
    SubSuffix(a + b, |a|);
    assert (a + b)[|a|..] == b;
  }

  lemma SubThrough<T>(mid: seq<T>, whole: seq<T>, more: seq<T>, last: seq<T>)
    requires Sub(mid, whole) && Sub(last, mid + more)
    ensures Sub(last, whole + more)
  {
    SubSelf(more);
    SubConcat(mid, whole, more, more);
    SubTrans(last, mid + more, whole + more);
  }
}
