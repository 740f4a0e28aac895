/** The run-length encoder behind the `ic04`/`ic05` icon slots (assets/logo/icns.py). */
module PackBits {
  type Byte = b: int | 0 <= b < 256

  /** What one decoding step yields, or that the input is not an encoding. */
  datatype Decoded = Malformed | Bytes(data: seq<Byte>)

  function Repeat(b: Byte, n: nat): (r: seq<Byte>)
    ensures |r| == n && forall k :: 0 <= k < n ==> r[k] == b
  {
    seq(n, _ => b)
  }

  /** Bytes one encoded item takes, told by its control byte. */
  function ItemSize(control: Byte): nat
  {
    if control >= 0x80 then 2 else 2 + control
  }

  /** What the item at the front of `s` stands for. */
  function Item(s: seq<Byte>): seq<Byte>
    requires s != [] && ItemSize(s[0]) <= |s|
  {
    if s[0] >= 0x80 then Repeat(s[1], s[0] - 0x80 + 3) else s[1..ItemSize(s[0])]
  }

  /**
   * The documented format, read back: a control byte `c >= 0x80` stands for a run of
   * `c - 0x80 + 3` copies of the next byte, any other for a literal of `c + 1` bytes.
   */
  function Unpack(s: seq<Byte>): Decoded
  {
    if s == [] then Bytes([])
    else if |s| < ItemSize(s[0]) then Malformed
    else Prepend(Item(s), Unpack(s[ItemSize(s[0])..]))
  }

  function Prepend(front: seq<Byte>, rest: Decoded): Decoded
  {
    match rest
    case Malformed => Malformed
    case Bytes(d) => Bytes(front + d)
  }

  /** The front item does not depend on what follows it. */
  lemma ItemFront(a: seq<Byte>, b: seq<Byte>)
    requires a != [] && ItemSize(a[0]) <= |a|
    ensures (a + b)[0] == a[0]
    ensures Item(a + b) == Item(a)
    ensures (a + b)[ItemSize(a[0])..] == a[ItemSize(a[0])..] + b
  {
    var n := ItemSize(a[0]);
    assert (a + b)[1..n] == a[1..n];
  }

  lemma PrependTwice(x: seq<Byte>, y: seq<Byte>, rest: Decoded)
    ensures Prepend(x, Prepend(y, rest)) == Prepend(x + y, rest)
  {
    if rest.Bytes? {
      assert x + (y + rest.data) == x + y + rest.data;
    }
  }

  /** Encodings concatenate: decoding `a + b` is decoding `a`, then `b`. */
  lemma {:induction false} UnpackConcat(a: seq<Byte>, b: seq<Byte>)
    requires Unpack(a).Bytes?
    ensures Unpack(a + b) == Prepend(Unpack(a).data, Unpack(b))
  {
    if a == [] {
      assert a + b == b;
      if Unpack(b).Bytes? { assert [] + Unpack(b).data == Unpack(b).data; }
    } else {
      var rest := a[ItemSize(a[0])..];
      ItemFront(a, b);
      UnpackConcat(rest, b);
      PrependTwice(Item(a), Unpack(rest).data, Unpack(b));
    }
  }

  /** Appending one item appends what it stands for. */
  lemma UnpackAppend(out: seq<Byte>, data: seq<Byte>, item: seq<Byte>)
    requires Unpack(out) == Bytes(data)
    requires item != [] && |item| == ItemSize(item[0])
    ensures Unpack(out + item) == Bytes(data + Item(item))
  {
    assert item[|item|..] == [] && Item(item) + [] == Item(item);
    UnpackConcat(out, item);
  }

  lemma RunAppends(out: seq<Byte>, data: seq<Byte>, i: nat, run: nat)
    requires 3 <= run <= 130 && i + run <= |data| && data[i..i + run] == Repeat(data[i], run)
    requires Unpack(out) == Bytes(data[..i])
    ensures Unpack(out + [0x80 + (run - 3), data[i]]) == Bytes(data[..i + run])
  {
    UnpackAppend(out, data[..i], [0x80 + (run - 3), data[i]]);
    assert data[..i + run] == data[..i] + data[i..i + run];
  }

  lemma LiteralAppends(out: seq<Byte>, data: seq<Byte>, start: nat, i: nat)
    requires start < i <= |data| && i - start <= 128
    requires Unpack(out) == Bytes(data[..start])
    ensures Unpack(out + ([(i - start) - 1] + data[start..i])) == Bytes(data[..i])
  {
    var item: seq<Byte> := [(i - start) - 1] + data[start..i];
    assert item[1..] == data[start..i];
    UnpackAppend(out, data[..start], item);
    assert data[..i] == data[..start] + data[start..i];
  }

  /** Three equal bytes start at `i`: the pattern that ends a literal. */
  predicate TripleAt(data: seq<Byte>, i: nat)
  {
    i + 2 < |data| && data[i] == data[i + 1] == data[i + 2]
  }

  /** Length of the run at `i`, at most 130: what one run item can carry. */
  method RunLength(data: seq<Byte>, i: nat) returns (run: nat)
    requires i < |data|
    ensures 1 <= run <= 130 && i + run <= |data|
    ensures data[i..i + run] == Repeat(data[i], run)
    ensures run < 3 ==> !TripleAt(data, i)
  {
    run := 1;
    while i + run < |data| && data[i + run] == data[i] && run < 130
      invariant 1 <= run <= 130 && i + run <= |data|
      invariant forall k :: i <= k < i + run ==> data[k] == data[i]
    {
      run := run + 1;
    }
  }

  /** Where the literal that starts at `start` ends. */
  method LiteralEnd(data: seq<Byte>, start: nat) returns (i: nat)
    requires start < |data| && !TripleAt(data, start)
    ensures start < i <= |data| && i - start <= 128
    ensures i < |data| && i - start < 128 ==> TripleAt(data, i)
    ensures forall k :: start <= k < i ==> !TripleAt(data, k)
  {
    i := start + 1;
    while i < |data| && i - start < 128
      invariant start < i <= |data| && i - start <= 128
      invariant forall k :: start <= k < i ==> !TripleAt(data, k)
    {
      if i + 2 < |data| && data[i] == data[i + 1] == data[i + 2] { break; }
      i := i + 1;
    }
  }

  /**
   * Encodes `data`. Decoding gives it back, every byte appended is one (the element
   * type), and the output exceeds the input by at most one byte per 128 started: a
   * literal cut short by a triple costs a control byte that the run after it saves.
   */
  method PackRle(data: seq<Byte>) returns (out: seq<Byte>)
    ensures Unpack(out) == Bytes(data)
    ensures |out| <= |data| + (|data| + 127) / 128
  {
    out := [];
    var i, n := 0, |data|;
    ghost var full := 0;      // literals that reached 128 bytes
    ghost var owed := 0;      // 1 while a shorter literal's control byte is unpaid
    while i < n
      invariant 0 <= i <= n
      invariant Unpack(out) == Bytes(data[..i])
      invariant |out| <= i + full + owed
      invariant 0 <= owed <= 1 && 128 * full + owed <= i
      invariant owed == 1 ==> i == n || TripleAt(data, i)
    {
      var run := RunLength(data, i);
      var start := i;
      var item: seq<Byte>;
      if run >= 3 {
        item := [0x80 + (run - 3), data[i]];
        RunAppends(out, data, i, run);
        i := i + run;
        owed := 0;
      } else {
        i := LiteralEnd(data, start);
        item := [(i - start) - 1] + data[start..i];
        if i - start == 128 { full := full + 1; } else { owed := 1; }
        LiteralAppends(out, data, start, i);
      }
      out := out + item;
    }
    assert data[..i] == data;
  }
}
