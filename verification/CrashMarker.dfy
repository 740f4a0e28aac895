/**
 * The crash marker: rendered into a fixed buffer without allocating, read back at the
 * next launch (src-tauri/src/crash.rs). Every byte of it is ASCII, so bytes are chars.
 */
module CrashMarker {
  import opened Wrappers
  import opened Decimals

  const MARKER_MAX: nat := 64
  const U32_MAX: nat := 0xFFFF_FFFF
  const U64_MAX: nat := 0xFFFF_FFFF_FFFF_FFFF

  lemma MachineNumbersFit(v: nat)
    ensures v <= U64_MAX ==> |Decimal(v)| <= 20
    ensures v <= U32_MAX ==> |Decimal(v)| <= 10
  {
    var p := Power10(10);
    assert p == 10_000_000_000;
    assert Power10(15) == 1_000_000_000_000_000 by { assert Power10(12) == 1_000_000_000_000; }
    assert Power10(20) == 100_000_000_000_000_000_000;
    if v <= U64_MAX { DecimalLength(v, 20); }
    if v <= U32_MAX { DecimalLength(v, 10); }
  }

  /** The marker's text. */
  function Text(kind: nat, code: nat): string
  {
    "kind=" + Decimal(kind) + " code=" + Decimal(code) + "\n"
  }

  /* ------------------------------ rendering ----------------------------- */

  function Fits(at: nat, n: nat): nat
    requires at <= MARKER_MAX
  {
    if n <= MARKER_MAX - at then n else MARKER_MAX - at
  }

  /** `s` written over `buf` at `at`, as far as it fits. */
  function Over(buf: string, at: nat, s: string): string
    requires at <= |buf| == MARKER_MAX
  {
    buf[..at] + s[..Fits(at, |s|)] + buf[at + Fits(at, |s|)..]
  }

  /** Copy `src` in, truncating rather than failing. */
  method Put(buf: array<char>, at: nat, src: string) returns (n: nat)
    requires buf.Length == MARKER_MAX && at <= MARKER_MAX
    modifies buf
    ensures n == Fits(at, |src|)
    ensures buf[..] == Over(old(buf[..]), at, src)
  {
    n := Fits(at, |src|);
    for i := 0 to n
      invariant buf[..] == old(buf[..])[..at] + src[..i] + old(buf[..])[at + i..]
    {
      buf[at + i] := src[i];
      assert src[..i + 1] == src[..i] + [src[i]];
    }
  }

  lemma OverTwice(buf: string, at: nat, a: string, b: string)
    requires at <= |buf| == MARKER_MAX && at + |a| <= MARKER_MAX
    ensures Over(Over(buf, at, a), at + |a|, b) == Over(buf, at, a + b)
  {
    assert Fits(at, |a|) == |a|;
    var n := Fits(at + |a|, |b|);
    assert Fits(at, |a + b|) == |a| + n;
    assert (a + b)[..|a| + n] == a + b[..n];
  }

  /** One character more, whether or not there is room for it. */
  lemma OneMore(buf: string, at: nat, a: string, c: char)
    requires at <= |buf| == MARKER_MAX
    ensures Over(Over(buf, at, a), at + Fits(at, |a|), [c]) == Over(buf, at, a + [c])
  {
    if at + |a| <= MARKER_MAX {
      OverTwice(buf, at, a, [c]);
    } else {
      assert (a + [c])[..MARKER_MAX - at] == a[..MARKER_MAX - at];
    }
  }

  function Reversed(s: string): (r: string)
    ensures |r| == |s|
  {
    if s == "" then "" else Reversed(s[1..]) + [s[0]]
  }

  lemma {:induction false} ReversedConcat(a: string, b: string)
    ensures Reversed(a + b) == Reversed(b) + Reversed(a)
  {
    if a == "" {
      assert a + b == b && Reversed(b) + "" == Reversed(b);
    } else {
      assert (a + b)[1..] == a[1..] + b;
      ReversedConcat(a[1..], b);
    }
  }

  /** The decimal digits of `value`, last first, as they come out of the division. */
  method StageDigits(value: nat) returns (digits: seq<char>)
    requires value <= U64_MAX
    ensures Reversed(digits) == Decimal(value) && |digits| <= 20
  {
    var buffer := new char[20](_ => '0');
    var len, v := 0, value;
    MachineNumbersFit(value);
    ghost var done := "";      // the digits staged so far, in reading order
    while true
      invariant len < 20 && buffer.Length == 20
      invariant Reversed(buffer[..len]) == done
      invariant Decimal(v) + done == Decimal(value) && |done| == len
      decreases v
    {
      assert |Decimal(v)| >= 1;
      buffer[len] := Digit(v % 10);
      ReversedConcat(buffer[..len], [Digit(v % 10)]);
      assert buffer[..len + 1] == buffer[..len] + [Digit(v % 10)];
      assert Reversed([Digit(v % 10)]) == [Digit(v % 10)] by { assert [Digit(v % 10)][1..] == ""; }
      done := [Digit(v % 10)] + done;
      len := len + 1;
      if v / 10 == 0 {
        return buffer[..len];
      }
      assert Decimal(v / 10) + done == Decimal(value);
      v := v / 10;
    }
  }

  lemma NoDigits(buf: string, at: nat, digits: string)
    requires at <= |buf| == MARKER_MAX
    ensures Over(buf, at, Reversed(digits[|digits|..])) == buf
  {
    assert digits[|digits|..] == "";
  }

  lemma DigitMore(buf: string, at: nat, digits: string, i: nat)
    requires at <= |buf| == MARKER_MAX && i < |digits|
    ensures Over(Over(buf, at, Reversed(digits[i + 1..])), at + Fits(at, |digits| - i - 1), digits[i..i + 1])
         == Over(buf, at, Reversed(digits[i..]))
    ensures Fits(at, |digits| - i - 1) + Fits(at + Fits(at, |digits| - i - 1), 1) == Fits(at, |digits| - i)
  {
    assert digits[i..i + 1] == [digits[i]] && digits[i..][1..] == digits[i + 1..];
    OneMore(buf, at, Reversed(digits[i + 1..]), digits[i]);
  }

  /** Decimal-format `value` at `at`. */
  method PutU64(buf: array<char>, at: nat, value: nat) returns (written: nat)
    requires buf.Length == MARKER_MAX && at <= MARKER_MAX && value <= U64_MAX
    modifies buf
    ensures written == Fits(at, |Decimal(value)|)
    ensures buf[..] == Over(old(buf[..]), at, Decimal(value))
  {
    var digits := StageDigits(value);
    written := 0;
    NoDigits(buf[..], at, digits);
    for i := |digits| downto 0
      invariant written == Fits(at, |digits| - i)
      invariant buf[..] == Over(old(buf[..]), at, Reversed(digits[i..]))
    {
      DigitMore(old(buf[..]), at, digits, i);
      var n := Put(buf, at + written, digits[i..i + 1]);
      written := written + n;
    }
    assert digits[0..] == digits;
  }

  /** The pieces of the marker written one after another are its text. */
  lemma TextPieces(start: string, k: string, c: string)
    requires |start| == MARKER_MAX && |k| <= 10 && |c| <= 20
    ensures Over(Over(Over(Over(Over(start, 0, "kind="), 5, k), 5 + |k|, " code="), 11 + |k|, c), 11 + |k| + |c|, "\n")
         == Over(start, 0, "kind=" + k + " code=" + c + "\n")
  {
    FivePieces(start, "kind=", k, " code=", c, "\n");
  }

  lemma FivePieces(start: string, a: string, b: string, c: string, d: string, e: string)
    requires |a| + |b| + |c| + |d| + |e| <= |start| == MARKER_MAX
    ensures var abc := Over(Over(Over(start, 0, a), |a|, b), |a| + |b|, c);
            Over(Over(abc, |a| + |b| + |c|, d), |a| + |b| + |c| + |d|, e) ==
            Over(start, 0, a + b + c + d + e)
  {
    OverTwice(start, 0, a, b);
    OverTwice(start, 0, a + b, c);
    OverTwice(start, 0, a + b + c, d);
    OverTwice(start, 0, a + b + c + d, e);
  }

  lemma WrittenAtStart(start: string, s: string)
    requires |s| <= |start| == MARKER_MAX
    ensures Over(start, 0, s)[..|s|] == s && Over(start, 0, s)[|s|..] == start[|s|..]
  {}

  /**
   * Render the marker: whatever the two numbers, the whole text fits and is written, and
   * nothing after it is touched.
   */
  method FormatMarker(buf: array<char>, kind: nat, code: nat) returns (n: nat)
    requires buf.Length == MARKER_MAX && kind <= U32_MAX && code <= U64_MAX
    modifies buf
    ensures n == |Text(kind, code)| <= MARKER_MAX
    ensures buf[..n] == Text(kind, code) && buf[n..] == old(buf[..])[n..]
  {
    MachineNumbersFit(kind);
    MachineNumbersFit(code);
    ghost var start := buf[..];
    var k1 := Put(buf, 0, "kind=");
    var k2 := PutU64(buf, k1, kind);
    var k3 := Put(buf, k1 + k2, " code=");
    var k4 := PutU64(buf, k1 + k2 + k3, code);
    var k5 := Put(buf, k1 + k2 + k3 + k4, "\n");
    n := k1 + k2 + k3 + k4 + k5;
    TextPieces(start, Decimal(kind), Decimal(code));
    WrittenAtStart(start, Text(kind, code));
  }

  /* ------------------------------- parsing ------------------------------ */

  predicate IsSpace(c: char) { c == ' ' || c == '\n' || c == '\t' || c == '\r' }

  function WordLength(t: string): (n: nat)
    ensures n <= |t|
  {
    if t == "" || IsSpace(t[0]) then 0 else 1 + WordLength(t[1..])
  }

  /** The fields of a text, split at runs of white space. */
  function Fields(t: string): seq<string>
    decreases |t|
  {
    if t == "" then []
    else if IsSpace(t[0]) then Fields(t[1..])
    else [t[..WordLength(t)]] + Fields(t[WordLength(t)..])
  }

  /** Position of the first `=`, or the length. */
  function EqualsAt(s: string): (n: nat)
    ensures n <= |s|
  {
    if s == "" || s[0] == '=' then 0 else 1 + EqualsAt(s[1..])
  }

  /** An unsigned number as Rust reads one: digits, one `+` allowed, no overflow. */
  function ParseUnsigned(s: string, max: nat): Option<nat>
  {
    var digits := if s != "" && s[0] == '+' then s[1..] else s;
    if digits == "" || !(forall i :: 0 <= i < |digits| ==> IsDigit(digits[i])) then None
    else if Value(digits) > max then None
    else Some(Value(digits))
  }

  /** The loop over the fields, from what was read before. */
  function ParseFrom(fields: seq<string>, kind: Option<nat>, code: Option<nat>): Option<(nat, nat)>
    decreases |fields|
  {
    if fields == [] then
      (if kind.None? then None else Some((kind.value, if code.Some? then code.value else 0)))
    else
      var f, at := fields[0], EqualsAt(fields[0]);
      if at == |f| then None
      else if f[..at] == "kind" then ParseFrom(fields[1..], ParseUnsigned(f[at + 1..], U32_MAX), code)
      else if f[..at] == "code" then ParseFrom(fields[1..], kind, ParseUnsigned(f[at + 1..], U64_MAX))
      else ParseFrom(fields[1..], kind, code)
  }

  method ParseMarker(text: string) returns (r: Option<(nat, nat)>)
    ensures r == ParseFrom(Fields(text), None, None)
    ensures r.Some? ==> r.value.0 <= U32_MAX && r.value.1 <= U64_MAX
  {
    var kind: Option<nat> := None;
    var code: Option<nat> := None;
    var fields := Fields(text);
    for i := 0 to |fields|
      invariant ParseFrom(fields[i..], kind, code) == ParseFrom(fields, None, None)
      invariant kind.Some? ==> kind.value <= U32_MAX
      invariant code.Some? ==> code.value <= U64_MAX
    {
      assert fields[i..][1..] == fields[i + 1..];
      var f, at := fields[i], EqualsAt(fields[i]);
      if at == |f| { return None; }
      if f[..at] == "kind" {
        kind := ParseUnsigned(f[at + 1..], U32_MAX);
      } else if f[..at] == "code" {
        code := ParseUnsigned(f[at + 1..], U64_MAX);
      }
    }
    if kind.None? { return None; }
    return Some((kind.value, if code.Some? then code.value else 0));
  }

  lemma {:induction false} WordThen(w: string, rest: string)
    requires forall i :: 0 <= i < |w| ==> !IsSpace(w[i])
    requires rest == "" || IsSpace(rest[0])
    ensures WordLength(w + rest) == |w|
  {
    if w != "" {
      assert (w + rest)[1..] == w[1..] + rest;
      WordThen(w[1..], rest);
    } else {
      assert w + rest == rest;
    }
  }

  lemma {:induction false} FieldsThen(w: string, rest: string)
    requires w != "" && forall i :: 0 <= i < |w| ==> !IsSpace(w[i])
    requires rest == "" || IsSpace(rest[0])
    ensures Fields(w + rest) == [w] + Fields(rest)
  {
    WordThen(w, rest);
    assert (w + rest)[..|w|] == w && (w + rest)[|w|..] == rest;
  }

  lemma {:induction false} EqualsThen(name: string, value: string)
    requires forall i :: 0 <= i < |name| ==> name[i] != '='
    ensures EqualsAt(name + "=" + value) == |name|
  {
    if name != "" {
      assert (name + "=" + value)[1..] == name[1..] + "=" + value;
      EqualsThen(name[1..], value);
    }
  }

  lemma ParseDecimal(v: nat, max: nat)
    requires v <= max
    ensures ParseUnsigned(Decimal(v), max) == Some(v)
  {
    ValueOfDecimal(v);
    assert IsDigit(Decimal(v)[0]);
  }

  /** One `name=number` field. */
  lemma FieldParses(name: string, v: nat, max: nat)
    requires v <= max && forall i :: 0 <= i < |name| ==> name[i] != '='
    ensures var f := name + "=" + Decimal(v);
            && EqualsAt(f) == |name| < |f| && f[..|name|] == name
            && ParseUnsigned(f[|name| + 1..], max) == Some(v)
  {
    EqualsThen(name, Decimal(v));
    ParseDecimal(v, max);
    var f := name + "=" + Decimal(v);
    assert f[|name| + 1..] == Decimal(v);
  }

  /** Every marker that is written is read back as what crashed. */
  lemma MarkerRoundTrip(kind: nat, code: nat)
    requires kind <= U32_MAX && code <= U64_MAX
    ensures ParseFrom(Fields(Text(kind, code)), None, None) == Some((kind, code))
  {
    var a, b := "kind" + "=" + Decimal(kind), "code" + "=" + Decimal(code);
    MarkerFields(kind, code);
    FieldParses("kind", kind, U32_MAX);
    FieldParses("code", code, U64_MAX);
    assert [a, b][1..] == [b] && [b][1..] == [];
    assert "code" != "kind" by { assert "code"[0] != "kind"[0]; }
    assert ParseFrom([b], Some(kind), None) == ParseFrom([], Some(kind), Some(code));
  }

  lemma MarkerFields(kind: nat, code: nat)
    ensures Fields(Text(kind, code)) == ["kind" + "=" + Decimal(kind), "code" + "=" + Decimal(code)]
  {
    var a, b := "kind" + "=" + Decimal(kind), "code" + "=" + Decimal(code);
    assert "kind=" == "kind" + "=" && " code=" == " " + "code" + "=";
    assert Text(kind, code) == a + (" " + b + "\n");
    FieldsThen(a, " " + b + "\n");
    assert (" " + b + "\n")[1..] == b + "\n";
    FieldsThen(b, "\n");
    assert Fields("\n") == [] by { assert "\n"[1..] == ""; }
  }
}
