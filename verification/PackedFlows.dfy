/**
 * The store's own form of a flow: a stripped shell and four separately packed strings,
 * from which the flow comes back exactly (crates/nova-core/src/flowstore.rs).
 */
module PackedFlows {
  import opened Wrappers
  import opened Proto

  type Byte = b: int | 0 <= b < 256

  const PACK_MIN: nat := 256

  /** UTF-8 and zstd, as functions; all that is asked of them is `Lossless`. */
  datatype Codec = Codec(
    encode: string -> seq<Byte>, decode: seq<Byte> -> string,
    compress: seq<Byte> -> Option<seq<Byte>>, decompress: (seq<Byte>, nat) -> Option<seq<Byte>>)

  ghost predicate Lossless(c: Codec)
  {
    && (forall s :: c.decode(c.encode(s)) == s)
    && (forall raw :: c.compress(raw).Some? ==> c.decompress(c.compress(raw).value, |raw|) == Some(raw))
  }

  /** A string as bytes, plain or as a zstd frame, and how many bytes it stands for. */
  datatype Packed = Packed(data: seq<Byte>, zstd: bool, rawLen: nat)

  function PackString(c: Codec, s: string): Packed
  {
    var raw := c.encode(s);
    var frame := if |raw| >= PACK_MIN then c.compress(raw) else None;
    if frame.Some? && |frame.value| < |raw| then Packed(frame.value, true, |raw|) else Packed(raw, false, |raw|)
  }

  function UnpackString(c: Codec, p: Packed): string
  {
    c.decode(
      if p.zstd then
        match c.decompress(p.data, p.rawLen) case Some(raw) => raw case None => []
      else p.data)
  }

  lemma StringRoundTrip(c: Codec, s: string)
    requires Lossless(c)
    ensures UnpackString(c, PackString(c, s)) == s
    ensures |PackString(c, s).data| <= PackString(c, s).rawLen == |c.encode(s)|
  {}

  datatype PackedBody = PackedBody(text: Option<Packed>, base64: Option<Packed>)

  datatype Stored = Stored(flow: Flow, request: PackedBody, response: PackedBody)

  /** The two preview strings of one body, taken before an update. */
  datatype Strings = Strings(text: Option<string>, base64: Option<string>)

  function StringsOf(body: Option<BodyPreview>): Strings
  {
    if body.Some? then Strings(body.value.text, body.value.base64) else Strings(None, None)
  }

  /** A frame is kept for a string that did not change, and made for one that did. */
  function Repack(c: Codec, now: Option<string>, before: Option<string>, frame: Option<Packed>): Option<Packed>
  {
    if frame.Some? && before == now then frame
    else if now.Some? then Some(PackString(c, now.value)) else None
  }

  function PackSide(c: Codec, body: Option<BodyPreview>, before: Strings, kept: PackedBody): PackedBody
  {
    if body.None? then PackedBody(None, None)
    else PackedBody(Repack(c, body.value.text, before.text, kept.text),
                    Repack(c, body.value.base64, before.base64, kept.base64))
  }

  const NO_FRAMES := PackedBody(None, None)

  /** Pack a flow never stored before. */
  function Pack(c: Codec, flow: Flow): Stored
  {
    Stored(WithoutBytes(flow),
           PackSide(c, flow.requestBody, StringsOf(None), NO_FRAMES),
           PackSide(c, flow.responseBody, StringsOf(None), NO_FRAMES))
  }

  /** Pack an updated flow, reusing the frames of strings equal to what `before` held. */
  function PackOver(c: Codec, flow: Flow, stored: Stored, before: Flow): Stored
  {
    Stored(WithoutBytes(flow),
           PackSide(c, flow.requestBody, StringsOf(before.requestBody), stored.request),
           PackSide(c, flow.responseBody, StringsOf(before.responseBody), stored.response))
  }

  function UnpackSide(c: Codec, body: Option<BodyPreview>, packed: PackedBody): Option<BodyPreview>
  {
    if body.None? then None
    else Some(body.value.(
      text := if packed.text.Some? then Some(UnpackString(c, packed.text.value)) else None,
      base64 := if packed.base64.Some? then Some(UnpackString(c, packed.base64.value)) else None))
  }

  function Unpack(c: Codec, s: Stored): Flow
  {
    s.flow.(requestBody := UnpackSide(c, s.flow.requestBody, s.request),
            responseBody := UnpackSide(c, s.flow.responseBody, s.response))
  }

  /** Packing and unpacking a flow gives the flow, whatever its previews hold. */
  lemma UnpackPack(c: Codec, flow: Flow)
    requires Lossless(c)
    ensures Unpack(c, Pack(c, flow)) == flow
  {
    SideRoundTrip(c, flow.requestBody);
    SideRoundTrip(c, flow.responseBody);
  }

  lemma SideRoundTrip(c: Codec, body: Option<BodyPreview>)
    requires Lossless(c)
    ensures UnpackSide(c, StripBody(body), PackSide(c, body, StringsOf(None), NO_FRAMES)) == body
  {}

  /**
   * Reusing frames never shows: an update packed over the stored form of `before` is
   * byte for byte what packing the updated flow afresh gives, whatever the update did.
   */
  lemma ReuseInvisible(c: Codec, flow: Flow, before: Flow)
    ensures PackOver(c, flow, Pack(c, before), before) == Pack(c, flow)
  {
    SideReuse(c, flow.requestBody, before.requestBody);
    SideReuse(c, flow.responseBody, before.responseBody);
  }

  lemma SideReuse(c: Codec, body: Option<BodyPreview>, before: Option<BodyPreview>)
    ensures PackSide(c, body, StringsOf(before), PackSide(c, before, StringsOf(None), NO_FRAMES))
         == PackSide(c, body, StringsOf(None), NO_FRAMES)
  {}

  /** Packing as the store uses it, with what it relies on. */
  datatype Packer = Packer(pack: Flow -> Stored, repack: (Flow, Stored, Flow) -> Stored, unpack: Stored -> Flow)

  ghost predicate Exact(p: Packer)
  {
    && (forall f {:trigger p.unpack(p.pack(f))} :: p.unpack(p.pack(f)) == f)
    && (forall f {:trigger p.pack(f).flow} :: p.pack(f).flow == WithoutBytes(f))
    && (forall f, before {:trigger p.repack(f, p.pack(before), before)} ::
          p.repack(f, p.pack(before), before) == p.pack(f))
  }

  function PackerOf(c: Codec): Packer
  {
    Packer(f => Pack(c, f), (f, stored, before) => PackOver(c, f, stored, before), s => Unpack(c, s))
  }

  /** A lossless codec makes an exact packer: round trip, stripped shell, invisible reuse. */
  lemma PackerExact(c: Codec)
    requires Lossless(c)
    ensures Exact(PackerOf(c))
  {
    var p := PackerOf(c);
    forall f ensures p.unpack(p.pack(f)) == f { UnpackPack(c, f); }
    forall f, before ensures p.repack(f, p.pack(before), before) == p.pack(f) { ReuseInvisible(c, f, before); }
  }

  /* -------------------------------- sizes ------------------------------- */

  function DataLen(p: Option<Packed>): nat { if p.Some? then |p.value.data| else 0 }

  function RawLen(p: Option<Packed>): nat { if p.Some? then p.value.rawLen else 0 }

  /** Preview bytes held. */
  function HeldBytes(s: Stored): nat
  {
    DataLen(s.request.text) + DataLen(s.request.base64) + DataLen(s.response.text) + DataLen(s.response.base64)
  }

  /** What they inflate to. */
  function RawBytes(s: Stored): nat
  {
    RawLen(s.request.text) + RawLen(s.request.base64) + RawLen(s.response.text) + RawLen(s.response.base64)
  }

  /** Every preview string of a flow, of both its bodies. */
  function Previews(f: Flow): seq<string> { SideStrings(f.requestBody) + SideStrings(f.responseBody) }

  function SideStrings(body: Option<BodyPreview>): seq<string>
  {
    if body.None? then []
    else (if body.value.text.Some? then [body.value.text.value] else [])
         + (if body.value.base64.Some? then [body.value.base64.value] else [])
  }

  function RawSize(c: Codec, strings: seq<string>): nat
  {
    if strings == [] then 0 else |c.encode(strings[0])| + RawSize(c, strings[1..])
  }

  function HeldSize(c: Codec, strings: seq<string>): nat
  {
    if strings == [] then 0 else |PackString(c, strings[0]).data| + HeldSize(c, strings[1..])
  }

  lemma {:induction false} SizesConcat(c: Codec, a: seq<string>, b: seq<string>)
    ensures RawSize(c, a + b) == RawSize(c, a) + RawSize(c, b)
    ensures HeldSize(c, a + b) == HeldSize(c, a) + HeldSize(c, b)
  {
    if a == [] {
      assert a + b == b;
    } else {
      assert (a + b)[1..] == a[1..] + b;
      SizesConcat(c, a[1..], b);
    }
  }

  lemma OneSize(c: Codec, s: string)
    ensures RawSize(c, [s]) == |c.encode(s)| && HeldSize(c, [s]) == |PackString(c, s).data|
  {
    assert [s][1..] == [];
  }

  lemma SideSizes(c: Codec, body: Option<BodyPreview>)
    ensures var p := PackSide(c, body, StringsOf(None), NO_FRAMES);
            && RawLen(p.text) + RawLen(p.base64) == RawSize(c, SideStrings(body))
            && DataLen(p.text) + DataLen(p.base64) == HeldSize(c, SideStrings(body)) <= RawSize(c, SideStrings(body))
  {
    if body.Some? {
      var b := body.value;
      if b.text.Some? { OneSize(c, b.text.value); }
      if b.base64.Some? { OneSize(c, b.base64.value); }
      SizesConcat(c, if b.text.Some? then [b.text.value] else [], if b.base64.Some? then [b.base64.value] else []);
    }
  }

  /** The sizes counted are those of every preview string, of both bodies. */
  lemma PackedSizes(c: Codec, f: Flow)
    ensures RawBytes(Pack(c, f)) == RawSize(c, Previews(f))
    ensures HeldBytes(Pack(c, f)) == HeldSize(c, Previews(f)) <= RawSize(c, Previews(f))
  {
    SideSizes(c, f.requestBody);
    SideSizes(c, f.responseBody);
    SizesConcat(c, SideStrings(f.requestBody), SideStrings(f.responseBody));
  }

  function RawOf(c: Codec): Flow -> nat { f => RawSize(c, Previews(f)) }

  function HeldOf(c: Codec): Flow -> nat { f => HeldSize(c, Previews(f)) }

  /** A string worth packing is held in the smaller of its two forms. */
  lemma HeldSmallest(c: Codec, s: string)
    ensures var raw, held := c.encode(s), |PackString(c, s).data|;
            && held <= |raw|
            && (|raw| < PACK_MIN ==> held == |raw|)
            && (|raw| >= PACK_MIN && c.compress(raw).Some? ==>
                  held <= |c.compress(raw).value| && (held == |raw| || held == |c.compress(raw).value|))
  {}
}
