/** The captured entities, with the fields some modelled operation reads (crates/nova-proto). */
module Proto {
  import opened Wrappers

  datatype Header = Header(name: string, value: string)

  datatype FlowState = Started | AwaitingResponse | Completed | Failed

  datatype BodyPreview = BodyPreview(
    size: nat, truncated: bool, mediaType: Option<string>, decodedFrom: Option<string>,
    text: Option<string>, base64: Option<string>, spilled: bool)

  /** `rest` stands for the fields that ride along unread: status, timings, sizes, ... */
  datatype Flow = Flow(
    id: string, number: nat, verb: string, scheme: string, host: string, path: string, url: string,
    process: Option<string>, state: FlowState, requestHeaders: seq<Header>,
    requestBody: Option<BodyPreview>, responseBody: Option<BodyPreview>, rest: string)

  datatype WsMessage = WsMessage(
    flowId: string, number: nat, text: Option<string>, base64: Option<string>, at: real)

  /** One message to the webview: coalesced snapshots, frames, and drop counts by flow. */
  datatype StreamBatch = StreamBatch(flows: seq<Flow>, ws: seq<WsMessage>, dropped: map<string, nat>)

  function StripBody(body: Option<BodyPreview>): Option<BodyPreview>
  {
    if body.Some? then Some(body.value.(text := None, base64 := None)) else None
  }

  /** Both previews emptied of text and base64; no other field of the flow changes. */
  function WithoutBytes(flow: Flow): (r: Flow)
    ensures r.id == flow.id && r.number == flow.number
  {
    flow.(requestBody := StripBody(flow.requestBody), responseBody := StripBody(flow.responseBody))
  }

  /**
   * The engine strips bytes before sending and the list strips them again: the second
   * time changes nothing.
   */
  lemma WithoutBytesTwice(flow: Flow)
    ensures WithoutBytes(WithoutBytes(flow)) == WithoutBytes(flow)
  {}

  /** No preview carries text or base64. */
  predicate NoBytes(flow: Flow)
  {
    && (flow.requestBody.Some? ==> flow.requestBody.value.text.None? && flow.requestBody.value.base64.None?)
    && (flow.responseBody.Some? ==> flow.responseBody.value.text.None? && flow.responseBody.value.base64.None?)
  }

  /** Bodies that differ at most in the text and base64 of their previews. */
  ghost predicate SameButBytes(a: Option<BodyPreview>, b: Option<BodyPreview>)
  {
    && (a.Some? <==> b.Some?)
    && (a.Some? ==> exists text, base64 {:trigger b.value.(text := text, base64 := base64)} ::
          a.value == b.value.(text := text, base64 := base64))
  }

  /**
   * What is sent carries no bytes, and is the flow in every other field: a flow is sent as
   * it is exactly when it carries none, and two flows are sent alike exactly when they
   * differ in nothing else.
   */
  lemma SentWithoutBytes(f: Flow, g: Flow)
    ensures NoBytes(WithoutBytes(f)) && (WithoutBytes(f) == f <==> NoBytes(f))
    ensures WithoutBytes(f) == WithoutBytes(g) <==>
      && f == g.(requestBody := f.requestBody, responseBody := f.responseBody)
      && SameButBytes(f.requestBody, g.requestBody) && SameButBytes(f.responseBody, g.responseBody)
  {
    SameSide(f.requestBody, g.requestBody);
    SameSide(f.responseBody, g.responseBody);
  }

  lemma SameSide(a: Option<BodyPreview>, b: Option<BodyPreview>)
    ensures StripBody(a) == StripBody(b) <==> SameButBytes(a, b)
  {
    if a.Some? && b.Some? && StripBody(a) == StripBody(b) {
      assert a.value == b.value.(text := a.value.text, base64 := a.value.base64);
    }
  }

  /** Rust counts a string in UTF-8 bytes, JavaScript in UTF-16 code units. */
  datatype Units = Utf8 | Utf16

  function Width(u: Units, c: char): nat
  {
    match u
    case Utf8 => if c as int < 0x80 then 1 else if c as int < 0x800 then 2 else if c as int < 0x1_0000 then 3 else 4
    case Utf16 => if c as int < 0x1_0000 then 1 else 2
  }

  function Length(u: Units, s: string): nat
  {
    if s == "" then 0 else Width(u, s[0]) + Length(u, s[1..])
  }

  /** Payload a frame carries. */
  function FrameBytes(u: Units, m: WsMessage): nat
  {
    (if m.text.Some? then Length(u, m.text.value) else 0)
    + (if m.base64.Some? then Length(u, m.base64.value) else 0)
  }

  /* ------------------------- what a length counts ----------------------- */

  /** A character as UTF-8 (section 3 of RFC 3629). */
  function Encode8(c: char): seq<int>
  {
    var n := c as int;
    if n < 0x80 then [n]
    else if n < 0x800 then [0xC0 + n / 64, 0x80 + n % 64]
    else if n < 0x1_0000 then [0xE0 + n / 64 / 64, 0x80 + n / 64 % 64, 0x80 + n % 64]
    else [0xF0 + n / 64 / 64 / 64, 0x80 + n / 64 / 64 % 64, 0x80 + n / 64 % 64, 0x80 + n % 64]
  }

  /** A character as UTF-16 (section 2.1 of RFC 2781). */
  function Encode16(c: char): seq<int>
  {
    var n := c as int;
    if n < 0x1_0000 then [n] else [0xD800 + (n - 0x1_0000) / 1024, 0xDC00 + (n - 0x1_0000) % 1024]
  }

  function Encode(u: Units, c: char): seq<int> { if u.Utf8? then Encode8(c) else Encode16(c) }

  function EncodeAll(u: Units, s: string): seq<int>
  {
    if s == "" then [] else Encode(u, s[0]) + EncodeAll(u, s[1..])
  }

  /** The character some UTF-8 starts with, by how many bytes its first byte announces. */
  function Decode8(e: seq<int>): int
    requires |e| >= 1
  {
    if e[0] < 0x80 || |e| < 2 then e[0]
    else if e[0] < 0xE0 || |e| < 3 then (e[0] - 0xC0) * 64 + (e[1] - 0x80)
    else if e[0] < 0xF0 || |e| < 4 then ((e[0] - 0xE0) * 64 + (e[1] - 0x80)) * 64 + (e[2] - 0x80)
    else (((e[0] - 0xF0) * 64 + (e[1] - 0x80)) * 64 + (e[2] - 0x80)) * 64 + (e[3] - 0x80)
  }

  /** The character some UTF-16 starts with. */
  function Decode16(e: seq<int>): int
    requires |e| >= 1
  {
    if e[0] < 0xD800 || e[0] > 0xDBFF || |e| < 2 then e[0] else 0x1_0000 + (e[0] - 0xD800) * 1024 + (e[1] - 0xDC00)
  }

  /** Each character is read back from its encoding, whatever comes after it. */
  lemma EncodedReadsBack(c: char, more: seq<int>)
    ensures Decode8(Encode8(c) + more) == c as int
    ensures Decode16(Encode16(c) + more) == c as int
  {
    var e, n := Encode8(c) + more, c as int;
    if n >= 0x1_0000 {
      var a, b := n / 64, n / 64 / 64;
      assert e[0] == 0xF0 + b / 64 && e[1] == 0x80 + b % 64 && e[2] == 0x80 + a % 64 && e[3] == 0x80 + n % 64;
      assert b == b / 64 * 64 + b % 64 && a == b * 64 + a % 64 && n == a * 64 + n % 64;
    }
  }

  /** A string's length is the number of units of its encoding. */
  lemma {:induction false} LengthIsEncoded(u: Units, s: string)
    ensures Length(u, s) == |EncodeAll(u, s)|
  {
    if s != "" { LengthIsEncoded(u, s[1..]); }
  }

  /** A frame weighs what its text and its base64 take, together. */
  lemma FrameWeighsBoth(u: Units, m: WsMessage)
    ensures FrameBytes(u, m) == |EncodeAll(u, if m.text.Some? then m.text.value else "")
                                 + EncodeAll(u, if m.base64.Some? then m.base64.value else "")|
  {
    LengthIsEncoded(u, if m.text.Some? then m.text.value else "");
    LengthIsEncoded(u, if m.base64.Some? then m.base64.value else "");
  }
}
