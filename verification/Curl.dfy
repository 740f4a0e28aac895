/**
 * Printing a captured request as a cURL command (src/inspector/curl.ts), and reading the
 * command back as a shell would: sections 2.2.1 and 2.2.2 of the POSIX.1-2017 Shell
 * Command Language.
 */
module Curl {
  import opened Wrappers
  import opened Proto
  import opened Letters

  /* ------------------------------ the shell ----------------------------- */

  datatype Mode = Unquoted | Escaped | SingleQuoted

  /** The words read so far, the word being read, and how the next character reads. */
  datatype Lexer = Rejected | Lexer(words: seq<string>, word: Option<string>, mode: Mode)

  /** Characters that mean themselves outside quotes, wherever they stand in a word. */
  predicate Plain(c: char)
  {
    || 'a' <= c <= 'z' || 'A' <= c <= 'Z' || '0' <= c <= '9'
    || c == '-' || c == '_' || c == '.' || c == '%' || c == '+' || c == '^' || c == '!'
  }

  /** Characters that mean themselves outside quotes unless they start a word. */
  predicate PlainInside(c: char) { Plain(c) || c == '#' || c == '~' }

  function Text(word: Option<string>): string { if word.Some? then word.value else "" }

  /** End the word being read, if there is one. */
  function Delimited(l: Lexer): Lexer
    requires l.Lexer?
  {
    if l.word.Some? then Lexer(l.words + [l.word.value], None, Unquoted) else l.(mode := Unquoted)
  }

  /**
   * One character. A character that would start an expansion, an operator or a comment,
   * or end the command, is rejected, so that an accepted command reads the same whatever
   * variables, files and jobs the shell has; so is NUL, which no argument can hold.
   */
  function Step(l: Lexer, c: char): Lexer
  {
    if l.Rejected? || c == '\0' then Rejected
    else
      match l.mode
      case SingleQuoted =>
        if c == '\'' then l.(mode := Unquoted) else l.(word := Some(Text(l.word) + [c]))
      case Escaped =>
        if c == '\n' then l.(mode := Unquoted)
        else l.(word := Some(Text(l.word) + [c]), mode := Unquoted)
      case Unquoted =>
        if c == '\'' then l.(word := Some(Text(l.word)), mode := SingleQuoted)
        else if c == '\\' then l.(mode := Escaped)
        else if c == ' ' || c == '\t' then Delimited(l)
        else if Plain(c) || (l.word.Some? && PlainInside(c)) then l.(word := Some(Text(l.word) + [c]))
        else Rejected
  }

  function Lex(l: Lexer, s: string): Lexer
    decreases |s|
  {
    if s == "" then l else Lex(Step(l, s[0]), s[1..])
  }

  const START := Lexer([], None, Unquoted)

  /** The argument list a shell makes of a command, or nothing if it is not a plain one. */
  function Words(s: string): Option<seq<string>>
  {
    var l := Lex(START, s);
    if l.Rejected? || !l.mode.Unquoted? then None else Some(Delimited(l).words)
  }

  lemma {:induction false} LexConcat(l: Lexer, a: string, b: string)
    ensures Lex(l, a + b) == Lex(Lex(l, a), b)
    decreases |a|
  {
    if a == "" {
      assert a + b == b;
    } else {
      assert (a + b)[1..] == a[1..] + b;
      LexConcat(Step(l, a[0]), a[1..], b);
    }
  }

  /* ----------------------------- the printer ---------------------------- */

  predicate NoNul(s: string) { '\0' !in s }

  /** Each `'` leaves the quotes, stands escaped, and enters them again. */
  function Escape(s: string): string
  {
    if s == "" then ""
    else (if s[0] == '\'' then "'\\''" else [s[0]]) + Escape(s[1..])
  }

  function Quote(s: string): string { "'" + Escape(s) + "'" }

  const SEPARATOR := " \\\n  "

  function Join(parts: seq<string>): string
  {
    if parts == [] then "" else if |parts| == 1 then parts[0] else parts[0] + SEPARATOR + Join(parts[1..])
  }

  /** Headers of the connection the request arrived on, and the count curl makes itself. */
  const CONNECTION_HEADERS: set<string> := {
    "host", "connection", "proxy-connection", "keep-alive", "transfer-encoding", "upgrade", "te", "trailer",
    "content-length" }

  predicate Exported(h: Header)
  {
    !(h.name != "" && h.name[0] == ':') && Lower(h.name) !in CONNECTION_HEADERS
  }

  /** What concerns one connection only (section 7.6.1 of RFC 9110), and what curl makes itself. */
  predicate NotTheRequests(name: string)
  {
    || SameLetters(name, "connection") || SameLetters(name, "proxy-connection") || SameLetters(name, "keep-alive")
    || SameLetters(name, "te") || SameLetters(name, "trailer") || SameLetters(name, "transfer-encoding")
    || SameLetters(name, "upgrade") || SameLetters(name, "host") || SameLetters(name, "content-length")
  }

  lemma NamedIff(name: string, known: string)
    requires Lower(known) == known
    ensures Lower(name) == known <==> SameLetters(name, known)
  {
    LowerIffSameLetters(name, known);
  }

  /** Every other header is exported, save pseudo-headers, whatever case it is written in. */
  lemma ExportedIff(h: Header)
    ensures Exported(h) <==> (h.name == "" || h.name[0] != ':') && !NotTheRequests(h.name)
  {
    var n := h.name;
    NamedIff(n, "connection"); NamedIff(n, "proxy-connection"); NamedIff(n, "keep-alive");
    NamedIff(n, "te"); NamedIff(n, "trailer"); NamedIff(n, "transfer-encoding");
    NamedIff(n, "upgrade"); NamedIff(n, "host"); NamedIff(n, "content-length");
  }

  function Kept(headers: seq<Header>): seq<Header>
  {
    if headers == [] then [] else (if Exported(headers[0]) then [headers[0]] else []) + Kept(headers[1..])
  }

  predicate Compressed(headers: seq<Header>)
  {
    exists i :: 0 <= i < |headers| && Lower(headers[i].name) == "accept-encoding"
  }

  function HeaderText(h: Header): string { h.name + ": " + h.value }

  /** The body that goes along: text, and not empty. */
  function BodyText(f: Flow): Option<string>
  {
    if f.requestBody.Some? && f.requestBody.value.text.Some? && f.requestBody.value.text.value != ""
    then f.requestBody.value.text else None
  }

  /** One option of the command: its bare words, and the value that goes quoted. */
  datatype Piece = Piece(bare: seq<string>, value: Option<string>)

  function HeaderPieces(headers: seq<Header>): seq<Piece>
  {
    seq(|headers|, i requires 0 <= i < |headers| => Piece(["-H"], Some(HeaderText(headers[i]))))
  }

  function RequestPiece(f: Flow, url: string): Piece { Piece(["curl", "-X", f.verb], Some(url)) }

  function SqueezePieces(headers: seq<Header>): seq<Piece>
  {
    if Compressed(headers) then [Piece(["--compressed"], None)] else []
  }

  function DataPieces(f: Flow): seq<Piece>
  {
    if BodyText(f).Some? then [Piece(["--data-raw"], BodyText(f))] else []
  }

  /** The command as it is meant, before it is printed. */
  function Pieces(f: Flow, url: string): seq<Piece>
  {
    var headers := Kept(f.requestHeaders);
    [RequestPiece(f, url)] + SqueezePieces(headers) + HeaderPieces(headers) + DataPieces(f)
  }

  function PieceArgs(p: Piece): seq<string>
  {
    p.bare + (if p.value.Some? then [p.value.value] else [])
  }

  function Args(pieces: seq<Piece>): seq<string>
  {
    if pieces == [] then [] else PieceArgs(pieces[0]) + Args(pieces[1..])
  }

  function Spaced(words: seq<string>): string
  {
    if words == [] then "" else if |words| == 1 then words[0] else words[0] + " " + Spaced(words[1..])
  }

  /** A piece as printed. */
  function Printed(p: Piece): string
  {
    if p.value.Some? then Spaced(p.bare) + " " + Quote(p.value.value) else Spaced(p.bare)
  }

  function PrintedAll(pieces: seq<Piece>): seq<string>
  {
    seq(|pieces|, i requires 0 <= i < |pieces| => Printed(pieces[i]))
  }

  /** No argument a shell passes can hold a NUL. */
  ghost predicate Passable(f: Flow, url: string)
  {
    && NoNul(url) && (forall h <- f.requestHeaders :: NoNul(HeaderText(h)))
    && (BodyText(f).Some? ==> NoNul(BodyText(f).value))
  }

  /** The command as a whole. */
  function Command(f: Flow, url: string): string { Join(PrintedAll(Pieces(f, url))) }

  /**
   * Builds the command. `url` is the captured one with its default port dropped. A shell
   * splits the result into exactly the arguments meant, whatever the URL, headers and
   * body hold, if the method is a plain word to it.
   */
  method BuildCurl(f: Flow, url: string) returns (command: string)
    ensures command == Command(f, url)
    ensures Passable(f, url) && PlainWord(f.verb) ==> Words(command) == Some(Args(Pieces(f, url)))
  {
    var headers := Kept(f.requestHeaders);
    var parts := ["curl -X " + f.verb + " " + Quote(url)];
    FirstPart(f.verb, url);
    assert parts == PrintedAll([RequestPiece(f, url)]);
    if Compressed(headers) { parts := parts + ["--compressed"]; }
    var headerParts := HeaderParts(headers);
    parts := parts + headerParts;
    if BodyText(f).Some? {
      parts := parts + ["--data-raw " + Quote(BodyText(f).value)];
    }
    PiecesPrinted(f, url);
    command := Join(parts);
    if Passable(f, url) && PlainWord(f.verb) {
      PiecesPrintable(f, url);
      CommandReadsBack(Pieces(f, url));
    }
  }

  lemma PrintedConcat(a: seq<Piece>, b: seq<Piece>)
    ensures PrintedAll(a + b) == PrintedAll(a) + PrintedAll(b)
  {}

  lemma PiecesPrinted(f: Flow, url: string)
    ensures var headers := Kept(f.requestHeaders);
            var parts := PrintedAll([RequestPiece(f, url)]) + (if Compressed(headers) then ["--compressed"] else [])
                         + PrintedAll(HeaderPieces(headers));
            PrintedAll(Pieces(f, url)) ==
              if BodyText(f).Some? then parts + ["--data-raw " + Quote(BodyText(f).value)] else parts
    ensures PrintedAll([RequestPiece(f, url)]) + [] == PrintedAll([RequestPiece(f, url)])
  {
    var headers := Kept(f.requestHeaders);
    var a := [RequestPiece(f, url)];
    PrintedConcat(a, SqueezePieces(headers));
    PrintedConcat(a + SqueezePieces(headers), HeaderPieces(headers));
    PrintedConcat(a + SqueezePieces(headers) + HeaderPieces(headers), DataPieces(f));
    assert "--data-raw " == "--data-raw" + " ";
    assert PrintedAll(SqueezePieces(headers)) == if Compressed(headers) then ["--compressed"] else [];
    assert BodyText(f).Some? ==> PrintedAll(DataPieces(f)) == ["--data-raw " + Quote(BodyText(f).value)];
  }

  /** One `-H` option per header. */
  method HeaderParts(headers: seq<Header>) returns (parts: seq<string>)
    ensures parts == PrintedAll(HeaderPieces(headers))
  {
    parts := [];
    assert "-H " == "-H" + " ";
    for i := 0 to |headers|
      invariant |parts| == i
      invariant forall k :: 0 <= k < i ==> parts[k] == Printed(Piece(["-H"], Some(HeaderText(headers[k]))))
    {
      parts := parts + ["-H " + Quote(HeaderText(headers[i]))];
    }
  }

  lemma FirstPart(verb: string, url: string)
    ensures "curl -X " + verb + " " + Quote(url) == Printed(Piece(["curl", "-X", verb], Some(url)))
  {
    assert ["curl", "-X", verb][1..] == ["-X", verb] && ["-X", verb][1..] == [verb];
    assert Spaced(["-X", verb]) == "-X" + " " + verb;
    assert "curl -X " == "curl" + " " + "-X" + " ";
  }

  /* ---------------------------- reading it back ------------------------- */

  /** Quoted text is read whole, whatever it holds. */
  lemma {:induction false} EscapeReads(words: seq<string>, word: string, s: string)
    requires NoNul(s)
    ensures Lex(Lexer(words, Some(word), SingleQuoted), Escape(s)) == Lexer(words, Some(word + s), SingleQuoted)
    decreases |s|
  {
    var l := Lexer(words, Some(word), SingleQuoted);
    if s == "" {
      assert word + s == word;
    } else {
      var head := if s[0] == '\'' then "'\\''" else [s[0]];
      LexConcat(l, head, Escape(s[1..]));
      assert Lex(l, head) == Lexer(words, Some(word + [s[0]]), SingleQuoted) by { HeadReads(l, s[0]); }
      assert NoNul(s[1..]) by { assert forall c :: c in s[1..] ==> c in s; }
      EscapeReads(words, word + [s[0]], s[1..]);
      assert word + [s[0]] + s[1..] == word + s;
    }
  }

  lemma HeadReads(l: Lexer, c: char)
    requires l.Lexer? && l.mode.SingleQuoted? && l.word.Some? && c != '\0'
    ensures Lex(l, if c == '\'' then "'\\''" else [c]) == l.(word := Some(l.word.value + [c]))
  {
    if c == '\'' {
      var t := "'\\''";
      assert t[1..] == "\\''" && t[1..][1..] == "''" && t[1..][1..][1..] == "'" && t[1..][1..][1..][1..] == "";
      var a := Step(l, '\'');
      var b := Step(a, '\\');
      var d := Step(b, '\'');
      assert Lex(l, t) == Lex(a, "\\''") == Lex(b, "''") == Lex(d, "'") == Step(d, '\'');
    } else {
      assert [c][1..] == "";
    }
  }

  lemma QuoteReads(words: seq<string>, s: string)
    requires NoNul(s)
    ensures Lex(Lexer(words, None, Unquoted), Quote(s)) == Lexer(words, Some(s), Unquoted)
  {
    var l := Lexer(words, None, Unquoted);
    LexConcat(l, "'" + Escape(s), "'");
    LexConcat(l, "'", Escape(s));
    assert "'"[1..] == "";
    EscapeReads(words, "", s);
    assert "" + s == s;
  }

  lemma {:induction false} PlainReads(words: seq<string>, word: Option<string>, s: string)
    requires forall i :: 0 <= i < |s| ==> PlainInside(s[i])
    requires word.Some? || (s != "" && Plain(s[0]))
    ensures Lex(Lexer(words, word, Unquoted), s) == Lexer(words, Some(Text(word) + s), Unquoted)
    decreases |s|
  {
    if s == "" {
      assert Text(word) + s == Text(word);
    } else {
      PlainReads(words, Some(Text(word) + [s[0]]), s[1..]);
      assert Text(word) + [s[0]] + s[1..] == Text(word) + s;
    }
  }

  predicate PlainWord(s: string) { s != "" && Plain(s[0]) && forall i :: 0 <= i < |s| ==> PlainInside(s[i]) }

  predicate Printable(p: Piece)
  {
    p.bare != [] && (forall i :: 0 <= i < |p.bare| ==> PlainWord(p.bare[i])) && (p.value.Some? ==> NoNul(p.value.value))
  }

  /** A space ends the word before it. */
  lemma SpaceEnds(words: seq<string>, word: string)
    ensures Lex(Lexer(words, Some(word), Unquoted), " ") == Lexer(words + [word], None, Unquoted)
  {
    assert " "[1..] == "";
  }

  lemma FirstMoves(words: seq<string>, bare: seq<string>)
    requires |bare| > 1
    ensures words + [bare[0]] + bare[1..][..|bare| - 2] == words + bare[..|bare| - 1]
  {}

  lemma LastMoves(words: seq<string>, a: seq<string>)
    requires a != []
    ensures words + a[..|a| - 1] + [a[|a| - 1]] == words + a
  {}

  lemma {:induction false} SpacedReads(words: seq<string>, bare: seq<string>)
    requires bare != [] && forall i :: 0 <= i < |bare| ==> PlainWord(bare[i])
    ensures Lex(Lexer(words, None, Unquoted), Spaced(bare))
         == Lexer(words + bare[..|bare| - 1], Some(bare[|bare| - 1]), Unquoted)
    decreases |bare|
  {
    var l := Lexer(words, None, Unquoted);
    PlainReads(words, None, bare[0]);
    assert "" + bare[0] == bare[0];
    if |bare| == 1 {
      assert words + bare[..0] == words;
    } else {
      LexConcat(l, bare[0] + " ", Spaced(bare[1..]));
      LexConcat(l, bare[0], " ");
      SpaceEnds(words, bare[0]);
      SpacedReads(words + [bare[0]], bare[1..]);
      FirstMoves(words, bare);
    }
  }

  /** A printed piece reads as its arguments, the last one still open. */
  lemma PieceReads(words: seq<string>, p: Piece)
    requires Printable(p)
    ensures var a := PieceArgs(p);
            a != [] && Lex(Lexer(words, None, Unquoted), Printed(p))
                    == Lexer(words + a[..|a| - 1], Some(a[|a| - 1]), Unquoted)
  {
    var l := Lexer(words, None, Unquoted);
    SpacedReads(words, p.bare);
    if p.value.Some? {
      var last := p.bare[|p.bare| - 1];
      LexConcat(l, Spaced(p.bare) + " ", Quote(p.value.value));
      LexConcat(l, Spaced(p.bare), " ");
      SpaceEnds(words + p.bare[..|p.bare| - 1], last);
      assert words + p.bare[..|p.bare| - 1] + [last] == words + p.bare;
      QuoteReads(words + p.bare, p.value.value);
      assert PieceArgs(p)[..|p.bare|] == p.bare;
    } else {
      assert p.bare + [] == p.bare;
    }
  }

  /** The separator ends an argument and continues the line. */
  lemma SeparatorReads(words: seq<string>, word: string)
    ensures Lex(Lexer(words, Some(word), Unquoted), SEPARATOR) == Lexer(words + [word], None, Unquoted)
  {
    var s := SEPARATOR;
    assert s == [' ', '\\', '\n', ' ', ' '];
    assert s[1..] == ['\\', '\n', ' ', ' '] && s[1..][1..] == ['\n', ' ', ' '] && s[1..][1..][1..] == [' ', ' '];
    assert [' ', ' '][1..] == [' '] && [' '][1..] == [];
    var a := Step(Lexer(words, Some(word), Unquoted), ' ');
    var b := Step(a, '\\');
    assert Step(b, '\n') == a && Step(a, ' ') == a;
    assert Lex(a, [' ', ' ']) == Lex(a, [' ']) == Lex(a, []) == a;
    assert Lex(a, ['\\', '\n', ' ', ' ']) == Lex(b, ['\n', ' ', ' ']) == Lex(a, [' ', ' ']);
  }

  lemma {:induction false} AllRead(words: seq<string>, pieces: seq<Piece>)
    requires pieces != [] && forall i :: 0 <= i < |pieces| ==> Printable(pieces[i])
    ensures var l := Lex(Lexer(words, None, Unquoted), Join(PrintedAll(pieces)));
            l.Lexer? && l.mode.Unquoted? && Delimited(l).words == words + Args(pieces)
    decreases |pieces|
  {
    if |pieces| == 1 {
      assert pieces == [pieces[0]];
      OnlyPieceReads(words, pieces[0]);
    } else {
      var a := PieceArgs(pieces[0]);
      FirstPieceReads(words, pieces);
      AllRead(words + a, pieces[1..]);
      SeqAssociates(words, a, Args(pieces[1..]));
    }
  }

  lemma SeqAssociates(a: seq<string>, b: seq<string>, c: seq<string>)
    ensures a + b + c == a + (b + c)
  {}

  lemma OnlyPieceReads(words: seq<string>, p: Piece)
    requires Printable(p)
    ensures var l := Lex(Lexer(words, None, Unquoted), Join(PrintedAll([p])));
            l.Lexer? && l.mode.Unquoted? && Delimited(l).words == words + Args([p])
  {
    var a := PieceArgs(p);
    PieceReads(words, p);
    assert [p][1..] == [] && Args([p]) == a + [] == a;
    LastMoves(words, a);
  }

  lemma FirstPieceReads(words: seq<string>, pieces: seq<Piece>)
    requires |pieces| > 1 && Printable(pieces[0])
    ensures Lex(Lexer(words, None, Unquoted), Join(PrintedAll(pieces)))
         == Lex(Lexer(words + PieceArgs(pieces[0]), None, Unquoted), Join(PrintedAll(pieces[1..])))
  {
    var l := Lexer(words, None, Unquoted);
    var parts, a := PrintedAll(pieces), PieceArgs(pieces[0]);
    assert parts[1..] == PrintedAll(pieces[1..]);
    PieceReads(words, pieces[0]);
    LexConcat(l, parts[0] + SEPARATOR, Join(parts[1..]));
    LexConcat(l, parts[0], SEPARATOR);
    SeparatorReads(words + a[..|a| - 1], a[|a| - 1]);
    LastMoves(words, a);
  }

  /** What is printed is read back as what was meant. */
  lemma {:induction false} CommandReadsBack(pieces: seq<Piece>)
    requires pieces != [] && forall i :: 0 <= i < |pieces| ==> Printable(pieces[i])
    ensures Words(Join(PrintedAll(pieces))) == Some(Args(pieces))
  {
    AllRead([], pieces);
    assert [] + Args(pieces) == Args(pieces);
  }

  /** Exactly the headers that are the request's own are kept. */
  lemma {:induction false} KeptIff(headers: seq<Header>, h: Header)
    ensures h in Kept(headers) <==> h in headers && Exported(h)
  {
    if headers != [] {
      KeptIff(headers[1..], h);
      assert headers == [headers[0]] + headers[1..];
    }
  }

  lemma PiecesPrintable(f: Flow, url: string)
    requires PlainWord(f.verb) && Passable(f, url)
    ensures forall i :: 0 <= i < |Pieces(f, url)| ==> Printable(Pieces(f, url)[i])
  {
    var headers := Kept(f.requestHeaders);
    forall i | 0 <= i < |headers| ensures NoNul(HeaderText(headers[i])) { KeptIff(f.requestHeaders, headers[i]); }
    assert PlainWord("curl") && PlainWord("-X") && PlainWord("-H");
    assert PlainWord("--compressed") && PlainWord("--data-raw");
  }

  /* ------------------------ the request, recovered ---------------------- */

  /** A request as curl takes it from its arguments. */
  datatype Request = Request(
    verb: string, url: string, compressed: bool, headers: seq<string>, bodies: seq<string>)

  /** Options from `i` on: `-H` and `--data-raw` take the next argument. */
  function Options(args: seq<string>, r: Request): Option<Request>
    decreases |args|
  {
    if args == [] then Some(r)
    else if args[0] == "--compressed" then Options(args[1..], r.(compressed := true))
    else if |args| < 2 then None
    else if args[0] == "-H" then Options(args[2..], r.(headers := r.headers + [args[1]]))
    else if args[0] == "--data-raw" then Options(args[2..], r.(bodies := r.bodies + [args[1]]))
    else None
  }

  function Understood(args: seq<string>): Option<Request>
  {
    if |args| >= 4 && args[0] == "curl" && args[1] == "-X"
    then Options(args[4..], Request(args[2], args[3], false, [], [])) else None
  }

  function HeaderTexts(headers: seq<Header>): seq<string>
  {
    seq(|headers|, i requires 0 <= i < |headers| => headers[i].name + ": " + headers[i].value)
  }

  lemma {:induction false} HeadersUnderstood(headers: seq<Header>, more: seq<string>, r: Request)
    ensures Options(Args(HeaderPieces(headers)) + more, r)
         == Options(more, r.(headers := r.headers + HeaderTexts(headers)))
    decreases |headers|
  {
    if headers == [] {
      assert [] + more == more && r.headers + [] == r.headers;
    } else {
      var ps, rest := HeaderPieces(headers), headers[1..];
      var text := HeaderText(headers[0]);
      assert ps[1..] == HeaderPieces(rest);
      var args := Args(ps) + more;
      assert args == ["-H", text] + (Args(HeaderPieces(rest)) + more);
      assert args[2..] == Args(HeaderPieces(rest)) + more;
      HeadersUnderstood(rest, more, r.(headers := r.headers + [text]));
      assert r.headers + [text] + HeaderTexts(rest) == r.headers + HeaderTexts(headers);
    }
  }

  lemma {:induction false} ArgsConcat(a: seq<Piece>, b: seq<Piece>)
    ensures Args(a + b) == Args(a) + Args(b)
  {
    if a == [] {
      assert a + b == b;
    } else {
      assert (a + b)[1..] == a[1..] + b;
      ArgsConcat(a[1..], b);
      SeqAssociates(PieceArgs(a[0]), Args(a[1..]), Args(b));
    }
  }

  lemma OneArgs(p: Piece)
    ensures Args([p]) == PieceArgs(p)
  {
    assert [p][1..] == [] && PieceArgs(p) + [] == PieceArgs(p);
  }

  /** The arguments meant, part by part. */
  lemma PiecesArgs(f: Flow, url: string)
    ensures var headers := Kept(f.requestHeaders);
            Args(Pieces(f, url)) == ["curl", "-X", f.verb, url]
              + (Args(SqueezePieces(headers)) + (Args(HeaderPieces(headers)) + Args(DataPieces(f))))
    ensures Args(SqueezePieces(Kept(f.requestHeaders)))
         == if Compressed(Kept(f.requestHeaders)) then ["--compressed"] else []
  {
    var headers := Kept(f.requestHeaders);
    var squeeze, hs, data := SqueezePieces(headers), HeaderPieces(headers), DataPieces(f);
    var head := [RequestPiece(f, url)];
    ArgsConcat(head + squeeze + hs, data);
    ArgsConcat(head + squeeze, hs);
    ArgsConcat(head, squeeze);
    OneArgs(RequestPiece(f, url));
    if squeeze != [] { OneArgs(squeeze[0]); }
    AllAssociate(Args(head), Args(squeeze), Args(hs), Args(data));
  }

  lemma AllAssociate(a: seq<string>, b: seq<string>, c: seq<string>, d: seq<string>)
    ensures a + b + c + d == a + (b + (c + d))
  {}

  /** The arguments meant are, to curl, the request. */
  lemma PiecesUnderstood(f: Flow, url: string)
    ensures Understood(Args(Pieces(f, url))) == Some(Request(
              f.verb, url, Compressed(Kept(f.requestHeaders)), HeaderTexts(Kept(f.requestHeaders)),
              if BodyText(f).Some? then [BodyText(f).value] else []))
  {
    var headers := Kept(f.requestHeaders);
    var first, rest := ["curl", "-X", f.verb, url], Args(HeaderPieces(headers)) + Args(DataPieces(f));
    var r := Request(f.verb, url, false, [], []);
    PiecesArgs(f, url);
    assert (first + (Args(SqueezePieces(headers)) + rest))[4..] == Args(SqueezePieces(headers)) + rest;
    SqueezeUnderstood(Args(SqueezePieces(headers)), rest, r);
    HeadersUnderstood(headers, Args(DataPieces(f)), r.(compressed := Compressed(headers)));
    assert [] + HeaderTexts(headers) == HeaderTexts(headers);
    DataUnderstood(f, r.(compressed := Compressed(headers), headers := HeaderTexts(headers)));
  }

  lemma SqueezeUnderstood(squeeze: seq<string>, more: seq<string>, r: Request)
    requires squeeze == [] || squeeze == ["--compressed"]
    ensures Options(squeeze + more, r) == Options(more, if squeeze == [] then r else r.(compressed := true))
  {
    assert (squeeze + more)[|squeeze|..] == more;
    assert squeeze == [] ==> squeeze + more == more;
  }

  lemma DataUnderstood(f: Flow, r: Request)
    requires r.bodies == []
    ensures Options(Args(DataPieces(f)), r) == Some(r.(bodies := if BodyText(f).Some? then [BodyText(f).value] else []))
  {
    if BodyText(f).Some? {
      OneArgs(DataPieces(f)[0]);
      assert Args(DataPieces(f)) == ["--data-raw", BodyText(f).value];
      assert Args(DataPieces(f))[2..] == [] && r.bodies + [BodyText(f).value] == [BodyText(f).value];
    }
  }

  /**
   * A shell and curl recover the request from the command: its method and URL, the name
   * and value of each exported header in order and no other, whether it accepts an
   * encoding, and its text body unless that is empty.
   */
  lemma RequestRecovered(f: Flow, url: string)
    requires Passable(f, url) && PlainWord(f.verb)
    ensures Words(Command(f, url)).Some? && Understood(Words(Command(f, url)).value).Some?
    ensures var r := Understood(Words(Command(f, url)).value).value;
            && r.verb == f.verb && r.url == url
            && |r.headers| == |Kept(f.requestHeaders)|
            && (forall i :: 0 <= i < |r.headers| ==>
                  r.headers[i] == Kept(f.requestHeaders)[i].name + ": " + Kept(f.requestHeaders)[i].value)
            && (r.compressed <==>
                  exists h :: h in f.requestHeaders && Exported(h) && Lower(h.name) == "accept-encoding")
            && (forall t :: r.bodies == [t] <==>
                  t != "" && f.requestBody.Some? && f.requestBody.value.text == Some(t))
            && |r.bodies| <= 1
  {
    PiecesPrintable(f, url);
    CommandReadsBack(Pieces(f, url));
    PiecesUnderstood(f, url);
    CompressedIff(f.requestHeaders);
  }

  lemma CompressedIff(headers: seq<Header>)
    ensures Compressed(Kept(headers)) <==>
      exists h :: h in headers && Exported(h) && Lower(h.name) == "accept-encoding"
  {
    forall h ensures h in Kept(headers) <==> h in headers && Exported(h) { KeptIff(headers, h); }
    if exists h :: h in headers && Exported(h) && Lower(h.name) == "accept-encoding" {
      var h :| h in headers && Exported(h) && Lower(h.name) == "accept-encoding";
      assert h in Kept(headers);
    }
  }

  /** Where the first colon of a header line is. */
  function ColonAt(s: string): (n: nat)
    ensures n <= |s|
  {
    if s == "" || s[0] == ':' then 0 else 1 + ColonAt(s[1..])
  }

  /** A header line is read as its name and value exactly when the name has no colon. */
  lemma HeaderReadsIff(h: Header)
    ensures var s := HeaderText(h);
            (s[..ColonAt(s)] == h.name && s[ColonAt(s)..] == ": " + h.value) <==> ':' !in h.name
  {
    ColonAfter(h.name, ": " + h.value);
    assert HeaderText(h) == h.name + (": " + h.value);
  }

  lemma {:induction false} ColonAfter(name: string, rest: string)
    requires rest != "" && rest[0] == ':'
    ensures var n := ColonAt(name + rest); n <= |name| && (n == |name| <==> ':' !in name)
  {
    if name == "" {
      assert name + rest == rest;
    } else {
      assert (name + rest)[1..] == name[1..] + rest;
      ColonAfter(name[1..], rest);
      assert name == [name[0]] + name[1..];
    }
  }

  /* ----------------------- methods the shell misreads ------------------- */

  /** A character of an HTTP method: section 5.6.2 of RFC 9110. */
  predicate TokenChar(c: char)
  {
    PlainInside(c) || c == '$' || c == '&' || c == '\'' || c == '*' || c == '`' || c == '|'
  }

  predicate Token(s: string) { s != "" && forall i :: 0 <= i < |s| ==> TokenChar(s[i]) }

  /** The third word is not `verb`, or will not be, whatever comes next. */
  predicate Astray(l: Lexer, verb: string)
  {
    || l.Rejected?
    || (|l.words| > 2 && l.words[2] != verb)
    || (|l.words| == 2 && l.word.Some? && !(l.word.value <= verb))
  }

  lemma NoPrefix(w: string, c: char, verb: string)
    requires !(w <= verb)
    ensures !(w + [c] <= verb)
  {
    assert (w + [c])[..|w|] == w;
  }

  lemma {:induction false} AstrayStays(l: Lexer, s: string, verb: string)
    requires Astray(l, verb)
    ensures Astray(Lex(l, s), verb)
    decreases |s|
  {
    if s != "" {
      if l.Lexer? && l.word.Some? && !(l.word.value <= verb) { NoPrefix(l.word.value, s[0], verb); }
      AstrayStays(Step(l, s[0]), s[1..], verb);
    }
  }

  lemma WrongNext(words: seq<string>, w: string, c: char, verb: string, mode: Mode)
    requires |words| == 2 && |w| < |verb| && c != verb[|w|]
    ensures Astray(Lexer(words, Some(w + [c]), mode), verb)
  {
    assert (w + [c])[|w|] == c;
  }

  /** Past a quote of the method, `k` characters of it read, nothing can supply that quote. */
  lemma {:induction false} QuoteIsLost(l: Lexer, verb: string, k: nat, i: nat, more: string)
    requires Token(verb) && k < i <= |verb| && verb[k] == '\''
    requires l.Lexer? && |l.words| == 2 && l.word == Some(verb[..k]) && !l.mode.Escaped?
    ensures Astray(Lex(l, verb[i..] + (" " + more)), verb)
    decreases |verb| - i
  {
    var s := verb[i..] + (" " + more);
    if i == |verb| {
      assert s == " " + more && s[0] == ' ' && s[1..] == more;
      if l.mode.SingleQuoted? { WrongNext(l.words, verb[..k], ' ', verb, SingleQuoted); }
      AstrayStays(Step(l, ' '), more, verb);
    } else {
      var c := verb[i];
      assert s[0] == c && s[1..] == verb[i + 1..] + (" " + more);
      if c == '\'' {
        QuoteIsLost(Step(l, c), verb, k, i + 1, more);
      } else {
        WrongNext(l.words, verb[..k], c, verb, l.mode);
        AstrayStays(Step(l, c), s[1..], verb);
      }
    }
  }

  /** A method that is a token but no plain word leads the shell astray. */
  lemma {:induction false} VerbLeadsAstray(l: Lexer, verb: string, k: nat, more: string)
    requires Token(verb) && k < |verb| && !PlainWord(verb)
    requires l.Lexer? && l == Lexer(l.words, if k == 0 then None else Some(verb[..k]), Unquoted) && |l.words| == 2
    requires k > 0 ==> Plain(verb[0]) && forall i :: 0 <= i < k ==> PlainInside(verb[i])
    ensures Astray(Lex(l, verb[k..] + (" " + more)), verb)
    decreases |verb| - k
  {
    var c, s := verb[k], verb[k..] + (" " + more);
    assert s[0] == c && s[1..] == verb[k + 1..] + (" " + more);
    assert verb[..k + 1] == verb[..k] + [c] && verb[..0] == "";
    if Plain(c) || (k > 0 && PlainInside(c)) {
      VerbLeadsAstray(Step(l, c), verb, k + 1, more);
    } else if c == '\'' {
      QuoteIsLost(Step(l, c), verb, k, k + 1, more);
    } else {
      AstrayStays(Step(l, c), s[1..], verb);
    }
  }

  lemma JoinHead(parts: seq<string>) returns (tail: string)
    requires parts != []
    ensures Join(parts) == parts[0] + tail
  {
    tail := if |parts| == 1 then "" else SEPARATOR + Join(parts[1..]);
  }

  lemma AstrayIsWrong(s: string, args: seq<string>)
    requires |args| > 2 && Astray(Lex(START, s), args[2])
    ensures Words(s) != Some(args)
  {}

  lemma CommandStarts(f: Flow, url: string) returns (more: string)
    ensures Command(f, url) == "curl -X " + (f.verb + (" " + more))
  {
    var tail := JoinHead(PrintedAll(Pieces(f, url)));
    FirstPart(f.verb, url);
    assert Pieces(f, url)[0] == RequestPiece(f, url);
    more := Quote(url) + tail;
    MoveParentheses("curl -X ", f.verb, " ", Quote(url), tail);
  }

  lemma MoveParentheses(a: string, b: string, c: string, d: string, e: string)
    ensures a + b + c + d + e == a + (b + (c + (d + e)))
  {}

  lemma CurlAndOption()
    ensures Lex(START, "curl -X ") == Lexer(["curl", "-X"], None, Unquoted)
  {
    var bare := ["curl", "-X"];
    assert bare[1..] == ["-X"] && Spaced(bare) == "curl" + " " + "-X";
    SpacedReads([], bare);
    assert bare[..1] == ["curl"] && [] + bare[..1] == ["curl"];
    LexConcat(START, Spaced(bare), " ");
    SpaceEnds(["curl"], "-X");
    assert "curl" + " " + "-X" + " " == "curl -X ";
    assert ["curl"] + ["-X"] == bare;
  }

  /**
   * Exactly when the copied command is the request: for every method HTTP allows, when
   * the method is a plain word to the shell, which the printer does not see to.
   */
  lemma ReadsBackIff(f: Flow, url: string)
    requires Passable(f, url) && Token(f.verb)
    ensures Words(Command(f, url)) == Some(Args(Pieces(f, url))) <==> PlainWord(f.verb)
  {
    if PlainWord(f.verb) {
      PiecesPrintable(f, url);
      CommandReadsBack(Pieces(f, url));
    } else {
      var more := CommandStarts(f, url);
      var rest := f.verb + (" " + more);
      CurlAndOption();
      LexConcat(START, "curl -X ", rest);
      VerbLeadsAstray(Lex(START, "curl -X "), f.verb, 0, more);
      assert f.verb[0..] == f.verb;
      var args := Args(Pieces(f, url));
      assert args == PieceArgs(RequestPiece(f, url)) + Args(Pieces(f, url)[1..]);
      assert args[2] == f.verb;
      AstrayIsWrong(Command(f, url), args);
    }
  }

  /** `A&B` is a method to HTTP; to the shell it is two commands. */
  lemma BareMethodBreaks(f: Flow, url: string)
    requires Passable(f, url) && f.verb == "A&B"
    ensures Token(f.verb) && Words(Command(f, url)) != Some(Args(Pieces(f, url)))
  {
    assert f.verb[1] == '&';
    ReadsBackIff(f, url);
  }
}
