/** The wire protocol: how a message becomes frames and how frames become a message. */
module Multipart {
  import opened Protocol
  import opened Json
  import Utf8

  const DELIMITER: Bytes := [0x3C, 0x49, 0x44, 0x53, 0x7C, 0x4D, 0x53, 0x47, 0x3E]

  lemma DelimiterText()
    ensures DELIMITER == Utf8.Encode("<IDS|MSG>")
  {
    var s := "<IDS|MSG>";
    Spelled(s, DELIMITER);
  }

  /** An ASCII text is encoded as its own character codes. */
  lemma {:induction false} Spelled(s: string, b: Bytes)
    requires |s| == |b| && forall i :: 0 <= i < |s| ==> s[i] as int == b[i] < 0x80
    ensures Utf8.Encode(s) == b
  {
    if s != [] {
      Spelled(s[1..], b[1..]);
      assert b == [b[0]] + b[1..];
    }
  }

  // ----- printing -----

  function ParentText(parent: Option<Header>): string {
    if parent.Some? then PrintHeader(parent.value) else "{}"
  }

  /** The four signed texts of a message in frame order. */
  function Texts(m: Message<string>): seq<string> {
    [PrintHeader(m.header), ParentText(m.parentHeader), m.metadata, m.content]
  }

  function EncodeAll(t: seq<string>): seq<Bytes>
    requires |t| == 4
  {
    [Utf8.Encode(t[0]), Utf8.Encode(t[1]), Utf8.Encode(t[2]), Utf8.Encode(t[3])]
  }

  /** The frames of a message; `sign` stands for the keyed digest written in hex. */
  function Frames(m: Message<string>, sign: Bytes -> string): seq<Bytes> {
    var b := EncodeAll(Texts(m));
    m.zmqIdentities + [DELIMITER] + [Utf8.Encode(sign(b[0] + b[1] + b[2] + b[3]))] + b + m.buffers
  }

  class Digester {
    var fed: Bytes

    constructor ()
      ensures fed == []
    {
      fed := [];
    }

    method Update(bytes: Bytes)
      modifies this
      ensures fed == old(fed) + bytes
    {
      fed := fed + bytes;
    }
  }

  /** The digest over the four texts, fed one after the other. */
  method Digest(body: seq<Bytes>, sign: Bytes -> string) returns (signature: string)
    requires |body| == 4
    ensures signature == sign(body[0] + body[1] + body[2] + body[3])
  {
    var digester := new Digester();
    digester.Update(body[0]);
    digester.Update(body[1]);
    digester.Update(body[2]);
    digester.Update(body[3]);
    assert digester.fed == body[0] + body[1] + body[2] + body[3];
    signature := sign(digester.fed);
  }

  method IntoMultipart(m: Message<string>, sign: Bytes -> string) returns (frames: seq<Bytes>)
    ensures frames == Frames(m, sign)
  {
    var header := PrintHeader(m.header);
    var parentHeader := ParentText(m.parentHeader);
    var body := EncodeAll([header, parentHeader, m.metadata, m.content]);
    var signature := Digest(body, sign);
    frames := m.zmqIdentities + [DELIMITER] + [Utf8.Encode(signature)] + body + m.buffers;
  }

  lemma Positions(ids: seq<Bytes>, d: Bytes, signature: Bytes, b: seq<Bytes>, buffers: seq<Bytes>)
    requires |b| == 4
    ensures var n, f := |ids|, ids + [d] + [signature] + b + buffers;
            && |f| == n + 6 + |buffers|
            && f[..n] == ids && f[n] == d && f[n + 1] == signature
            && f[n + 2] == b[0] && f[n + 3] == b[1] && f[n + 4] == b[2] && f[n + 5] == b[3]
            && f[n + 6..] == buffers
  {
  }

  /** The frame after the delimiter signs exactly the four frames after it, in their order. */
  lemma SignatureCoversTexts(m: Message<string>, sign: Bytes -> string)
    ensures var n, f := |m.zmqIdentities|, Frames(m, sign);
            && |f| == n + 6 + |m.buffers|
            && f[n] == DELIMITER
            && f[n + 1] == Utf8.Encode(sign(f[n + 2] + f[n + 3] + f[n + 4] + f[n + 5]))
  {
    var b := EncodeAll(Texts(m));
    Positions(m.zmqIdentities, DELIMITER, Utf8.Encode(sign(b[0] + b[1] + b[2] + b[3])), b, m.buffers);
  }

  /** Where everything stands: identities, delimiter, signature, header, parent header (an empty object for none),
      metadata, content, buffers. */
  lemma FrameLayout(m: Message<string>, sign: Bytes -> string)
    ensures var n, f := |m.zmqIdentities|, Frames(m, sign);
            && |f| == n + 6 + |m.buffers|
            && f[..n] == m.zmqIdentities
            && f[n] == Utf8.Encode("<IDS|MSG>")
            && f[n + 2] == Utf8.Encode(PrintHeader(m.header))
            && f[n + 3] == Utf8.Encode(if m.parentHeader.Some? then PrintHeader(m.parentHeader.value) else "{}")
            && f[n + 4] == Utf8.Encode(m.metadata)
            && f[n + 5] == Utf8.Encode(m.content)
            && f[n + 6..] == m.buffers
  {
    DelimiterText();
    var b := EncodeAll(Texts(m));
    Positions(m.zmqIdentities, DELIMITER, Utf8.Encode(sign(b[0] + b[1] + b[2] + b[3])), b, m.buffers);
  }

  /** What any reader of JSON finds in the header's frame, and in that of a parent. */
  lemma HeaderFrames(m: Message<string>, sign: Bytes -> string)
    ensures var n, f := |m.zmqIdentities|, Frames(m, sign);
            && |f| >= n + 6
            && HoldsHeader(f[n + 2], m.header)
            && (m.parentHeader.Some? ==> HoldsHeader(f[n + 3], m.parentHeader.value))
  {
    FrameLayout(m, sign);
    HeaderFrame(m.header);
    if m.parentHeader.Some? {
      HeaderFrame(m.parentHeader.value);
    }
  }

  predicate HoldsHeader(frame: Bytes, h: Header) {
    var text := Utf8.Decode(frame);
    text.Some? &&
    ReadObject(text.value) == Some([
      ("msg_id", h.msgId), ("session", h.session), ("username", h.username),
      ("date", h.date), ("msg_type", h.msgType), ("version", h.version)])
  }

  lemma HeaderFrame(h: Header)
    ensures HoldsHeader(Utf8.Encode(PrintHeader(h)), h)
  {
    Utf8.DecodeEncode(PrintHeader(h));
    HeaderHasItsMembers(h);
  }

  // ----- reading -----

  /** What `parse_variant` makes of a content text. */
  datatype Content<+C> = Content(value: C) | UnknownType | Malformed

  /** `Abort` is an `unwrap` that fails: a missing frame, bytes that are no text, or text that is no JSON. */
  datatype Incoming<+C> = Received(message: Message<C>) | Unknown | Abort

  /** The parsers behind `serde_json::from_str`: for a header, an optional header, metadata and content. */
  datatype Parsers<C> = Parsers(
    header: string -> Option<Header>,
    optionalHeader: string -> Option<Option<Header>>,
    isJson: string -> bool,
    content: (string, string) -> Content<C>)

  /** What is asked of a reader of headers: it reads back what was printed. */
  ghost predicate ReadsHeaders<C(!new)>(parsers: Parsers<C>) {
    && (forall h :: parsers.header(PrintHeader(h)) == Some(h))
    && (forall h :: parsers.optionalHeader(PrintHeader(h)) == Some(Some(h)))
  }

  /** The frames before the first delimiter, and those after it. */
  function Split(frames: seq<Bytes>): (seq<Bytes>, seq<Bytes>) {
    if frames == [] then ([], [])
    else if frames[0] == DELIMITER then ([], frames[1..])
    else
      var (ids, rest) := Split(frames[1..]);
      ([frames[0]] + ids, rest)
  }

  /** A parent header: the empty object stands for none, before any parser sees it. */
  function ReadParent<C>(s: string, parsers: Parsers<C>): Option<Option<Header>> {
    if s == "{}" then Some(None) else parsers.optionalHeader(s)
  }

  /** The message after the delimiter: a signature, which nothing compares, four texts and the buffers. */
  function Interpret<C>(ids: seq<Bytes>, rest: seq<Bytes>, parsers: Parsers<C>): Incoming<C> {
    if |rest| < 5 then Abort
    else
      var signature, h, p := Utf8.Decode(rest[0]), Utf8.Decode(rest[1]), Utf8.Decode(rest[2]);
      var metadata, c := Utf8.Decode(rest[3]), Utf8.Decode(rest[4]);
      if signature.None? || h.None? || p.None? || metadata.None? || c.None? then Abort
      else
        var header, parent := parsers.header(h.value), ReadParent(p.value, parsers);
        if header.None? || parent.None? || !parsers.isJson(metadata.value) then Abort
        else
          match parsers.content(header.value.msgType, c.value)
          case Malformed => Abort
          case UnknownType => Unknown
          case Content(value) =>
            Received(Message(ids, header.value, parent.value, metadata.value, value, rest[5..]))
  }

  function Read<C>(frames: seq<Bytes>, parsers: Parsers<C>): Incoming<C> {
    var (ids, rest) := Split(frames);
    Interpret(ids, rest, parsers)
  }

  /** The iterator that `recv` consumes frame by frame. */
  class FrameIterator {
    var left: seq<Bytes>

    constructor (frames: seq<Bytes>)
      ensures left == frames
    {
      left := frames;
    }

    method Next() returns (frame: Option<Bytes>)
      modifies this
      ensures frame == if old(left) == [] then None else Some(old(left)[0])
      ensures left == if old(left) == [] then [] else old(left)[1..]
    {
      if left == [] {
        frame := None;
      } else {
        frame, left := Some(left[0]), left[1..];
      }
    }

    /** The next frame as text; `None` where the source aborts. */
    method NextString() returns (text: Option<string>)
      modifies this
      ensures text == if old(left) == [] then None else Utf8.Decode(old(left)[0])
      ensures left == if old(left) == [] then [] else old(left)[1..]
    {
      var frame := Next();
      text := if frame.Some? then Utf8.Decode(frame.value) else None;
    }
  }

  /** The frames after the delimiter, one text after the other, and then the buffers. */
  method RecvTexts<C>(it: FrameIterator, ids: seq<Bytes>, parsers: Parsers<C>) returns (r: Incoming<C>)
    modifies it
    ensures r == Interpret(ids, old(it.left), parsers)
  {
    ghost var rest := it.left;
    var signature := it.NextString();
    if signature.None? { return Abort; }
    var h := it.NextString();
    if h.None? { return Abort; }
    var header := parsers.header(h.value);
    if header.None? { return Abort; }
    var p := it.NextString();
    if p.None? { return Abort; }
    var parent := ReadParent(p.value, parsers);
    if parent.None? { return Abort; }
    var metadata := it.NextString();
    if metadata.None? || !parsers.isJson(metadata.value) { return Abort; }
    var c := it.NextString();
    if c.None? { return Abort; }
    assert it.left == rest[5..];
    match parsers.content(header.value.msgType, c.value) {
      case Malformed => return Abort;
      case UnknownType => return Unknown;
      case Content(value) =>
        return Received(Message(ids, header.value, parent.value, metadata.value, value, it.left));
    }
  }

  method Recv<C>(frames: seq<Bytes>, parsers: Parsers<C>) returns (r: Incoming<C>)
    ensures r == Read(frames, parsers)
  {
    var it := new FrameIterator(frames);
    var ids := [];
    var scanning := true;
    while scanning
      invariant scanning ==> Split(frames).0 == ids + Split(it.left).0 && Split(frames).1 == Split(it.left).1
      invariant !scanning ==> Split(frames).0 == ids && Split(frames).1 == it.left
      decreases |it.left|, scanning
    {
      var bytes := it.Next();
      if bytes.None? || bytes.value == DELIMITER {
        scanning := false;
      } else {
        ids := ids + [bytes.value];
      }
    }
    r := RecvTexts(it, ids, parsers);
  }

  // ----- the round trip -----

  lemma {:induction false} SplitAtDelimiter(ids: seq<Bytes>, rest: seq<Bytes>)
    ensures DELIMITER !in ids ==> Split(ids + [DELIMITER] + rest) == (ids, rest)
    ensures DELIMITER in ids ==> |Split(ids + [DELIMITER] + rest).0| < |ids|
  {
    var frames := ids + [DELIMITER] + rest;
    if ids != [] {
      assert frames[1..] == ids[1..] + [DELIMITER] + rest;
      SplitAtDelimiter(ids[1..], rest);
      assert [ids[0]] + ids[1..] == ids;
    } else {
      assert frames[1..] == rest;
    }
  }

  lemma ParentRoundTrip<C(!new)>(parent: Option<Header>, parsers: Parsers<C>)
    requires ReadsHeaders(parsers)
    ensures ReadParent(ParentText(parent), parsers) == Some(parent)
  {
    if parent.Some? {
      HeaderIsNotEmpty(parent.value);
    }
  }

  /** What a receiver should get from `m`: the message itself, with its content text parsed. */
  function Delivered<C>(m: Message<string>, parsers: Parsers<C>): Incoming<C> {
    match parsers.content(m.header.msgType, m.content)
    case Malformed => Abort
    case UnknownType => Unknown
    case Content(value) =>
      Received(Message(m.zmqIdentities, m.header, m.parentHeader, m.metadata, value, m.buffers))
  }

  /** Reading printed frames gives the message back exactly when no identity is the delimiter. */
  lemma FramesRoundTrip<C(!new)>(m: Message<string>, sign: Bytes -> string, parsers: Parsers<C>)
    requires ReadsHeaders(parsers) && parsers.isJson(m.metadata)
    ensures DELIMITER !in m.zmqIdentities ==> Read(Frames(m, sign), parsers) == Delivered(m, parsers)
    ensures Delivered(m, parsers).Received? ==>
              (Read(Frames(m, sign), parsers) == Delivered(m, parsers) <==> DELIMITER !in m.zmqIdentities)
  {
    var body := EncodeAll(Texts(m));
    var signature := sign(body[0] + body[1] + body[2] + body[3]);
    var rest := [Utf8.Encode(signature)] + body + m.buffers;
    assert Frames(m, sign) == m.zmqIdentities + [DELIMITER] + rest;
    SplitAtDelimiter(m.zmqIdentities, rest);
    if DELIMITER !in m.zmqIdentities {
      TextsRoundTrip(m, signature, parsers);
    } else {
      SplitIdentities(Frames(m, sign), parsers);
    }
  }

  lemma DecodeAll(t: seq<string>)
    requires |t| == 4
    ensures forall i :: 0 <= i < 4 ==> Utf8.Decode(EncodeAll(t)[i]) == Some(t[i])
  {
    Utf8.DecodeEncode(t[0]);
    Utf8.DecodeEncode(t[1]);
    Utf8.DecodeEncode(t[2]);
    Utf8.DecodeEncode(t[3]);
  }

  lemma TextsRoundTrip<C(!new)>(m: Message<string>, signature: string, parsers: Parsers<C>)
    requires ReadsHeaders(parsers) && parsers.isJson(m.metadata)
    ensures Interpret(m.zmqIdentities, [Utf8.Encode(signature)] + EncodeAll(Texts(m)) + m.buffers, parsers)
            == Delivered(m, parsers)
  {
    var texts := Texts(m);
    var rest := [Utf8.Encode(signature)] + EncodeAll(texts) + m.buffers;
    Utf8.DecodeEncode(signature);
    DecodeAll(texts);
    ParentRoundTrip(m.parentHeader, parsers);
    assert parsers.header(texts[0]) == Some(m.header);
    assert rest[5..] == m.buffers;
  }

  lemma SplitIdentities<C>(frames: seq<Bytes>, parsers: Parsers<C>)
    ensures Read(frames, parsers).Received? ==>
              Read(frames, parsers).message.zmqIdentities == Split(frames).0
  {
  }

  /** An optional header is `null` or a header. */
  function ReadOptionalHeader(s: string): Option<Option<Header>> {
    if s == "null" then Some(None)
    else
      match ReadHeader(s)
      case Some(h) => Some(Some(h))
      case None => None
  }

  /** Parsers that accept headers in the form in which they are printed. */
  function CompactParsers<C>(isJson: string -> bool, content: (string, string) -> Content<C>): Parsers<C> {
    Parsers(ReadHeader, ReadOptionalHeader, isJson, content)
  }

  /** Such parsers exist. */
  lemma CompactReadsHeaders<C(!new)>(isJson: string -> bool, content: (string, string) -> Content<C>)
    ensures ReadsHeaders(CompactParsers(isJson, content))
  {
    forall h ensures ReadHeader(PrintHeader(h)) == Some(h) && ReadOptionalHeader(PrintHeader(h)) == Some(Some(h)) {
      HeaderRoundTrip(h);
      assert PrintHeader(h)[0] == '{';
    }
  }

  /** Equal frames come from equal messages. */
  lemma FramesInjective(m: Message<string>, n: Message<string>, sign: Bytes -> string)
    requires DELIMITER !in m.zmqIdentities && DELIMITER !in n.zmqIdentities
    requires Frames(m, sign) == Frames(n, sign)
    ensures m == n
  {
    var parsers: Parsers<string> := CompactParsers(s => true, (t, s) => Content.Content(s));
    CompactReadsHeaders(parsers.isJson, parsers.content);
    FramesRoundTrip(m, sign, parsers);
    FramesRoundTrip(n, sign, parsers);
  }

  // ----- nothing is lost on the way in -----

  lemma {:induction false} SplitConserves(frames: seq<Bytes>)
    ensures DELIMITER !in Split(frames).0
    ensures frames == Split(frames).0 + (if DELIMITER in frames then [DELIMITER] else []) + Split(frames).1
    ensures DELIMITER !in frames ==> Split(frames).1 == []
  {
    if frames != [] {
      assert frames == [frames[0]] + frames[1..];
      if frames[0] != DELIMITER {
        SplitConserves(frames[1..]);
      }
    }
  }

  lemma InterpretConserves<C>(ids: seq<Bytes>, rest: seq<Bytes>, parsers: Parsers<C>)
    requires Interpret(ids, rest, parsers).Received?
    ensures var m := Interpret(ids, rest, parsers).message;
            |rest| >= 5 && m.zmqIdentities == ids && m.buffers == rest[5..] && Utf8.Encode(m.metadata) == rest[3]
  {
    Utf8.EncodeDecode(rest[3]);
  }

  lemma Around(ids: seq<Bytes>, rest: seq<Bytes>)
    requires |rest| >= 5
    ensures var n, frames := |ids|, ids + [DELIMITER] + rest;
            && frames == ids + [DELIMITER] + frames[n + 1..n + 6] + rest[5..]
            && frames[n + 4] == rest[3]
  {
    assert rest == rest[..5] + rest[5..];
    assert (ids + [DELIMITER] + rest)[|ids| + 1..|ids| + 6] == rest[..5];
  }

  /** Every frame of an accepted list is an identity, the delimiter, one of five texts or a buffer, in order. */
  lemma ReceivedConserves<C>(frames: seq<Bytes>, parsers: Parsers<C>)
    requires Read(frames, parsers).Received?
    ensures var m := Read(frames, parsers).message;
            var n := |m.zmqIdentities|;
            && DELIMITER !in m.zmqIdentities
            && |frames| == n + 6 + |m.buffers|
            && frames == m.zmqIdentities + [DELIMITER] + frames[n + 1..n + 6] + m.buffers
            && Utf8.Encode(m.metadata) == frames[n + 4]
  {
    var (ids, rest) := Split(frames);
    SplitConserves(frames);
    InterpretConserves(ids, rest, parsers);
    Around(ids, rest);
  }

  function ReadAs<T>(frame: Bytes, parse: string -> Option<T>): Option<T> {
    match Utf8.Decode(frame)
    case None => None
    case Some(text) => parse(text)
  }

  /** The frames behind a delimiter at `n` hold what is in `m`, each in its place. */
  ghost predicate Holds<C>(frames: seq<Bytes>, n: nat, m: Message<C>, parsers: Parsers<C>) {
    && |frames| >= n + 6
    && m.zmqIdentities == frames[..n] && m.buffers == frames[n + 6..]
    && Utf8.Decode(frames[n + 1]).Some?
    && ReadAs(frames[n + 2], parsers.header) == Some(m.header)
    && (if Utf8.Decode(frames[n + 3]) == Some("{}") then m.parentHeader == None
        else ReadAs(frames[n + 3], parsers.optionalHeader) == Some(m.parentHeader))
    && Utf8.Decode(frames[n + 4]) == Some(m.metadata) && parsers.isJson(m.metadata)
    && Utf8.Decode(frames[n + 5]).Some?
    && parsers.content(m.header.msgType, Utf8.Decode(frames[n + 5]).value) == Content.Content(m.content)
  }

  /** Exactly which message comes out of a list of frames: the one whose parts stand around the first delimiter. */
  lemma ReceivedIff<C>(frames: seq<Bytes>, n: nat, m: Message<C>, parsers: Parsers<C>)
    requires n < |frames| && frames[n] == DELIMITER && DELIMITER !in frames[..n]
    ensures Read(frames, parsers) == Received(m) <==> Holds(frames, n, m, parsers)
  {
    var rest := frames[n + 1..];
    assert frames == frames[..n] + [DELIMITER] + rest;
    SplitAtDelimiter(frames[..n], rest);
    if |rest| >= 5 {
      assert rest[5..] == frames[n + 6..];
      assert rest[0] == frames[n + 1] && rest[1] == frames[n + 2] && rest[2] == frames[n + 3];
      assert rest[3] == frames[n + 4] && rest[4] == frames[n + 5];
    }
  }

  /** Frames without a delimiter, or with too few frames after it, abort. */
  lemma IncompleteAborts<C>(frames: seq<Bytes>, parsers: Parsers<C>)
    requires DELIMITER !in frames || |Split(frames).1| < 5
    ensures Read(frames, parsers) == Abort
  {
    SplitConserves(frames);
  }

  // ----- the shell's messages -----

  /** `ShellRequest::parse_variant`; `isBody` says which texts parse as the body that a type asks for. */
  function ShellContent(msgType: string, body: string, isBody: (string, string) -> bool): Content<ShellRequest> {
    match ParseShell(msgType, body)
    case None => UnknownType
    case Some(KernelInfo) => Content.Content(KernelInfo)
    case Some(request) => if isBody(msgType, body) then Content.Content(request) else Malformed
  }

  /** The shell knows three types of requests, and passes over all others. */
  lemma ShellTypes(msgType: string, body: string, isBody: (string, string) -> bool)
    ensures ShellContent(msgType, body, isBody) ==
            match msgType
            case "execute_request" => if isBody(msgType, body) then Content.Content(Execute(body)) else Malformed
            case "is_complete_request" => if isBody(msgType, body) then Content.Content(IsComplete(body)) else Malformed
            case "kernel_info_request" => Content.Content(KernelInfo)
            case _ => UnknownType
  {
  }

  /** Every request that reaches the shell has the content its own type announces, so it has a reply type. */
  lemma ReceivedIsParsed(frames: seq<Bytes>, parsers: Parsers<ShellRequest>, isBody: (string, string) -> bool)
    requires forall msgType, body :: parsers.content(msgType, body) == ShellContent(msgType, body, isBody)
    requires Read(frames, parsers).Received?
    ensures var m := Read(frames, parsers).message;
            Parsed(m) && ShellReplyType(m.header.msgType).Some?
  {
  }
}
