/** The replies on a sync connection, and how the client reads them (internal/sync/syncclient_ws.go). */
module Wire {
  import opened Options
  import opened Listing
  import opened FileIndex
  import opened SyncServer
  import opened PlanMeaning

  datatype Op = ManifestOp | AckOp | RejectOp | FileOp | OtherOp

  // A JSON message; a field the server leaves out has its zero value.
  datatype Message = Message(
    op: Op, entries: map<Path, Row>, rev: int, reason: Option<Reason>, entry: Option<Base>)

  datatype Frame = Text(message: Message) | Binary(body: Content)

  // What a binary frame says when a message is expected, if it happens to be one.
  type Decoder = Content -> Option<Message>

  // ---------- What the server sends ----------

  // Acks and rejects (putResp).
  function ResultReply(result: Result): Message {
    match result
    case Ok(rev) => Message(AckOp, map[], rev, None, None)
    case Reject(reason) => Message(RejectOp, map[], 0, Some(reason), None)
  }

  // The bytes of a stream that breaks off after `at`; the frame they are in is closed all the same.
  function Cut(content: Content, at: Option<nat>): Content {
    if at.None? || at.value >= |content| then content else content[..at.value]
  }

  // A file message carries no digest and is followed by the bytes, as far as they could be read
  // (internal/sync/ws.go:112-118).
  function FileReply(f: Fetched, cut: Option<nat>): seq<Frame> {
    match f
    case NotFound => [Text(Message(RejectOp, map[], 0, Some(NoSuchFile), None))]
    case File(rev, _, content) =>
      [Text(Message(FileOp, map[], 0, None, Some(Base(rev, NoDigest)))), Binary(Cut(content, cut))]
  }

  function ManifestReply(rows: Option<map<Path, Row>>): Message {
    match rows
    case None => Message(RejectOp, map[], 0, Some(Internal), None)
    case Some(index) => Message(ManifestOp, index, 0, None, None)
  }

  // ---------- What the client reads ----------

  // The frames waiting once a call's own reply has come in: replies nobody has read come first.
  function Arrived(inbox: seq<Frame>, own: seq<Frame>): (q: seq<Frame>)
    ensures own != [] ==> q != []
  {
    if inbox == [] then own else inbox + own
  }

  function Decoded(decode: Decoder, f: Frame): Option<Message> {
    match f
    case Text(m) => Some(m)
    case Binary(body) => decode(body)
  }

  // wsTransport.Put and Delete: whatever is not a reject is taken for an ack.
  function ResultOf(m: Message): Result {
    if m.op != RejectOp then Ok(m.rev)
    else if m.reason.None? then Ok(0)
    else Reject(m.reason.value)
  }

  datatype Delivery = Nothing | Delivery(entry: Base, content: Content)

  // wsTransport.Get: a file message, then a binary frame; and the frames left.
  function ReadFile(decode: Decoder, q: seq<Frame>): (Delivery, seq<Frame>)
    requires q != []
  {
    var m := Decoded(decode, q[0]);
    if m.None? || m.value.op != FileOp || m.value.entry.None? || |q| == 1 then (Nothing, q[1..])
    else (if q[1].Binary? then Delivery(m.value.entry.value, q[1].body) else Nothing, q[2..])
  }

  // Alone on the connection, every reply means what the server meant.
  lemma OwnReplyIsRead(decode: Decoder, result: Result, f: Fetched, cut: Option<nat>)
    ensures ResultOf(ResultReply(result)) == result
    ensures ReadFile(decode, FileReply(f, cut)) ==
            (if f.NotFound? then Nothing else Delivery(Base(f.rev, NoDigest), Cut(f.content, cut)), [])
  {
    assert FileReply(f, cut)[|FileReply(f, cut)|..] == [];
  }
}
