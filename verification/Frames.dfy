/**
 The frame protocol between wsTransport (internal/sync/syncclient_ws.go) and ServeSync
 (internal/sync/ws.go) over two first-in-first-out queues. Every frame carries the number of the call
 that caused it; the number is not on the wire, it only says whose reply a reply is.
 */
module Frames {
  datatype Op = Hello | Manifest | Put | Get | Delete

  // One call of the client; a put's content reader may fail half way.
  datatype Call = Call(op: Op, readerFails: bool)

  datatype Request = Text(id: nat, op: Op) | Binary(id: nat)

  // A manifest, ack or reject message; a file message; the bytes that follow it.
  datatype Reply = Message(id: nat) | FileHead(id: nat) | FileBody(id: nat)

  datatype ClientPc = Ready | Sending | Awaiting | AwaitingBody
  datatype ServerPc = Idle | WantsContent(id: nat)

  datatype Read = Read(call: nat, reply: nat)

  /** `next` numbers the call in progress; `taken` lists every reply frame taken and by which call. */
  datatype World = World(
    next: nat, client: ClientPc, toServer: seq<Request>, server: ServerPc, toClient: seq<Reply>, taken: seq<Read>)

  const FRESH := World(0, Ready, [], Idle, [], [])

  // Either side takes a step; the server's answer may be favourable or not.
  datatype Event = ClientStep | ServerStep(favourable: bool)

  function Returned(w: World): World {
    w.(client := Ready, next := w.next + 1)
  }

  function ClientMoves(calls: seq<Call>, w: World): World {
    if w.next >= |calls| then w
    else
      var call := calls[w.next];
      match w.client
      case Ready =>
        var sent := w.(toServer := w.toServer + [Text(w.next, call.op)]);
        if call.op == Hello then Returned(sent)
        else sent.(client := if call.op == Put then Sending else Awaiting)
      case Sending =>
        var sent := w.(toServer := w.toServer + [Binary(w.next)]);
        if call.readerFails then Returned(sent) else sent.(client := Awaiting)
      case Awaiting =>
        if w.toClient == [] then w
        else
          var f := w.toClient[0];
          var read := w.(toClient := w.toClient[1..], taken := w.taken + [Read(w.next, f.id)]);
          if call.op == Get && f.FileHead? then read.(client := AwaitingBody) else Returned(read)
      case AwaitingBody =>
        if w.toClient == [] then w
        else
          Returned(w.(toClient := w.toClient[1..], taken := w.taken + [Read(w.next, w.toClient[0].id)]))
  }

  function ServerMoves(w: World, favourable: bool): World {
    if w.toServer == [] then w
    else
      var f, rest := w.toServer[0], w.(toServer := w.toServer[1..]);
      match w.server
      case WantsContent(id) => rest.(server := Idle, toClient := w.toClient + [Message(id)])
      case Idle =>
        if f.Binary? then rest
        else match f.op
          case Hello => rest
          case Put => rest.(server := WantsContent(f.id))
          case Get =>
            rest.(toClient := w.toClient + if favourable then [FileHead(f.id), FileBody(f.id)] else [Message(f.id)])
          case _ => rest.(toClient := w.toClient + [Message(f.id)])
  }

  function Next(calls: seq<Call>, w: World, e: Event): World {
    match e
    case ClientStep => ClientMoves(calls, w)
    case ServerStep(favourable) => ServerMoves(w, favourable)
  }

  function Run(calls: seq<Call>, events: seq<Event>): World {
    if events == [] then FRESH
    else Next(calls, Run(calls, events[..|events| - 1]), events[|events| - 1])
  }

  // Puts whose content reader failed among the calls made so far.
  function Failures(calls: seq<Call>): nat {
    if calls == [] then 0
    else
      var c := calls[|calls| - 1];
      Failures(calls[..|calls| - 1]) + if c.op == Put && c.readerFails then 1 else 0
  }

  function Made(calls: seq<Call>, w: World): seq<Call> {
    if w.next <= |calls| then calls[..w.next] else calls
  }

  // ---------- Without reader failures ----------

  predicate AllHello(s: seq<Request>) {
    forall f | f in s :: f.Text? && f.op == Hello
  }

  // Some hellos the server has yet to read, then `tail`.
  predicate Greets(s: seq<Request>, tail: seq<Request>) {
    |tail| <= |s| && s[|s| - |tail|..] == tail && AllHello(s[..|s| - |tail|])
  }

  // Exactly the frames of the call in progress are under way.
  predicate InStep(calls: seq<Call>, w: World) {
    && w.next <= |calls| && (w.client != Ready ==> w.next < |calls|)
    && (forall r | r in w.taken :: r.call == r.reply)
    && var n := w.next;
    match w.client
    case Ready => w.server == Idle && w.toClient == [] && AllHello(w.toServer)
    case Sending =>
      && calls[n].op == Put && w.toClient == []
      && (|| (w.server == Idle && Greets(w.toServer, [Text(n, Put)]))
          || (w.server == WantsContent(n) && w.toServer == []))
    case Awaiting =>
      && calls[n].op != Hello
      && (|| (w.toClient == [] && w.server == Idle && calls[n].op != Put && Greets(w.toServer, [Text(n, calls[n].op)]))
          || (w.toClient == [] && w.server == Idle && calls[n].op == Put && Greets(w.toServer, [Text(n, Put), Binary(n)]))
          || (w.toClient == [] && calls[n].op == Put && w.server == WantsContent(n) && w.toServer == [Binary(n)])
          || (w.server == Idle && w.toServer == [] && w.toClient == [Message(n)])
          || (w.server == Idle && w.toServer == [] && calls[n].op == Get && w.toClient == [FileHead(n), FileBody(n)]))
    case AwaitingBody => w.server == Idle && w.toServer == [] && w.toClient == [FileBody(n)]
  }

  lemma FailuresGrow(calls: seq<Call>, n: nat)
    requires n < |calls|
    ensures Failures(calls[..n + 1]) == Failures(calls[..n]) + if calls[n].op == Put && calls[n].readerFails then 1 else 0
  {
    assert calls[..n + 1][..n] == calls[..n];
  }

  lemma GreetsMore(s: seq<Request>, tail: seq<Request>, f: Request)
    requires Greets(s, tail)
    ensures Greets(s + [f], tail + [f])
  {
    assert (s + [f])[..|s + [f]| - |tail + [f]|] == s[..|s| - |tail|];
  }

  lemma GreetsLess(s: seq<Request>, tail: seq<Request>)
    requires Greets(s, tail) && s != []
    ensures |s| > |tail| ==> s[0].Text? && s[0].op == Hello && Greets(s[1..], tail)
    ensures |s| == |tail| ==> s == tail
  {
    if |s| > |tail| {
      assert s[0] in s[..|s| - |tail|];
      assert s[1..][..|s[1..]| - |tail|] == s[..|s| - |tail|][1..];
    }
  }

  lemma ClientKeepsStep(calls: seq<Call>, w: World)
    requires InStep(calls, w) && Failures(Made(calls, ClientMoves(calls, w))) == 0
    ensures InStep(calls, ClientMoves(calls, w))
  {
    if w.next < |calls| {
      match w.client
      case Ready => CallStarts(calls, w);
      case Sending => ContentFollows(calls, w);
      case _ => ReplyArrives(calls, w);
    }
  }

  lemma CallStarts(calls: seq<Call>, w: World)
    requires InStep(calls, w) && w.next < |calls| && w.client == Ready
    ensures InStep(calls, ClientMoves(calls, w))
  {
    assert Greets(w.toServer, []);
    GreetsMore(w.toServer, [], Text(w.next, calls[w.next].op));
    assert forall f | f in w.toServer + [Text(w.next, Hello)] :: f in w.toServer || f == Text(w.next, Hello);
  }

  lemma ContentFollows(calls: seq<Call>, w: World)
    requires InStep(calls, w) && w.client == Sending && Failures(Made(calls, ClientMoves(calls, w))) == 0
    ensures InStep(calls, ClientMoves(calls, w))
  {
    FailuresGrow(calls, w.next);
    if w.server == Idle {
      GreetsMore(w.toServer, [Text(w.next, Put)], Binary(w.next));
      assert [Text(w.next, Put)] + [Binary(w.next)] == [Text(w.next, Put), Binary(w.next)];
    }
  }

  lemma ReplyArrives(calls: seq<Call>, w: World)
    requires InStep(calls, w) && (w.client == Awaiting || w.client == AwaitingBody)
    ensures InStep(calls, ClientMoves(calls, w))
  {
  }

  lemma ServerKeepsStep(calls: seq<Call>, w: World, favourable: bool)
    requires InStep(calls, w)
    ensures InStep(calls, ServerMoves(w, favourable))
  {
    if w.toServer != [] {
      assert w.client == Ready ==> w.toServer[0] in w.toServer;
      if w.client == Sending && w.server == Idle {
        GreetsLess(w.toServer, [Text(w.next, Put)]);
      } else if w.client == Awaiting && w.server == Idle {
        GreetsLess(w.toServer, if calls[w.next].op == Put then [Text(w.next, Put), Binary(w.next)]
                               else [Text(w.next, calls[w.next].op)]);
      }
    }
  }

  lemma {:induction false} StaysInStep(calls: seq<Call>, events: seq<Event>)
    requires Failures(Made(calls, Run(calls, events))) == 0
    ensures InStep(calls, Run(calls, events))
  {
    if events != [] {
      var before := Run(calls, events[..|events| - 1]);
      MadeGrows(calls, before, events[|events| - 1]);
      StaysInStep(calls, events[..|events| - 1]);
      match events[|events| - 1]
      case ClientStep => ClientKeepsStep(calls, before);
      case ServerStep(favourable) => ServerKeepsStep(calls, before, favourable);
    }
  }

  lemma MadeGrows(calls: seq<Call>, w: World, e: Event)
    ensures Failures(Made(calls, w)) <= Failures(Made(calls, Next(calls, w, e)))
  {
    if w.next < |calls| {
      FailuresGrow(calls, w.next);
    }
  }

  // ---------- Debt ----------

  // Replies in a queue, not counting the bytes after a file message.
  function Units(s: seq<Reply>): nat {
    if s == [] then 0 else Units(s[..|s| - 1]) + if s[|s| - 1].FileBody? then 0 else 1
  }

  function Asking(s: seq<Request>): nat {
    if s == [] then 0 else Asking(s[..|s| - 1]) + if s[|s| - 1].Text? && s[|s| - 1].op != Hello then 1 else 0
  }

  // A file message is followed by its bytes, and bytes follow nothing else (the first frame may be
  // bytes whose file message has been read).
  predicate Paired(s: seq<Reply>) {
    forall i | 0 <= i < |s| :: PairedAt(s, i)
  }

  predicate PairedAt(s: seq<Reply>, i: nat)
    requires i < |s|
  {
    && (s[i].FileHead? ==> i + 1 < |s| && s[i + 1].FileBody?)
    && (s[i].FileBody? && i > 0 ==> s[i - 1].FileHead?)
  }

  // Contents directly follow put requests. `content`: the first frame has to be content;
  // `sending`: the client is about to send the content of the last request.
  predicate Ordered(s: seq<Request>, content: bool, sending: bool) {
    if s == [] then content == sending
    else if content then s[0].Binary? && Ordered(s[1..], false, sending)
    else s[0].Text? && Ordered(s[1..], s[0].op == Put, sending)
  }

  function Owed(w: World): nat {
    Units(w.toClient) + Asking(w.toServer) + if w.server.WantsContent? then 1 else 0
  }

  function Expected(w: World): nat {
    if w.client == Sending || w.client == Awaiting then 1 else 0
  }

  // Every failed put leaves a reply too many, for good.
  predicate InDebt(calls: seq<Call>, w: World) {
    && w.next <= |calls| && (w.client == Sending ==> w.next < |calls| && calls[w.next].op == Put)
    && (w.client == Awaiting || w.client == AwaitingBody ==>
          w.next < |calls| && !(calls[w.next].op == Put && calls[w.next].readerFails))
    && (w.client == AwaitingBody ==> w.toClient != [] && w.toClient[0].FileBody?)
    && Paired(w.toClient) && Ordered(w.toServer, w.server.WantsContent?, w.client == Sending)
    && Owed(w) >= Expected(w) + Failures(Made(calls, w))
  }

  lemma {:induction false} OrderedMore(s: seq<Request>, content: bool, f: Request)
    ensures Ordered(s, content, false) && f.Text? ==> Ordered(s + [f], content, f.op == Put)
    ensures Ordered(s, content, true) && f.Binary? ==> Ordered(s + [f], content, false)
  {
    if s == [] {
      assert (s + [f])[1..] == [];
    } else {
      assert (s + [f])[1..] == s[1..] + [f];
      OrderedMore(s[1..], if content then false else s[0].Text? && s[0].op == Put, f);
    }
  }

  lemma AskingMore(s: seq<Request>, f: Request)
    ensures Asking(s + [f]) == Asking(s) + if f.Text? && f.op != Hello then 1 else 0
  {
    assert (s + [f])[..|s|] == s;
  }

  lemma {:induction false} AskingLess(s: seq<Request>)
    requires s != []
    ensures Asking(s) == Asking(s[1..]) + if s[0].Text? && s[0].op != Hello then 1 else 0
  {
    if |s| > 1 {
      assert s[1..][..|s[1..]| - 1] == s[..|s| - 1][1..];
      AskingLess(s[..|s| - 1]);
    }
  }

  lemma UnitsMore(s: seq<Reply>, f: Reply)
    ensures Units(s + [f]) == Units(s) + if f.FileBody? then 0 else 1
  {
    assert (s + [f])[..|s|] == s;
  }

  lemma {:induction false} UnitsLess(s: seq<Reply>)
    requires s != []
    ensures Units(s) == Units(s[1..]) + if s[0].FileBody? then 0 else 1
  {
    if |s| > 1 {
      assert s[1..][..|s[1..]| - 1] == s[..|s| - 1][1..];
      UnitsLess(s[..|s| - 1]);
    }
  }

  lemma ClientKeepsDebt(calls: seq<Call>, w: World)
    requires InDebt(calls, w)
    ensures InDebt(calls, ClientMoves(calls, w))
  {
    if w.next < |calls| {
      FailuresGrow(calls, w.next);
      match w.client
      case Ready => CallKeepsDebt(calls, w);
      case Sending => ContentKeepsDebt(calls, w);
      case _ => ReplyKeepsDebt(calls, w);
    }
  }

  lemma CallKeepsDebt(calls: seq<Call>, w: World)
    requires InDebt(calls, w) && w.next < |calls| && w.client == Ready
    requires calls[w.next].op == Hello ==> Failures(calls[..w.next + 1]) == Failures(calls[..w.next])
    ensures InDebt(calls, ClientMoves(calls, w))
  {
    OrderedMore(w.toServer, w.server.WantsContent?, Text(w.next, calls[w.next].op));
    AskingMore(w.toServer, Text(w.next, calls[w.next].op));
  }

  lemma ContentKeepsDebt(calls: seq<Call>, w: World)
    requires InDebt(calls, w) && w.client == Sending
    requires Failures(calls[..w.next + 1]) == Failures(calls[..w.next]) + if calls[w.next].readerFails then 1 else 0
    ensures InDebt(calls, ClientMoves(calls, w))
  {
    OrderedMore(w.toServer, w.server.WantsContent?, Binary(w.next));
    AskingMore(w.toServer, Binary(w.next));
  }

  lemma ReplyKeepsDebt(calls: seq<Call>, w: World)
    requires InDebt(calls, w) && (w.client == Awaiting || w.client == AwaitingBody)
    requires Failures(calls[..w.next + 1]) == Failures(calls[..w.next])
    ensures InDebt(calls, ClientMoves(calls, w))
  {
    if w.toClient != [] {
      UnitsLess(w.toClient);
      PairedLess(w.toClient);
    }
  }

  lemma PairedLess(s: seq<Reply>)
    requires Paired(s) && s != []
    ensures Paired(s[1..])
    ensures s[0].FileHead? ==> s[1..] != [] && s[1..][0].FileBody?
  {
    assert PairedAt(s, 0);
    forall i | 0 <= i < |s[1..]| ensures PairedAt(s[1..], i) {
      assert PairedAt(s, i + 1);
    }
  }

  lemma PairedMore(s: seq<Reply>, id: nat)
    requires Paired(s)
    ensures Paired(s + [Message(id)]) && Paired(s + [FileHead(id), FileBody(id)])
  {
    if s != [] {
      assert PairedAt(s, |s| - 1);
    }
    var one, two := s + [Message(id)], s + [FileHead(id), FileBody(id)];
    forall i | 0 <= i < |one| ensures PairedAt(one, i) {
      assert i < |s| ==> PairedAt(s, i);
    }
    forall i | 0 <= i < |two| ensures PairedAt(two, i) {
      assert i < |s| ==> PairedAt(s, i);
    }
  }

  lemma ServerKeepsDebt(calls: seq<Call>, w: World, favourable: bool)
    requires InDebt(calls, w)
    ensures InDebt(calls, ServerMoves(w, favourable))
  {
    if w.toServer != [] {
      AskingLess(w.toServer);
      ServerPays(w, favourable);
    }
  }

  // Whatever the server reads, it owes as many replies as before, counting those under way.
  lemma ServerPays(w: World, favourable: bool)
    requires w.toServer != [] && Paired(w.toClient) && Ordered(w.toServer, w.server.WantsContent?, w.client == Sending)
    ensures var w' := ServerMoves(w, favourable);
            && Owed(w') == Owed(w) && Paired(w'.toClient) && w.toClient <= w'.toClient
            && Ordered(w'.toServer, w'.server.WantsContent?, w.client == Sending)
  {
    var id := if w.server.WantsContent? then w.server.id else w.toServer[0].id;
    AskingLess(w.toServer);
    AnswerUnits(w.toClient, id);
    PairedMore(w.toClient, id);
  }

  lemma AnswerUnits(s: seq<Reply>, id: nat)
    ensures Units(s + [Message(id)]) == Units(s) + 1
    ensures Units(s + [FileHead(id), FileBody(id)]) == Units(s) + 1
  {
    UnitsMore(s, Message(id));
    UnitsMore(s, FileHead(id));
    UnitsMore(s + [FileHead(id)], FileBody(id));
    assert s + [FileHead(id)] + [FileBody(id)] == s + [FileHead(id), FileBody(id)];
  }

  lemma {:induction false} StaysInDebt(calls: seq<Call>, events: seq<Event>)
    ensures InDebt(calls, Run(calls, events))
  {
    if events != [] {
      StaysInDebt(calls, events[..|events| - 1]);
      var before := Run(calls, events[..|events| - 1]);
      match events[|events| - 1]
      case ClientStep => ClientKeepsDebt(calls, before);
      case ServerStep(favourable) => ServerKeepsDebt(calls, before, favourable);
    }
  }

  // ---------- Main results ----------

  // As long as no content reader has failed, every reply is read by the call that caused it, and between
  // calls nothing is under way but hellos, which have no reply.
  lemma RepliesMeetTheirCalls(calls: seq<Call>, events: seq<Event>)
    requires Failures(Made(calls, Run(calls, events))) == 0
    ensures var w := Run(calls, events);
            && (forall r | r in w.taken :: r.call == r.reply)
            && (w.client == Ready ==> w.toClient == [] && w.server == Idle && AllHello(w.toServer))
  {
    StaysInStep(calls, events);
  }

  // Between calls, once the server has read everything, the connection is clean exactly when no put's
  // content reader has failed since it was opened.
  lemma CleanIffNoReaderFailed(calls: seq<Call>, events: seq<Event>)
    requires var w := Run(calls, events); w.client == Ready && w.server == Idle && w.toServer == []
    ensures Run(calls, events).toClient == [] <==> Failures(Made(calls, Run(calls, events))) == 0
  {
    var w := Run(calls, events);
    StaysInDebt(calls, events);
    if Failures(Made(calls, w)) == 0 {
      StaysInStep(calls, events);
    }
  }
}
