/**
 What a failed reading of a file to upload does to a connection: the reply nobody read stays ahead of
 all others (internal/sync/syncclient_ws.go:67-70, internal/sync/syncclient.go:82-83).
 */
module Strays {
  import opened Options
  import opened Listing
  import opened FileIndex
  import opened SyncServer
  import opened ServerRuns
  import opened ThreeWay
  import opened Wire
  import opened ClientRound
  import opened Safety
  import opened Sequences
  import Paths

  // ---------- Replies waiting ----------

  // Replies, not counting the bytes that follow a file message.
  function Units(q: seq<Frame>): nat {
    if q == [] then 0 else Units(q[..|q| - 1]) + if q[|q| - 1].Text? then 1 else 0
  }

  predicate IsFileHead(f: Frame) {
    f.Text? && f.message.op == FileOp && f.message.entry.Some?
  }

  // A file message is followed by its bytes.
  predicate Paired(q: seq<Frame>) {
    forall i | 0 <= i < |q| && IsFileHead(q[i]) :: i + 1 < |q| && q[i + 1].Binary?
  }

  lemma UnitsMore(q: seq<Frame>, f: Frame)
    ensures Units(q + [f]) == Units(q) + if f.Text? then 1 else 0
  {
    SnocInit(q, f);
  }

  lemma {:induction false} UnitsLess(q: seq<Frame>)
    requires q != []
    ensures Units(q) == Units(q[1..]) + if q[0].Text? then 1 else 0
  {
    if |q| > 1 {
      var init := q[..|q| - 1];
      assert q[1..][..|q[1..]| - 1] == init[1..] && q[1..][|q[1..]| - 1] == q[|q| - 1];
      UnitsLess(init);
    }
  }

  lemma PairedLess(q: seq<Frame>)
    requires Paired(q) && q != []
    ensures Paired(q[1..])
  {
    forall i | 0 <= i < |q[1..]| && IsFileHead(q[1..][i]) ensures i + 1 < |q[1..]| && q[1..][i + 1].Binary? {
      assert q[1..][i] == q[i + 1];
    }
  }

  // A message behind the others, alone or with the bytes of a file.
  predicate IsReply(own: seq<Frame>) {
    && (|own| == 1 || |own| == 2) && own[0].Text?
    && (|own| == 1 ==> !IsFileHead(own[0])) && (|own| == 2 ==> own[1].Binary?)
  }

  lemma ArrivedUnits(inbox: seq<Frame>, own: seq<Frame>)
    requires Paired(inbox) && IsReply(own)
    ensures Paired(Arrived(inbox, own)) && Units(Arrived(inbox, own)) == Units(inbox) + 1
  {
    var q := Arrived(inbox, own);
    assert q == inbox + own;
    UnitsMore(inbox, own[0]);
    if |own| == 2 {
      UnitsMore(inbox + [own[0]], own[1]);
      assert q == inbox + [own[0]] + [own[1]];
    } else {
      assert q == inbox + [own[0]];
    }
    forall i | 0 <= i < |q| && IsFileHead(q[i]) ensures i + 1 < |q| && q[i + 1].Binary? {
      if i < |inbox| {
        assert inbox[i] == q[i];
      }
    }
  }

  lemma AnsweredUnits(dev: Device, r: Round, result: Result)
    requires Paired(r.inbox)
    ensures var inbox := Answered(dev, r, result).0.inbox; Paired(inbox) && Units(inbox) >= Units(r.inbox)
  {
    var own := [Text(ResultReply(result))];
    ArrivedUnits(r.inbox, own);
    PairedLess(Arrived(r.inbox, own));
    UnitsLess(Arrived(r.inbox, own));
  }

  lemma ReadFileUnits(decode: Decoder, q: seq<Frame>)
    requires Paired(q) && q != []
    ensures var rest := ReadFile(decode, q).1; Paired(rest) && Units(rest) + 1 >= Units(q)
  {
    PairedLess(q);
    UnitsLess(q);
    if |q| > 1 {
      PairedLess(q[1..]);
      UnitsLess(q[1..]);
      assert q[1..][1..] == q[2..];
      assert IsFileHead(q[0]) ==> q[1].Binary?;
    }
  }

  lemma FetchUnits(dev: Device, r: Round, p: Path, target: Path)
    requires Paired(r.inbox)
    ensures var inbox := FetchTo(dev, r, p, target).inbox; Paired(inbox) && Units(inbox) >= Units(r.inbox)
  {
    var t, a := Head(r.script), Arrive(dev.cfg, r);
    var own := FileReply(Get(a.st, p, t.getFails), t.getCut);
    FileReplyIsReply(Get(a.st, p, t.getFails), t.getCut);
    ArrivedUnits(r.inbox, own);
    ReadFileUnits(dev.decode, Arrived(r.inbox, own));
  }

  lemma FileReplyIsReply(f: Fetched, cut: Option<nat>)
    ensures IsReply(FileReply(f, cut))
  {
  }

  lemma PutUnits(dev: Device, r: Round, u: Item<Local>, content: Content)
    requires Paired(r.inbox)
    ensures var (next, reply) := CallPut(dev, r, u, content);
            && Paired(next.inbox) && (Head(r.script).readFails.Some? ==> reply.None?)
            && Units(next.inbox) >= Units(r.inbox) + if BreaksOff(Head(r.script)) then 1 else 0
  {
    var t, a := Head(r.script), Arrive(dev.cfg, r);
    var out := Put(dev.cfg, a.st, PutCall(u.path, u.val.baseRev, u.val.curSha, Reader(Cut(content, t.readFails), false),
                                          dev.mode, dev.name, t.tmp, t.put));
    ArrivedUnits(r.inbox, [Text(ResultReply(out.result))]);
    AnsweredUnits(dev, a.(st := out.st), out.result);
  }

  // What an action leaves waiting, when it may have left `more` itself.
  predicate StillWaiting(before: seq<Frame>, after: seq<Frame>, more: nat) {
    Paired(after) && Units(after) >= Units(before) + more
  }

  lemma ActUnits(dev: Device, at: Path -> string, r: Round, a: Action)
    requires Paired(r.inbox)
    ensures StillWaiting(r.inbox, Act(dev, at, r, a).inbox, if LeavesReply(r, a) then 1 else 0)
  {
    match a
    case Send(u) => SendUnits(dev, at, r, u);
    case Fetch(p) => FetchUnits(dev, r, p, p);
    case Drop(d) => DropUnits(dev, r, d);
    case Remove(_) =>
    case Save(p) => FetchUnits(dev, r, p, ConflictName(p, at(p)));
  }

  lemma SendUnits(dev: Device, at: Path -> string, r: Round, u: Item<Local>)
    requires Paired(r.inbox)
    ensures StillWaiting(r.inbox, Act(dev, at, r, Send(u)).inbox, if LeavesReply(r, Send(u)) then 1 else 0)
  {
    if u.path in r.files {
      PutUnits(dev, r, u, r.files[u.path]);
      var (next, reply) := CallPut(dev, r, u, r.files[u.path]);
      FetchUnits(dev, next, u.path, ConflictName(u.path, at(u.path)));
    }
  }

  lemma DropUnits(dev: Device, r: Round, d: Item<Local>)
    requires Paired(r.inbox)
    ensures StillWaiting(r.inbox, CallDelete(dev, r, d).0.inbox, 0)
  {
    var t, b := Head(r.script), Arrive(dev.cfg, r);
    var out := Delete(b.st, DeleteCall(d.path, d.val.baseRev, dev.name, t.delete));
    AnsweredUnits(dev, b.(st := out.st), out.result);
  }

  lemma FetchAlone(dev: Device, r: Round, p: Path, target: Path)
    requires r.inbox == []
    ensures FetchTo(dev, r, p, target).inbox == []
  {
    OwnReplyIsRead(dev.decode, Ok(0), Get(Arrive(dev.cfg, r).st, p, Head(r.script).getFails), Head(r.script).getCut);
  }

  lemma PutAlone(dev: Device, r: Round, u: Item<Local>, content: Content)
    requires r.inbox == [] && !BreaksOff(Head(r.script))
    ensures CallPut(dev, r, u, content).0.inbox == []
  {
    var t, a := Head(r.script), Arrive(dev.cfg, r);
    var out := Put(dev.cfg, a.st, PutCall(u.path, u.val.baseRev, u.val.curSha, Reader(Cut(content, t.readFails), false),
                                          dev.mode, dev.name, t.tmp, t.put));
    AnsweredAlone(dev, a.(st := out.st), out.result);
  }

  lemma ActAlone(dev: Device, at: Path -> string, r: Round, a: Action)
    requires r.inbox == [] && !LeavesReply(r, a)
    ensures Act(dev, at, r, a).inbox == []
  {
    match a
    case Send(u) =>
      if u.path in r.files {
        PutAlone(dev, r, u, r.files[u.path]);
        FetchAlone(dev, CallPut(dev, r, u, r.files[u.path]).0, u.path, ConflictName(u.path, at(u.path)));
      }
    case Fetch(p) => FetchAlone(dev, r, p, p);
    case Drop(d) =>
      var t, b := Head(r.script), Arrive(dev.cfg, r);
      var out := Delete(b.st, DeleteCall(d.path, d.val.baseRev, dev.name, t.delete));
      AnsweredAlone(dev, b.(st := out.st), out.result);
    case Remove(_) =>
    case Save(p) => FetchAlone(dev, r, p, ConflictName(p, at(p)));
  }

  lemma {:induction false} PerformUnits(dev: Device, at: Path -> string, r: Round, actions: seq<Action>)
    requires r.inbox == []
    ensures var q := Perform(dev, at, r, actions).inbox; Paired(q) && Units(q) >= Failed(dev, at, r, actions)
    ensures Failed(dev, at, r, actions) == 0 ==> Perform(dev, at, r, actions).inbox == []
    decreases |actions|
  {
    if actions != [] {
      var init, last := actions[..|actions| - 1], actions[|actions| - 1];
      var mid := Perform(dev, at, r, init);
      PerformUnits(dev, at, r, init);
      ActUnits(dev, at, mid, last);
      if Failed(dev, at, r, actions) == 0 {
        ActAlone(dev, at, mid, last);
      }
    }
  }

  // A connection has an unread reply waiting exactly if reading a file to upload has broken off on it: what
  // module Frames says of frames, with their contents.
  lemma WaitingIffReaderFailed(dev: Device, at: Path -> string, r: Round, actions: seq<Action>)
    requires r.inbox == []
    ensures Perform(dev, at, r, actions).inbox == [] <==> Failed(dev, at, r, actions) == 0
  {
    PerformUnits(dev, at, r, actions);
  }

  // ---------- Going on with a reply waiting ----------

  // No reading of a file to upload breaks off.
  predicate ReadersHold(script: seq<Turn>) {
    forall t | t in script :: t.readFails.None?
  }

  lemma TailHolds(script: seq<Turn>)
    requires ReadersHold(script)
    ensures ReadersHold(Tail(script)) && Head(script).readFails.None?
  {
    if script != [] {
      assert script[0] in script && forall t | t in script[1..] :: t in script;
    }
  }

  lemma CallScripts(dev: Device, r: Round, u: Item<Local>, c: Content, d: Item<Local>, p: Path, target: Path)
    ensures CallPut(dev, r, u, c).0.script == Tail(r.script)
    ensures CallDelete(dev, r, d).0.script == Tail(r.script)
    ensures FetchTo(dev, r, p, target).script == Tail(r.script)
  {
  }

  lemma ActScript(dev: Device, at: Path -> string, r: Round, a: Action)
    ensures var script := Act(dev, at, r, a).script;
            script == r.script || script == Tail(r.script) || script == Tail(Tail(r.script))
  {
    var none := Item("", Local(0, 0, NoDigest, NoDigest, Modified));
    match a
    case Send(u) =>
      if u.path in r.files {
        CallScripts(dev, r, u, r.files[u.path], none, "", "");
        CallScripts(dev, CallPut(dev, r, u, r.files[u.path]).0, none, [], none, u.path, ConflictName(u.path, at(u.path)));
      }
    case Fetch(p) => CallScripts(dev, r, none, [], none, p, p);
    case Drop(d) => CallScripts(dev, r, none, [], d, "", "");
    case Remove(_) =>
    case Save(p) => CallScripts(dev, r, none, [], none, p, ConflictName(p, at(p)));
  }

  lemma ActUsesUp(dev: Device, at: Path -> string, r: Round, a: Action)
    requires ReadersHold(r.script)
    ensures ReadersHold(Act(dev, at, r, a).script) && !LeavesReply(r, a)
  {
    ActScript(dev, at, r, a);
    TailHolds(r.script);
    TailHolds(Tail(r.script));
  }

  lemma {:induction false} PerformUsesUp(dev: Device, at: Path -> string, r: Round, actions: seq<Action>)
    requires ReadersHold(r.script)
    ensures ReadersHold(Perform(dev, at, r, actions).script) && Failed(dev, at, r, actions) == 0
    decreases |actions|
  {
    if actions != [] {
      PerformUsesUp(dev, at, r, actions[..|actions| - 1]);
      ActUsesUp(dev, at, Perform(dev, at, r, actions[..|actions| - 1]), actions[|actions| - 1]);
    }
  }

  // Whatever comes of the replies, the server keeps its invariant.
  lemma ActKeepsServer(dev: Device, at: Path -> string, r: Round, a: Action)
    requires Consistent(r.st)
    ensures Consistent(Act(dev, at, r, a).st)
  {
    match a
    case Send(u) =>
      if u.path in r.files {
        PutKeepsServer(dev, r, u, r.files[u.path]);
        FetchKeepsServer(dev, CallPut(dev, r, u, r.files[u.path]).0, u.path, ConflictName(u.path, at(u.path)));
      }
    case Fetch(p) => FetchKeepsServer(dev, r, p, p);
    case Drop(d) => DropKeepsServer(dev, r, d);
    case Remove(_) =>
    case Save(p) => FetchKeepsServer(dev, r, p, ConflictName(p, at(p)));
  }

  lemma PutKeepsServer(dev: Device, r: Round, u: Item<Local>, content: Content)
    requires Consistent(r.st)
    ensures Consistent(CallPut(dev, r, u, content).0.st)
  {
    var t, b := Head(r.script), Arrive(dev.cfg, r);
    RunKeepsConsistent(dev.cfg, r.st, t.others);
    PutKeepsConsistent(dev.cfg, b.st, PutCall(u.path, u.val.baseRev, u.val.curSha, Reader(Cut(content, t.readFails), false),
                                              dev.mode, dev.name, t.tmp, t.put));
  }

  lemma DropKeepsServer(dev: Device, r: Round, d: Item<Local>)
    requires Consistent(r.st)
    ensures Consistent(CallDelete(dev, r, d).0.st)
  {
    var t, b := Head(r.script), Arrive(dev.cfg, r);
    RunKeepsConsistent(dev.cfg, r.st, t.others);
    DeleteKeepsConsistent(b.st, DeleteCall(d.path, d.val.baseRev, dev.name, t.delete));
  }

  lemma FetchKeepsServer(dev: Device, r: Round, p: Path, target: Path)
    requires Consistent(r.st)
    ensures Consistent(FetchTo(dev, r, p, target).st)
  {
    RunKeepsConsistent(dev.cfg, r.st, Head(r.script).others);
  }

  lemma {:induction false} PerformKeepsServer(dev: Device, at: Path -> string, r: Round, actions: seq<Action>)
    requires Consistent(r.st)
    ensures Consistent(Perform(dev, at, r, actions).st)
    decreases |actions|
  {
    if actions != [] {
      PerformKeepsServer(dev, at, r, actions[..|actions| - 1]);
      ActKeepsServer(dev, at, Perform(dev, at, r, actions[..|actions| - 1]), actions[|actions| - 1]);
    }
  }

  ghost predicate Continues(dev: Device, r: Round, files: map<Path, Content>, script: seq<Turn>,
                            at: Path -> string, actions: seq<Action>) {
    var end := Perform(dev, at, r.(files := files, script := script), actions);
    Sound(end.base, end.st)
  }

  // Whatever else happens on the connection without another failed reading, the baseline stays sound. This is
  // about the connection: one round with its one plan need not run into anything.
  ghost predicate SafeToGoOn(dev: Device, r: Round) {
    forall files, script, at, actions | ReadersHold(script) :: Continues(dev, r, files, script, at, actions)
  }

  // An upload the server refuses to look at, and one that is lost on the way.
  const REFUSE := CALM.(put := PutFaults(true, false, false, false, false, false))
  const LOSE := CALM.(fate := RequestLost)

  function Upload(p: Path): Item<Local> {
    Item(p, Local(0, 0, NoDigest, Sha([]), Modified))
  }

  // Taken by an upload for its own reply, does this frame count as an ack?
  predicate Acks(dev: Device, f: Frame) {
    var m := Decoded(dev.decode, f);
    m.Some? && ResultOf(m.value).Ok?
  }

  // The turns of an upload whose reply is frame f: when it reads a conflict it goes on to fetch.
  function Turns(dev: Device, f: Frame, first: Turn): seq<Turn> {
    var m := Decoded(dev.decode, f);
    if m.Some? && ResultOf(m.value) == Reject(Conflict) then [first, LOSE] else [first]
  }

  function NotesAfter(dev: Device, f: Frame, notes: map<Path, Reason>, p: Path): map<Path, Reason> {
    match Decoded(dev.decode, f)
    case None => notes
    case Some(m) =>
      match ResultOf(m)
      case Ok(_) => notes
      case Reject(reason) => if reason == Conflict then notes else notes[p := reason]
  }

  function Asked(dev: Device, p: Path, turn: Turn): PutCall {
    PutCall(p, 0, Sha([]), Reader([], false), dev.mode, dev.name, turn.tmp, turn.put)
  }

  // One upload, put as the server sees it: its reply goes to the end, the client goes by the first frame.
  lemma Uploads(dev: Device, at: Path -> string, r: Round, p: Path, turn: Turn, later: seq<Turn>)
    requires r.inbox != [] && p in r.files && r.files[p] == [] && turn.others == [] && turn.fate == Delivered
    requires turn.readFails.None? && r.script == Turns(dev, r.inbox[0], turn) + later
    ensures var out, r' := Put(dev.cfg, r.st, Asked(dev, p, turn)), Act(dev, at, r, Send(Upload(p)));
            && r'.st == out.st && r'.files == r.files && r'.script == later
            && r'.inbox == r.inbox[1..] + [Text(ResultReply(out.result))]
            && r'.notes == NotesAfter(dev, r.inbox[0], r.notes, p)
            && if Acks(dev, r.inbox[0]) then p in r'.base && r'.base[p].sha == Sha([]) else r'.base == r.base
  {
    var out := Put(dev.cfg, r.st, Asked(dev, p, turn));
    var own := [Text(ResultReply(out.result))];
    assert Head(r.script) == turn && Cut([], None) == [];
    assert (r.inbox + own)[1..] == r.inbox[1..] + own;
    var m := Decoded(dev.decode, r.inbox[0]);
    if m.Some? && ResultOf(m.value) == Reject(Conflict) {
      assert Tail(r.script) == [LOSE] + later;
      assert Tail([LOSE] + later) == later;
    } else {
      assert Tail(r.script) == later;
    }
  }

  // If the k-th frame waiting passes for an ack, k + 1 refused uploads of a new file put it into the baseline.
  lemma {:induction false} AckReachesTheBaseline(dev: Device, at: Path -> string, r: Round, p: Path, k: nat)
    returns (script: seq<Turn>, actions: seq<Action>)
    requires k < |r.inbox| && Acks(dev, r.inbox[k])
    requires Paths.Canonical(p) && p in r.files && r.files[p] == []
    ensures ReadersHold(script)
    ensures var end := Perform(dev, at, r.(script := script), actions);
            end.st == r.st && p in end.base && end.base[p].sha == Sha([])
    decreases k
  {
    var turns, a := Turns(dev, r.inbox[0], REFUSE), Send(Upload(p));
    EmptyIsUnit(turns);
    RefusedUpload(dev, at, r, p, []);
    var mid := Act(dev, at, r.(script := turns), a);
    if Acks(dev, r.inbox[0]) {
      script, actions := turns, [a];
      PerformFirst(dev, at, r.(script := script), a, []);
      EmptyIsUnit([a]);
    } else {
      var later, others := AckReachesTheBaseline(dev, at, mid, p, k - 1);
      script, actions := turns + later, [a] + others;
      HoldTogether(turns, later);
      RefusedUpload(dev, at, r, p, later);
      PerformFirst(dev, at, r.(script := script), a, others);
    }
  }

  // An upload with more turns to come is the same with those turns left.
  lemma UploadAndMore(dev: Device, at: Path -> string, r: Round, p: Path, turn: Turn, later: seq<Turn>)
    requires r.inbox != [] && p in r.files && r.files[p] == []
    requires turn.others == [] && turn.fate == Delivered && turn.readFails.None?
    ensures var turns, a := Turns(dev, r.inbox[0], turn), Send(Upload(p));
            var mid, r' := Act(dev, at, r.(script := turns), a), Act(dev, at, r.(script := turns + later), a);
            var out := Put(dev.cfg, r.st, Asked(dev, p, turn));
            && mid.inbox == r.inbox[1..] + [Text(ResultReply(out.result))]
            && mid.st == out.st && mid.files == r.files && r' == mid.(script := later)
            && (Acks(dev, r.inbox[0]) ==> p in mid.base && mid.base[p].sha == Sha([]))
  {
    var turns := Turns(dev, r.inbox[0], turn);
    EmptyIsUnit(turns);
    Uploads(dev, at, r.(script := turns), p, turn, []);
    Uploads(dev, at, r.(script := turns + later), p, turn, later);
  }

  lemma RefusedUpload(dev: Device, at: Path -> string, r: Round, p: Path, later: seq<Turn>)
    requires r.inbox != [] && Paths.Canonical(p) && p in r.files && r.files[p] == []
    ensures var turns, a := Turns(dev, r.inbox[0], REFUSE), Send(Upload(p));
            var mid, r' := Act(dev, at, r.(script := turns), a), Act(dev, at, r.(script := turns + later), a);
            && mid.inbox == r.inbox[1..] + [Text(ResultReply(Reject(Internal)))]
            && mid.st == r.st && mid.files == r.files && r' == mid.(script := later)
            && (Acks(dev, r.inbox[0]) ==> p in mid.base && mid.base[p].sha == Sha([]))
  {
    UploadAndMore(dev, at, r, p, REFUSE, later);
    assert Put(dev.cfg, r.st, Asked(dev, p, REFUSE)) == Outcome(r.st, Reject(Internal));
  }

  // An empty new file is always accepted.
  lemma EmptyFileIsAccepted(cfg: Config, st: State, c: PutCall)
    requires Consistent(st) && Paths.Canonical(c.path) && c.path !in st.history && c.tmp !in st.temps
    requires c.base == 0 && c.declared == Sha([]) && c.reader == Reader([], false) && c.mode == ReadWrite
    requires c.faults == CALM.put
    ensures Put(cfg, st, c).result.Ok? && forall q | q != c.path && q !in st.history :: q !in Put(cfg, st, c).st.history
  {
    assert RowIsLast(st, c.path);
    if Put(cfg, st, c).result.Ok? {
      PutAccepted(cfg, st, c);
    }
  }

  lemma PerformFirst(dev: Device, at: Path -> string, r: Round, a: Action, others: seq<Action>)
    ensures Perform(dev, at, r, [a] + others) == Perform(dev, at, Act(dev, at, r, a), others)
  {
    PerformMore(dev, at, r, [], a);
    assert [] + [a] == [a];
    PerformConcat(dev, at, r, [a], others);
  }

  // Whatever the waiting reply says: upload a new file, so that an ack waits, then another new file that the
  // server refuses until it reads that ack. Its entry names a revision that was never committed.
  lemma StraysAreUnsafe(dev: Device, r: Round)
    requires Consistent(r.st) && dev.mode == ReadWrite && r.inbox != []
    ensures !SafeToGoOn(dev, r)
  {
    var used, at := r.st.history.Keys, (p: Path) => "";
    var y := Paths.FreshName(used, 0);
    var z := Paths.FreshName(used + {y}, 0);
    var tmp := Paths.FreshName(r.st.temps.Keys, 0);
    var files := map[y := [], z := []];
    var script, actions := MisreadRun(dev, at, r.(files := files), y, z, tmp);
    assert r.(files := files).(script := script) == r.(files := files, script := script);
    LiesAreUnsafe(dev, r, files, script, at, actions, z);
  }

  lemma LiesAreUnsafe(dev: Device, r: Round, files: map<Path, Content>, script: seq<Turn>, at: Path -> string,
                      actions: seq<Action>, z: Path)
    requires ReadersHold(script) && Lies(Perform(dev, at, r.(files := files, script := script), actions), z)
    ensures !SafeToGoOn(dev, r)
  {
    assert !Continues(dev, r, files, script, at, actions);
  }

  // The first upload is accepted, and its ack waits at the end.
  lemma FirstUpload(dev: Device, at: Path -> string, r: Round, y: Path, turn: Turn, later: seq<Turn>)
    requires Consistent(r.st) && dev.mode == ReadWrite && r.inbox != [] && y in r.files && r.files[y] == []
    requires Paths.Canonical(y) && y !in r.st.history && turn.tmp !in r.st.temps && turn == CALM.(tmp := turn.tmp)
    ensures var turns, a := Turns(dev, r.inbox[0], turn), Send(Upload(y));
            var mid, r' := Act(dev, at, r.(script := turns), a), Act(dev, at, r.(script := turns + later), a);
            && mid.inbox != [] && Acks(dev, mid.inbox[|mid.inbox| - 1]) && mid.files == r.files
            && r' == mid.(script := later)
            && forall q | q != y && q !in r.st.history :: q !in mid.st.history
  {
    EmptyFileIsAccepted(dev.cfg, r.st, Asked(dev, y, turn));
    UploadAndMore(dev, at, r, y, turn, later);
  }

  // The baseline has an entry for a path the server never had.
  predicate Lies(r: Round, z: Path) {
    z in r.base && !SoundAt(r.st, z, r.base[z])
  }

  lemma MisreadRun(dev: Device, at: Path -> string, r: Round, y: Path, z: Path, tmp: TempId)
    returns (script: seq<Turn>, actions: seq<Action>)
    requires Consistent(r.st) && dev.mode == ReadWrite && r.inbox != [] && r.files == map[y := [], z := []]
    requires y != z && y !in r.st.history && z !in r.st.history && Paths.Plain(y) && Paths.Plain(z)
    requires tmp !in r.st.temps
    ensures ReadersHold(script) && Lies(Perform(dev, at, r.(script := script), actions), z)
  {
    Paths.PlainName(y);
    var turn := CALM.(tmp := tmp);
    var turns := Turns(dev, r.inbox[0], turn);
    FirstUploadAcks(dev, at, r, y, z, turn);
    var later, others := AckMisread(dev, at, Act(dev, at, r.(script := turns), Send(Upload(y))), z);
    script, actions := turns + later, [Send(Upload(y))] + others;
    HoldTogether(turns, later);
    FirstUploadAndMore(dev, at, r, y, turn, later, others);
  }

  lemma HoldTogether(a: seq<Turn>, b: seq<Turn>)
    requires ReadersHold(a) && ReadersHold(b)
    ensures ReadersHold(a + b)
  {
  }

  // After the first upload an acknowledgement waits, and the other file is still to come.
  lemma FirstUploadAcks(dev: Device, at: Path -> string, r: Round, y: Path, z: Path, turn: Turn)
    requires Consistent(r.st) && dev.mode == ReadWrite && r.inbox != [] && r.files == map[y := [], z := []]
    requires y != z && y !in r.st.history && z !in r.st.history && Paths.Canonical(y)
    requires turn.tmp !in r.st.temps && turn == CALM.(tmp := turn.tmp)
    ensures var turns := Turns(dev, r.inbox[0], turn);
            var mid := Act(dev, at, r.(script := turns), Send(Upload(y)));
            && ReadersHold(turns) && mid.inbox != [] && Acks(dev, mid.inbox[|mid.inbox| - 1])
            && z in mid.files && mid.files[z] == [] && z !in mid.st.history
  {
    FirstUpload(dev, at, r, y, turn, []);
  }

  lemma FirstUploadAndMore(dev: Device, at: Path -> string, r: Round, y: Path, turn: Turn, later: seq<Turn>,
                           others: seq<Action>)
    requires Consistent(r.st) && dev.mode == ReadWrite && r.inbox != [] && y in r.files && r.files[y] == []
    requires Paths.Canonical(y) && y !in r.st.history && turn.tmp !in r.st.temps && turn == CALM.(tmp := turn.tmp)
    ensures var turns, a := Turns(dev, r.inbox[0], turn), Send(Upload(y));
            Perform(dev, at, r.(script := turns + later), [a] + others) ==
            Perform(dev, at, Act(dev, at, r.(script := turns), a).(script := later), others)
  {
    FirstUpload(dev, at, r, y, turn, later);
    PerformFirst(dev, at, r.(script := Turns(dev, r.inbox[0], turn) + later), Send(Upload(y)), others);
  }

  lemma AckMisread(dev: Device, at: Path -> string, r: Round, z: Path) returns (script: seq<Turn>, actions: seq<Action>)
    requires r.inbox != [] && Acks(dev, r.inbox[|r.inbox| - 1]) && z in r.files && r.files[z] == []
    requires Paths.Plain(z) && z !in r.st.history
    ensures ReadersHold(script) && Lies(Perform(dev, at, r.(script := script), actions), z)
  {
    Paths.PlainName(z);
    script, actions := AckReachesTheBaseline(dev, at, r, z, |r.inbox| - 1);
    NeverSound(Perform(dev, at, r.(script := script), actions), z);
  }

  lemma NeverSound(r: Round, z: Path)
    requires Paths.Canonical(z) && z in r.base && z !in r.st.history
    ensures Lies(r, z)
  {
  }

  lemma NothingWaitingIsSafe(dev: Device, r: Round)
    requires Consistent(r.st) && Sound(r.base, r.st) && r.inbox == []
    ensures SafeToGoOn(dev, r)
  {
    forall files, script, at, actions | ReadersHold(script) ensures Continues(dev, r, files, script, at, actions) {
      PerformUsesUp(dev, at, r.(files := files, script := script), actions);
      PerformOnward(dev, at, r.(files := files, script := script), actions);
    }
  }

  // A connection in use may be used further exactly if no reading of a file to upload has broken off on it.
  lemma SafeIffReadersHeld(dev: Device, at: Path -> string, r: Round, actions: seq<Action>)
    requires Consistent(r.st) && Sound(r.base, r.st) && r.inbox == [] && dev.mode == ReadWrite
    ensures SafeToGoOn(dev, Perform(dev, at, r, actions)) <==> Failed(dev, at, r, actions) == 0
  {
    var mid := Perform(dev, at, r, actions);
    WaitingIffReaderFailed(dev, at, r, actions);
    PerformKeepsServer(dev, at, r, actions);
    if Failed(dev, at, r, actions) == 0 {
      PerformOnward(dev, at, r, actions);
      NothingWaitingIsSafe(dev, mid);
    } else {
      StraysAreUnsafe(dev, mid);
    }
  }
}
