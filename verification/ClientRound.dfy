/**
 One client round (internal/sync/syncclient.go) as functions: the calls it makes, each of which may
 come after any steps of other devices, of the container and of reconciles, and may be lost on the way.
 */
module ClientRound {
  import opened Options
  import opened Listing
  import opened FileIndex
  import opened SyncServer
  import opened ThreeWay
  import opened PlanMeaning
  import opened Wire

  // What becomes of a call: answered, never received, or received with the answer lost.
  datatype Fate = Delivered | RequestLost | ReplyLost

  // How far the client gets with writing a fetched file.
  datatype Writing = Whole | NotCreated | CopyBreaks | NotRenamed

  // What happens around one call: the steps of everybody else before it, the server's and the
  // client's own failures during it, and the random name its temp file gets on the server. `getCut`:
  // the server's reading of a file breaks off after so many bytes; `readFails`: the client's, of a file to
  // upload.
  datatype Turn = Turn(
    others: seq<Step>, fate: Fate, tmp: TempId, put: PutFaults, delete: DeleteFaults, getFails: bool,
    getCut: Option<nat>, scan: ScanFaults, manifestFails: bool, write: Writing, readFails: Option<nat>)

  const CALM := Turn([], Delivered, "tmp", PutFaults(false, false, false, false, false, false),
                     DeleteFaults(false, false, false, false), false, None, ScanFaults(false, false, {}), false, Whole, None)

  datatype Device = Device(cfg: Config, name: string, mode: Mode, decode: Decoder)

  // The client's directory, baseline and notices, the server behind the connection, the turns to come
  // (calm ones once the script is used up), and the replies nobody has read yet.
  datatype Round = Round(
    files: map<Path, Content>, base: map<Path, Base>, notes: map<Path, Reason>, st: State, script: seq<Turn>,
    inbox: seq<Frame>)

  function Head(script: seq<Turn>): Turn {
    if script == [] then CALM else script[0]
  }

  function Tail(script: seq<Turn>): seq<Turn> {
    if script == [] then [] else script[1..]
  }

  // Everybody else goes first.
  ghost function Arrive(cfg: Config, r: Round): Round {
    r.(st := Run(cfg, r.st, Head(r.script).others), script := Tail(r.script))
  }

  function ConflictName(path: Path, stamp: string): Path {
    path + ".conflict-remote-" + stamp
  }

  // ---------- Writing a fetched file ----------

  // The file writeLocal fills and then renames over `target` (internal/sync/syncclient.go:161): a name that
  // users may give to files of their own, and that a scan lists.
  function TempOf(target: Path): Path {
    target + ".cclaude.dl.tmp"
  }

  function TempsOf(targets: set<Path>): set<Path> {
    set t | t in targets :: TempOf(t)
  }

  lemma TempIsAnother(target: Path, other: Path)
    ensures TempOf(target) != target
    ensures TempOf(target) == TempOf(other) ==> target == other
  {
    assert |TempOf(target)| > |target|;
    if TempOf(target) == TempOf(other) {
      assert |target| == |other|;
      assert target == TempOf(target)[..|target|] && other == TempOf(other)[..|other|];
    }
  }

  // Creating the temp file truncates what had its name; a copy that breaks off removes it, a rename that
  // fails leaves it behind.
  function WriteLocal(files: map<Path, Content>, target: Path, content: Content, w: Writing): map<Path, Content> {
    match w
    case Whole => (files - {TempOf(target)})[target := content]
    case NotCreated => files
    case CopyBreaks => files - {TempOf(target)}
    case NotRenamed => files[TempOf(target) := content]
  }

  // ---------- Calls ----------

  // A put or delete whose reply has come in reads the oldest frame waiting.
  function Answered(dev: Device, r: Round, result: Result): (Round, Option<Result>) {
    var q := Arrived(r.inbox, [Text(ResultReply(result))]);
    var m := Decoded(dev.decode, q[0]);
    (r.(inbox := q[1..]), if m.None? then None else Some(ResultOf(m.value)))
  }

  lemma AnsweredAlone(dev: Device, r: Round, result: Result)
    requires r.inbox == []
    ensures Answered(dev, r, result) == (r, Some(result))
  {
    OwnReplyIsRead(dev.decode, result, NotFound, None);
    assert [Text(ResultReply(result))][1..] == [];
  }

  // When reading the content breaks off, what was read still reaches the server as a complete frame, and the
  // call returns without reading its reply (internal/sync/syncclient_ws.go:67-70).
  ghost function CallPut(dev: Device, r: Round, u: Item<Local>, content: Content): (Round, Option<Result>) {
    var t, a := Head(r.script), Arrive(dev.cfg, r);
    if t.fate.RequestLost? then (a, None)
    else
      var out := Put(dev.cfg, a.st, PutCall(u.path, u.val.baseRev, u.val.curSha, Reader(Cut(content, t.readFails), false),
                                            dev.mode, dev.name, t.tmp, t.put));
      var b := a.(st := out.st);
      if t.fate.ReplyLost? then (b, None)
      else if t.readFails.Some? then (b.(inbox := Arrived(b.inbox, [Text(ResultReply(out.result))])), None)
      else Answered(dev, b, out.result)
  }

  ghost function CallDelete(dev: Device, r: Round, d: Item<Local>): (Round, Option<Result>) {
    var t, a := Head(r.script), Arrive(dev.cfg, r);
    if t.fate.RequestLost? then (a, None)
    else
      var out := Delete(a.st, DeleteCall(d.path, d.val.baseRev, dev.name, t.delete));
      var b := a.(st := out.st);
      if t.fate.ReplyLost? then (b, None) else Answered(dev, b, out.result)
  }

  // The bytes go to `target`; the baseline records the entry of the reply, which carries no digest.
  ghost function FetchTo(dev: Device, r: Round, p: Path, target: Path): Round {
    var t, a := Head(r.script), Arrive(dev.cfg, r);
    if t.fate != Delivered then a
    else
      var (got, rest) := ReadFile(dev.decode, Arrived(a.inbox, FileReply(Get(a.st, p, t.getFails), t.getCut)));
      var b := a.(inbox := rest);
      if got.Nothing? then b
      else
        var c := b.(files := WriteLocal(b.files, target, got.content, t.write));
        if t.write.Whole? then c.(base := c.base[p := got.entry]) else c
  }

  // Has this call created the temp file of its target?
  ghost function OpenedByFetch(dev: Device, r: Round, p: Path, target: Path): set<Path> {
    var t, a := Head(r.script), Arrive(dev.cfg, r);
    if t.fate != Delivered || t.write.NotCreated? then {}
    else
      var (got, _) := ReadFile(dev.decode, Arrived(a.inbox, FileReply(Get(a.st, p, t.getFails), t.getCut)));
      if got.Nothing? then {} else {target}
  }

  // The manifest call: the reconcile, then reading the rows, with room for others in between. A rejected
  // manifest comes back as an empty list (internal/sync/syncclient_ws.go:43-52).
  ghost function CallManifest(dev: Device, r: Round): (Round, Option<map<Path, Row>>) {
    var t, a := Head(r.script), Arrive(dev.cfg, r);
    if t.fate.RequestLost? then (a, None)
    else
      var swept := a.(st := Reconcile(a.st, t.scan));
      var t', b := Head(swept.script), Arrive(dev.cfg, swept);
      if t.fate.ReplyLost? || t'.fate != Delivered then (b, None)
      else
        var own := ManifestReply(if t'.manifestFails then None else Some(b.st.index));
        var q := Arrived(b.inbox, [Text(own)]);
        var m := Decoded(dev.decode, q[0]);
        (b.(inbox := q[1..]), if m.None? then None else Some(m.value.entries))
  }

  // ---------- Executing a plan ----------

  datatype Action =
    | Send(u: Item<Local>)      // upload
    | Fetch(path: Path)         // download
    | Drop(d: Item<Local>)      // delete on the server
    | Remove(path: Path)        // delete locally
    | Save(path: Path)          // keep both versions

  function Sends(xs: seq<Item<Local>>): seq<Action> {
    seq(|xs|, i requires 0 <= i < |xs| => Send(xs[i]))
  }

  function Fetches(xs: seq<Item<Row>>): seq<Action> {
    seq(|xs|, i requires 0 <= i < |xs| => Fetch(xs[i].path))
  }

  function Drops(xs: seq<Item<Local>>): seq<Action> {
    seq(|xs|, i requires 0 <= i < |xs| => Drop(xs[i]))
  }

  function Removes(xs: seq<Item<Row>>): seq<Action> {
    seq(|xs|, i requires 0 <= i < |xs| => Remove(xs[i].path))
  }

  function Saves(xs: seq<Item<Clash>>): seq<Action> {
    seq(|xs|, i requires 0 <= i < |xs| => Save(xs[i].path))
  }

  // The order of SyncClient.execute; cleanup mode uploads nothing.
  function Actions(mode: Mode, plan: Plan): seq<Action> {
    (if mode == Cleanup then [] else Sends(plan.upload)) + Fetches(plan.download) + Drops(plan.deleteToRemote)
      + Removes(plan.deleteToLocal) + Saves(plan.conflicts)
  }

  ghost function Act(dev: Device, at: Path -> string, r: Round, a: Action): Round {
    match a
    case Send(u) =>
      if u.path !in r.files then r
      else
        (match CallPut(dev, r, u, r.files[u.path])
         case (next, None) => next
         case (next, Some(Ok(rev))) => next.(base := next.base[u.path := Base(rev, u.val.curSha)])
         case (next, Some(Reject(Conflict))) => FetchTo(dev, next, u.path, ConflictName(u.path, at(u.path)))
         case (next, Some(Reject(reason))) => next.(notes := next.notes[u.path := reason]))
    case Fetch(p) => FetchTo(dev, r, p, p)
    case Drop(d) =>
      (match CallDelete(dev, r, d)
       case (next, Some(Ok(_))) => next.(base := next.base - {d.path})
       case (next, _) => next)
    case Remove(p) => r.(files := r.files - {p}, base := r.base - {p})
    case Save(p) => FetchTo(dev, r, p, ConflictName(p, at(p)))
  }

  ghost function Perform(dev: Device, at: Path -> string, r: Round, actions: seq<Action>): Round {
    if actions == [] then r
    else Act(dev, at, Perform(dev, at, r, actions[..|actions| - 1]), actions[|actions| - 1])
  }

  lemma PerformMore(dev: Device, at: Path -> string, r: Round, done: seq<Action>, a: Action)
    ensures Perform(dev, at, r, done + [a]) == Act(dev, at, Perform(dev, at, r, done), a)
  {
    assert (done + [a])[..|done + [a]| - 1] == done;
  }

  lemma {:induction false} PerformConcat(dev: Device, at: Path -> string, r: Round, a: seq<Action>, b: seq<Action>)
    ensures Perform(dev, at, r, a + b) == Perform(dev, at, Perform(dev, at, r, a), b)
    decreases |b|
  {
    if b == [] {
      assert a + b == a;
    } else {
      assert (a + b)[..|a + b| - 1] == a + b[..|b| - 1];
      PerformConcat(dev, at, r, a, b[..|b| - 1]);
    }
  }

  function PathOf(a: Action): Path {
    match a
    case Send(u) => u.path
    case Fetch(p) => p
    case Drop(d) => d.path
    case Remove(p) => p
    case Save(p) => p
  }

  // The local file an action fetches to, if it fetches; an upload does when it meets a conflict.
  function Target(at: Path -> string, a: Action): Option<Path> {
    match a
    case Send(u) => Some(ConflictName(u.path, at(u.path)))
    case Fetch(p) => Some(p)
    case Save(p) => Some(ConflictName(p, at(p)))
    case _ => None
  }

  // The targets whose temp file an action has created, and those of all actions.
  ghost function OpenedBy(dev: Device, at: Path -> string, r: Round, a: Action): set<Path> {
    match a
    case Send(u) =>
      if u.path !in r.files then {}
      else
        var (next, reply) := CallPut(dev, r, u, r.files[u.path]);
        if reply == Some(Reject(Conflict)) then OpenedByFetch(dev, next, u.path, ConflictName(u.path, at(u.path))) else {}
    case Fetch(p) => OpenedByFetch(dev, r, p, p)
    case Save(p) => OpenedByFetch(dev, r, p, ConflictName(p, at(p)))
    case _ => {}
  }

  ghost function Opened(dev: Device, at: Path -> string, r: Round, actions: seq<Action>): set<Path> {
    if actions == [] then {}
    else
      var init, last := actions[..|actions| - 1], actions[|actions| - 1];
      Opened(dev, at, r, init) + OpenedBy(dev, at, Perform(dev, at, r, init), last)
  }

  // Reading the file to upload breaks off, and the connection survives it.
  predicate BreaksOff(t: Turn) {
    t.fate == Delivered && t.readFails.Some?
  }

  // Does this action leave an unread reply behind?
  predicate LeavesReply(r: Round, a: Action) {
    a.Send? && a.u.path in r.files && BreaksOff(Head(r.script))
  }

  // How many of the actions do.
  ghost function Failed(dev: Device, at: Path -> string, r: Round, actions: seq<Action>): nat {
    if actions == [] then 0
    else
      var init, last := actions[..|actions| - 1], actions[|actions| - 1];
      Failed(dev, at, r, init) + if LeavesReply(Perform(dev, at, r, init), last) then 1 else 0
  }

  // Where nothing fails, reading a file to upload does not either.
  lemma {:induction false} CalmHolds(dev: Device, at: Path -> string, r: Round, actions: seq<Action>)
    requires r.script == []
    ensures Perform(dev, at, r, actions).script == [] && Failed(dev, at, r, actions) == 0
    decreases |actions|
  {
    if actions != [] {
      CalmHolds(dev, at, r, actions[..|actions| - 1]);
      ActHolds(dev, at, Perform(dev, at, r, actions[..|actions| - 1]), actions[|actions| - 1]);
    }
  }

  lemma ActHolds(dev: Device, at: Path -> string, r: Round, a: Action)
    requires r.script == []
    ensures Act(dev, at, r, a).script == [] && !LeavesReply(r, a)
  {
  }

  // The baseline `execute` starts from: the entries of unedited files.
  function Kept(files: map<Path, Content>, base: map<Path, Base>): map<Path, Base> {
    map p | p in base && p in Scan(files) && base[p].sha == Sha(files[p]) :: base[p]
  }

  ghost function Execute(dev: Device, at: Path -> string, r: Round, plan: Plan): Round {
    Perform(dev, at, r.(base := Kept(r.files, r.base)), Actions(dev.mode, plan))
  }

  // r' is how a round started in r may end: without an answer to the manifest call nothing else happens.
  ghost predicate SyncOnce(dev: Device, at: Path -> string, r: Round, plan: Plan, r': Round) {
    var (listed, rows) := CallManifest(dev, r);
    if rows.None? then r' == listed
    else PlanFits(r.files, r.base, rows.value, plan) && r' == Execute(dev, at, listed, plan)
  }
}
