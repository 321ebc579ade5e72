/**
 What a device can rely on in every run, whatever other devices, the container and the network do:
 its baseline never lies, and a round destroys no local content the server does not have.
 */
module Safety {
  import opened Options
  import opened Listing
  import opened FileIndex
  import opened SyncServer
  import opened ServerRuns
  import opened ThreeWay
  import opened PlanMeaning
  import opened ClientRound
  import opened Wire
  import Paths

  // ---------- Sound baselines ----------

  // The entry names a revision the server did commit for that file, with its digest or with none.
  predicate SoundAt(st: State, p: Path, b: Base) {
    var rel := Paths.SafeRelPath(p);
    && rel.Some? && 1 <= b.rev <= |History(st, rel.value)|
    && (b.sha == NoDigest || Committed(st, rel.value, b.rev, b.sha))
  }

  ghost predicate Sound(base: map<Path, Base>, st: State) {
    forall p | p in base :: SoundAt(st, p, base[p])
  }

  ghost predicate Good(r: Round) {
    Consistent(r.st) && Sound(r.base, r.st) && r.inbox == []
  }

  // What may happen to a round in progress: the server moves on and the baseline stays sound.
  ghost predicate Onward(r: Round, r': Round) {
    Good(r') && Extends(r.st, r'.st)
  }

  lemma OnwardTwice(a: Round, b: Round, c: Round)
    requires Onward(a, b) && Onward(b, c)
    ensures Onward(a, c)
  {
    forall p ensures History(a.st, p) <= History(c.st, p) {
      assert History(a.st, p) <= History(b.st, p) <= History(c.st, p);
    }
  }

  lemma SoundGrows(base: map<Path, Base>, st: State, st': State)
    requires Sound(base, st) && Extends(st, st')
    ensures Sound(base, st')
  {
    forall p | p in base ensures SoundAt(st', p, base[p]) {
      var rel := Paths.SafeRelPath(p).value;
      assert SoundAt(st, p, base[p]) && History(st, rel) <= History(st', rel);
    }
  }

  // ---------- Calls ----------

  lemma ArriveOnward(cfg: Config, r: Round)
    requires Good(r)
    ensures Onward(r, Arrive(cfg, r))
  {
    RunKeepsConsistent(cfg, r.st, Head(r.script).others);
    SoundGrows(r.base, r.st, Arrive(cfg, r).st);
  }

  lemma AckIsCommitted(cfg: Config, st: State, c: PutCall)
    requires Consistent(st) && Put(cfg, st, c).result.Ok?
    ensures SoundAt(Put(cfg, st, c).st, c.path, Base(Put(cfg, st, c).result.rev, c.declared))
  {
    PutAccepted(cfg, st, c);
    ConsistentAt(st, Paths.SafeRelPath(c.path).value);
  }

  lemma PutOnward(dev: Device, r: Round, u: Item<Local>, content: Content)
    requires Good(r) && !BreaksOff(Head(r.script))
    ensures var (next, reply) := CallPut(dev, r, u, content);
            && Onward(r, next) && next.files == r.files && next.base == r.base
            && (reply.Some? && reply.value.Ok? ==> SoundAt(next.st, u.path, Base(reply.value.rev, u.val.curSha)))
  {
    var t, a := Head(r.script), Arrive(dev.cfg, r);
    ArriveOnward(dev.cfg, r);
    var call := PutCall(u.path, u.val.baseRev, u.val.curSha, Reader(Cut(content, t.readFails), false),
                        dev.mode, dev.name, t.tmp, t.put);
    OwnReplyIsRead(dev.decode, Put(dev.cfg, a.st, call).result, NotFound, None);
    PutKeepsConsistent(dev.cfg, a.st, call);
    SoundGrows(a.base, a.st, Put(dev.cfg, a.st, call).st);
    OnwardTwice(r, a, a.(st := Put(dev.cfg, a.st, call).st));
    if Put(dev.cfg, a.st, call).result.Ok? {
      AckIsCommitted(dev.cfg, a.st, call);
    }
  }

  lemma DeleteOnward(dev: Device, r: Round, d: Item<Local>)
    requires Good(r)
    ensures var (next, _) := CallDelete(dev, r, d);
            Onward(r, next) && next.files == r.files && next.base == r.base
  {
    var t, a := Head(r.script), Arrive(dev.cfg, r);
    ArriveOnward(dev.cfg, r);
    var call := DeleteCall(d.path, d.val.baseRev, dev.name, t.delete);
    DeleteMoves(dev, r, d, call);
    DeleteKeepsConsistent(a.st, call);
    SoundGrows(a.base, a.st, Delete(a.st, call).st);
    OnwardTwice(r, a, a.(st := Delete(a.st, call).st));
  }

  lemma DeleteMoves(dev: Device, r: Round, d: Item<Local>, call: DeleteCall)
    requires r.inbox == [] && call == DeleteCall(d.path, d.val.baseRev, dev.name, Head(r.script).delete)
    ensures var a := Arrive(dev.cfg, r);
            var next := CallDelete(dev, r, d).0;
            next == a || next == a.(st := Delete(a.st, call).st)
  {
    var a := Arrive(dev.cfg, r);
    AnsweredAlone(dev, a.(st := Delete(a.st, call).st), Delete(a.st, call).result);
  }

  // Whatever becomes of it, a fetch leaves every file alone but its target and an opened temp file.
  lemma FetchFiles(dev: Device, r: Round, p: Path, target: Path, q: Path)
    requires q != target && q !in TempsOf(OpenedByFetch(dev, r, p, target))
    ensures At(FetchTo(dev, r, p, target).files, q) == At(r.files, q)
  {
    assert OpenedByFetch(dev, r, p, target) == {target} ==> q != TempOf(target);
  }

  lemma FetchOnward(dev: Device, r: Round, p: Path, target: Path)
    requires Good(r)
    ensures Onward(r, FetchTo(dev, r, p, target))
  {
    var a, next := Arrive(dev.cfg, r), FetchTo(dev, r, p, target);
    ArriveOnward(dev.cfg, r);
    FetchRecords(dev, r, p, target);
    if next.base != a.base {
      ConsistentAt(a.st, Paths.SafeRelPath(p).value);
      assert SoundAt(a.st, p, next.base[p]);
    }
  }

  // A fetch with no other reply waiting records the row's revision without a digest, if anything.
  lemma FetchRecords(dev: Device, r: Round, p: Path, target: Path)
    requires r.inbox == []
    ensures var a, next := Arrive(dev.cfg, r), FetchTo(dev, r, p, target);
            var rel := Paths.SafeRelPath(p);
            && next.st == a.st && next.inbox == []
            && (next.base == a.base ||
                (rel.Some? && rel.value in a.st.index && next.base == a.base[p := Base(a.st.index[rel.value].rev, NoDigest)]))
  {
    var t, a := Head(r.script), Arrive(dev.cfg, r);
    OwnReplyIsRead(dev.decode, Ok(0), Get(a.st, p, t.getFails), t.getCut);
  }

  lemma ManifestOnward(dev: Device, r: Round)
    requires Good(r)
    ensures var (next, _) := CallManifest(dev, r);
            Onward(r, next) && next.files == r.files && next.base == r.base && next.notes == r.notes
  {
    var t, a := Head(r.script), Arrive(dev.cfg, r);
    ArriveOnward(dev.cfg, r);
    if !t.fate.RequestLost? {
      var swept := a.(st := Reconcile(a.st, t.scan));
      ReconcileKeepsConsistent(a.st, t.scan);
      SoundGrows(a.base, a.st, swept.st);
      OnwardTwice(r, a, swept);
      ArriveOnward(dev.cfg, swept);
      OnwardTwice(r, swept, Arrive(dev.cfg, swept));
    }
    ManifestReads(dev, r);
  }

  // The manifest call leaves the round where others left the server, before or after its reconcile.
  lemma ManifestReads(dev: Device, r: Round)
    requires r.inbox == []
    ensures var a, next := Arrive(dev.cfg, r), CallManifest(dev, r).0;
            next == if Head(r.script).fate.RequestLost? then a
                    else Arrive(dev.cfg, a.(st := Reconcile(a.st, Head(r.script).scan)))
  {
  }

  // ---------- Actions ----------

  // The one local file an action may write or remove, temp files apart.
  function Touches(at: Path -> string, a: Action): Option<Path> {
    if a.Remove? then Some(a.path) else Target(at, a)
  }

  lemma PutKeepsFiles(dev: Device, r: Round, u: Item<Local>, content: Content)
    ensures CallPut(dev, r, u, content).0.files == r.files
  {
  }

  lemma ActFiles(dev: Device, at: Path -> string, r: Round, a: Action, q: Path)
    requires Touches(at, a) != Some(q) && q !in TempsOf(OpenedBy(dev, at, r, a))
    ensures At(Act(dev, at, r, a).files, q) == At(r.files, q)
  {
    match a
    case Send(u) =>
      if u.path in r.files {
        PutKeepsFiles(dev, r, u, r.files[u.path]);
        if CallPut(dev, r, u, r.files[u.path]).1 == Some(Reject(Conflict)) {
          FetchFiles(dev, CallPut(dev, r, u, r.files[u.path]).0, u.path, ConflictName(u.path, at(u.path)), q);
        }
      }
    case Fetch(p) => FetchFiles(dev, r, p, p, q);
    case Drop(_) =>
    case Remove(_) =>
    case Save(p) => FetchFiles(dev, r, p, ConflictName(p, at(p)), q);
  }

  // Whatever happens: a file that no action is about keeps its bytes unless a temp file takes its name.
  lemma {:induction false} PerformFiles(dev: Device, at: Path -> string, r: Round, actions: seq<Action>, q: Path)
    requires forall a | a in actions :: Touches(at, a) != Some(q)
    requires q !in TempsOf(Opened(dev, at, r, actions))
    ensures At(Perform(dev, at, r, actions).files, q) == At(r.files, q)
    decreases |actions|
  {
    if actions != [] {
      var init, last := actions[..|actions| - 1], actions[|actions| - 1];
      assert last in actions && forall a | a in init :: a in actions;
      TempsJoin(Opened(dev, at, r, init), OpenedBy(dev, at, Perform(dev, at, r, init), last));
      PerformFiles(dev, at, r, init, q);
      ActFiles(dev, at, Perform(dev, at, r, init), last, q);
    }
  }

  lemma TempsJoin(a: set<Path>, b: set<Path>)
    ensures TempsOf(a + b) == TempsOf(a) + TempsOf(b)
  {
  }

  lemma SendOnward(dev: Device, at: Path -> string, r: Round, u: Item<Local>)
    requires Good(r) && !LeavesReply(r, Send(u))
    ensures Onward(r, Act(dev, at, r, Send(u)))
  {
    if u.path in r.files {
      PutOnward(dev, r, u, r.files[u.path]);
      var (next, reply) := CallPut(dev, r, u, r.files[u.path]);
      if reply == Some(Reject(Conflict)) {
        FetchOnward(dev, next, u.path, ConflictName(u.path, at(u.path)));
        OnwardTwice(r, next, Act(dev, at, r, Send(u)));
      }
    } else {
      assert forall p :: History(r.st, p) <= History(r.st, p);
    }
  }

  lemma ActOnward(dev: Device, at: Path -> string, r: Round, a: Action)
    requires Good(r) && !LeavesReply(r, a)
    ensures Onward(r, Act(dev, at, r, a))
  {
    match a
    case Send(u) => SendOnward(dev, at, r, u);
    case Fetch(p) => FetchOnward(dev, r, p, p);
    case Drop(d) => DeleteOnward(dev, r, d);
    case Remove(p) => assert forall p :: History(r.st, p) <= History(r.st, p);
    case Save(p) => FetchOnward(dev, r, p, ConflictName(p, at(p)));
  }

  lemma {:induction false} PerformOnward(dev: Device, at: Path -> string, r: Round, actions: seq<Action>)
    requires Good(r) && Failed(dev, at, r, actions) == 0
    ensures Onward(r, Perform(dev, at, r, actions))
    decreases |actions|
  {
    if actions == [] {
      assert forall p :: History(r.st, p) <= History(r.st, p);
    } else {
      var init, last := actions[..|actions| - 1], actions[|actions| - 1];
      PerformOnward(dev, at, r, init);
      ActOnward(dev, at, Perform(dev, at, r, init), last);
      OnwardTwice(r, Perform(dev, at, r, init), Perform(dev, at, r, actions));
    }
  }

  // ---------- A round ----------

  // The conflict copies of this round get names no local file has.
  ghost predicate FreshNames(at: Path -> string, plan: Plan, files: map<Path, Content>) {
    forall q | q in PathsOf(plan.upload) || q in PathsOf(plan.conflicts) :: ConflictName(q, at(q)) !in files
  }

  lemma TouchedByPlan(at: Path -> string, mode: Mode, plan: Plan, files: map<Path, Content>, p: Path)
    requires FreshNames(at, plan, files) && p in files
    requires p !in PathsOf(plan.download) && p !in PathsOf(plan.deleteToLocal)
    ensures forall a | a in Actions(mode, plan) :: Touches(at, a) != Some(p)
  {
    forall a | a in Actions(mode, plan) ensures Touches(at, a) != Some(p) {
      match a
      case Send(u) =>
        assert a in Sends(plan.upload) && u in plan.upload;
        assert u.path in PathsOf(plan.upload);
      case Fetch(q) =>
        assert a in Fetches(plan.download);
        assert q in PathsOf(plan.download);
      case Drop(_) =>
      case Remove(q) =>
        assert a in Removes(plan.deleteToLocal);
        assert q in PathsOf(plan.deleteToLocal);
      case Save(q) =>
        assert a in Saves(plan.conflicts);
        assert q in PathsOf(plan.conflicts);
    }
  }

  // The local content of p is the very version the server committed at p's base revision.
  predicate OnServer(r: Round, p: Path)
    requires p in r.files
  {
    && p in r.base && Paths.SafeRelPath(p).Some?
    && Committed(r.st, Paths.SafeRelPath(p).value, r.base[p].rev, Sha(r.files[p]))
  }

  // No reading of a file to upload breaks off in the round.
  ghost predicate Held(dev: Device, at: Path -> string, r: Round, plan: Plan) {
    var (listed, rows) := CallManifest(dev, r);
    rows.Some? ==> Failed(dev, at, listed.(base := Kept(r.files, r.base)), Actions(dev.mode, plan)) == 0
  }

  // The targets whose temp files a round creates.
  ghost function RoundOpens(dev: Device, at: Path -> string, r: Round, plan: Plan): set<Path> {
    var (listed, rows) := CallManifest(dev, r);
    if rows.None? then {} else Opened(dev, at, listed.(base := Kept(r.files, r.base)), Actions(dev.mode, plan))
  }

  // May a round write or remove p by the plan? A file the scan covers, if the server has its content at the
  // base revision; one the scan skips, if the manifest lists it as live and the baseline does not know it.
  predicate Replaceable(r: Round, rows: map<Path, Row>, p: Path)
    requires p in r.files
  {
    if Paths.Scannable(p) then OnServer(r, p) else p !in r.base && p in rows && !rows[p].deleted
  }

  // Whatever the network and the others do during a round: the baseline stays sound, and a file changes or
  // disappears only if it is replaceable, or if it has the name of a temp file the round creates.
  lemma RoundIsSafe(dev: Device, at: Path -> string, r: Round, plan: Plan, r': Round)
    requires Good(r) && SyncOnce(dev, at, r, plan, r') && FreshNames(at, plan, r.files) && Held(dev, at, r, plan)
    ensures Onward(r, r')
    ensures forall p | p in r.files && At(r'.files, p) != At(r.files, p) ::
              || p in TempsOf(RoundOpens(dev, at, r, plan))
              || (CallManifest(dev, r).1.Some? && Replaceable(r, CallManifest(dev, r).1.value, p))
  {
    ManifestOnward(dev, r);
    var (listed, rows) := CallManifest(dev, r);
    if rows.Some? {
      ExecuteOnward(dev, at, listed, plan);
      OnwardTwice(r, listed, r');
      forall p | p in r.files && At(r'.files, p) != At(r.files, p) && p !in TempsOf(RoundOpens(dev, at, r, plan))
        ensures Replaceable(r, rows.value, p)
      {
        ChangedFile(r, rows.value, plan, p);
      }
    }
  }

  lemma ExecuteOnward(dev: Device, at: Path -> string, r: Round, plan: Plan)
    requires Good(r) && FreshNames(at, plan, r.files)
    requires Failed(dev, at, r.(base := Kept(r.files, r.base)), Actions(dev.mode, plan)) == 0
    ensures Onward(r, Execute(dev, at, r, plan))
    ensures forall p | && p in r.files && p !in PathsOf(plan.download) && p !in PathsOf(plan.deleteToLocal)
                       && p !in TempsOf(Opened(dev, at, r.(base := Kept(r.files, r.base)), Actions(dev.mode, plan))) ::
              At(Execute(dev, at, r, plan).files, p) == At(r.files, p)
  {
    var start := r.(base := Kept(r.files, r.base));
    assert Onward(r, start) by {
      assert forall p :: History(r.st, p) <= History(r.st, p);
    }
    PerformOnward(dev, at, start, Actions(dev.mode, plan));
    OnwardTwice(r, start, Execute(dev, at, r, plan));
    forall p | && p in r.files && p !in PathsOf(plan.download) && p !in PathsOf(plan.deleteToLocal)
               && p !in TempsOf(Opened(dev, at, start, Actions(dev.mode, plan)))
      ensures At(Execute(dev, at, r, plan).files, p) == At(r.files, p)
    {
      TouchedByPlan(at, dev.mode, plan, r.files, p);
      PerformFiles(dev, at, start, Actions(dev.mode, plan), p);
    }
  }

  lemma ChangedFile(r: Round, rows: map<Path, Row>, plan: Plan, p: Path)
    requires Good(r) && PlanFits(r.files, r.base, rows, plan) && p in r.files
    requires p in PathsOf(plan.download) || p in PathsOf(plan.deleteToLocal)
    ensures Replaceable(r, rows, p)
  {
    assert VerdictAt(r.files, r.base, rows, p) in {Download, DeleteToLocal};
    if Paths.Scannable(p) {
      assert SoundAt(r.st, p, r.base[p]);
    }
  }

  // ---------- Runs of one device ----------

  datatype Machine = Machine(files: map<Path, Content>, base: map<Path, Base>, st: State)

  // The user edits files; others use the server; or a round runs, after which the new baseline may fail
  // to reach the index file.
  datatype Happening =
    | EditFiles(files: map<Path, Content>)
    | Elsewhere(steps: seq<Step>)
    | RunRound(script: seq<Turn>, at: Path -> string, plan: Plan, end: Round, saved: bool)

  function Started(m: Machine, script: seq<Turn>): Round {
    Round(m.files, m.base, map[], m.st, script, [])
  }

  ghost predicate Happens(dev: Device, m: Machine, h: Happening, m': Machine) {
    match h
    case EditFiles(files) => m' == m.(files := files)
    case Elsewhere(steps) => m' == m.(st := Run(dev.cfg, m.st, steps))
    case RunRound(script, at, plan, end, saved) =>
      && SyncOnce(dev, at, Started(m, script), plan, end) && FreshNames(at, plan, m.files)
      && m' == Machine(end.files, if saved then end.base else m.base, end.st)
  }

  ghost predicate IsRun(dev: Device, ms: seq<Machine>, hs: seq<Happening>) {
    && |ms| == |hs| + 1 && ms[0].base == map[] && Consistent(ms[0].st)
    && forall i | 0 <= i < |hs| :: Happens(dev, ms[i], hs[i], ms[i + 1])
  }

  ghost predicate HeldIn(dev: Device, m: Machine, h: Happening) {
    h.RunRound? ==> Held(dev, h.at, Started(m, h.script), h.plan)
  }

  lemma HappeningIsSafe(dev: Device, m: Machine, h: Happening, m': Machine)
    requires Consistent(m.st) && Sound(m.base, m.st) && Happens(dev, m, h, m') && HeldIn(dev, m, h)
    ensures Consistent(m'.st) && Sound(m'.base, m'.st)
    ensures h.RunRound? ==> forall p | p in m.files && Paths.Scannable(p) && At(m'.files, p) != At(m.files, p) ::
              OnServer(Started(m, h.script), p) || p in TempsOf(RoundOpens(dev, h.at, Started(m, h.script), h.plan))
  {
    match h
    case EditFiles(_) =>
    case Elsewhere(steps) =>
      RunKeepsConsistent(dev.cfg, m.st, steps);
      SoundGrows(m.base, m.st, m'.st);
    case RunRound(script, at, plan, end, _) =>
      RoundIsSafe(dev, at, Started(m, script), plan, end);
      SoundGrows(m.base, m.st, end.st);
  }

  // In every run of a device from an empty baseline in which no reading of a file to upload breaks off,
  // every saved baseline is sound ...
  lemma {:induction false} BaselinesStaySound(dev: Device, ms: seq<Machine>, hs: seq<Happening>, i: nat)
    requires IsRun(dev, ms, hs) && i < |ms| && forall j | 0 <= j < i :: HeldIn(dev, ms[j], hs[j])
    ensures Consistent(ms[i].st) && Sound(ms[i].base, ms[i].st)
  {
    if i > 0 {
      BaselinesStaySound(dev, ms, hs, i - 1);
      HappeningIsSafe(dev, ms[i - 1], hs[i - 1], ms[i]);
    }
  }

  // ... and every round leaves alone each scanned file whose content the server does not hold as the
  // version at its base revision, unless it has the name of a temp file the round creates.
  lemma RoundsLoseNothing(dev: Device, ms: seq<Machine>, hs: seq<Happening>, i: nat, p: Path)
    requires IsRun(dev, ms, hs) && i < |hs| && hs[i].RunRound? && forall j | 0 <= j <= i :: HeldIn(dev, ms[j], hs[j])
    requires p in ms[i].files && Paths.Scannable(p) && !OnServer(Started(ms[i], hs[i].script), p)
    ensures || p in TempsOf(RoundOpens(dev, hs[i].at, Started(ms[i], hs[i].script), hs[i].plan))
            || (p in ms[i + 1].files && ms[i + 1].files[p] == ms[i].files[p])
  {
    BaselinesStaySound(dev, ms, hs, i);
    HappeningIsSafe(dev, ms[i], hs[i], ms[i + 1]);
  }
}
