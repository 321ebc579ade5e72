/** The proof that every interleaving of module Interleaving is a serial run. */
module Linearization {
  import opened Options
  import opened Listing
  import opened FileIndex
  import opened SyncServer
  import opened ServerRuns
  import opened Interleaving
  import opened Sequences
  import Paths

  // Without pending commits the abstraction only hides the temp file and the edits a scan missed.
  lemma AbsPlain(st: State, pc: Pc)
    requires Pending(st.index, pc) == map[]
    ensures AbsAt(st, pc) == st.(disk := Frozen(st.disk, pc), temps := Settled(st.temps, pc))
  {
    CommitNone(st.(disk := Frozen(st.disk, pc), temps := Settled(st.temps, pc)));
  }

  // A step of the lock holder, seen from outside: either it decides its operation, with the effect and
  // the answer that operation has alone on the abstract state, or nothing happens there.
  ghost predicate StepRefines(cfg: Config, st: State, pc: Pc, late: seq<Step>, st': State, pc': Pc) {
    && PcValid(cfg, st', pc', if pc'.Scanning? then late else [])
    && (pc' != pc ==> InLock(pc'))
    && var before := AbsAt(st, pc);
    if Undecided(pc).Some? && AnswerOf(pc').Some? then
      && AbsAt(st', pc') == Run(cfg, Apply(cfg, before, OpStep(Undecided(pc).value)), late)
      && AnswerOf(pc').value == StepAnswer(cfg, before, OpStep(Undecided(pc).value))
    else AbsAt(st', pc') == before && AnswerOf(pc') == AnswerOf(pc)
  }

  // ---------- Put ----------

  lemma PutEnters(cfg: Config, st: State, pc: Pc, hint: Option<Path>)
    requires pc.Entered? && pc.op.PutOp?
    ensures var (st', pc') := Advance(cfg, st, pc, hint); StepRefines(cfg, st, pc, [], st', pc')
  {
    var (st', pc') := Advance(cfg, st, pc, hint);
    AbsPlain(st, pc);
    AbsPlain(st', pc');
  }

  lemma PutWrites(cfg: Config, st: State, pc: Pc, hint: Option<Path>)
    requires pc.PutChecked? && PcValid(cfg, st, pc, [])
    ensures var (st', pc') := Advance(cfg, st, pc, hint); StepRefines(cfg, st, pc, [], st', pc')
  {
    var (st', pc') := Advance(cfg, st, pc, hint);
    AbsPlain(st, pc);
    AbsPlain(st', pc');
    if pc'.PutWritten? {
      assert st'.temps - {pc.c.tmp} == st.temps;
    }
  }

  lemma PutPrices(cfg: Config, st: State, pc: Pc, hint: Option<Path>)
    requires pc.PutWritten? && PcValid(cfg, st, pc, [])
    ensures var (st', pc') := Advance(cfg, st, pc, hint); StepRefines(cfg, st, pc, [], st', pc')
  {
    var (st', pc') := Advance(cfg, st, pc, hint);
    AbsPlain(st, pc);
    AbsPlain(st', pc');
  }

  // A put whose bytes are written is down to its last checks.
  lemma PutIsStaged(cfg: Config, st: State, c: PutCall, rel: Path, cur: Current)
    requires CheckedPut(st, c, rel, cur) && WrittenPut(cfg, st, c)
    ensures var before := st.(temps := st.temps - {c.tmp});
            Put(cfg, before, c) ==
            PutStaged(cfg, before, rel, cur, c.base, c.declared, c.reader.body, c.mode, c.device, c.faults)
  {
  }

  lemma PutPromotes(cfg: Config, st: State, pc: Pc, hint: Option<Path>)
    requires pc.PutPriced? && PcValid(cfg, st, pc, [])
    ensures var (st', pc') := Advance(cfg, st, pc, hint); StepRefines(cfg, st, pc, [], st', pc')
  {
    var (st', pc') := Advance(cfg, st, pc, hint);
    PutIsStaged(cfg, st, pc.c, pc.rel, pc.cur);
    if pc'.PutPromoted? {
      PutGoesIn(cfg, st, pc, st', pc');
    } else {
      AbsPlain(st, pc);
      AbsPlain(st', pc');
    }
  }

  lemma PutGoesIn(cfg: Config, st: State, pc: Pc, st': State, pc': Pc)
    requires pc.PutPriced? && PcValid(cfg, st, pc, []) && pc' == PutPromoted(pc.c, pc.rel, pc.cur, pc.used)
    requires GateAllows(cfg.limit, pc.used, pc.cur.size, |pc.c.reader.body|) && !pc.c.faults.promote
    requires st' == st.(disk := st.disk[pc.rel := pc.c.reader.body], temps := st.temps - {pc.c.tmp})
    ensures StepRefines(cfg, st, pc, [], st', pc')
  {
    AbsPlain(st, pc);
    PutIsStaged(cfg, st, pc.c, pc.rel, pc.cur);
    if pc.c.faults.commit {
      AbsPlain(st', pc');
    }
  }

  lemma PutCommits(cfg: Config, st: State, pc: Pc, hint: Option<Path>)
    requires pc.PutPromoted? && PcValid(cfg, st, pc, [])
    ensures var (st', pc') := Advance(cfg, st, pc, hint); StepRefines(cfg, st, pc, [], st', pc')
  {
    var (st', pc') := Advance(cfg, st, pc, hint);
    if pc.c.faults.commit {
      AbsPlain(st, pc);
      AbsPlain(st', pc');
    } else {
      PutRowGoesIn(cfg, st, pc, st', pc');
    }
  }

  lemma PutRowGoesIn(cfg: Config, st: State, pc: Pc, st': State, pc': Pc)
    requires pc.PutPromoted? && !pc.c.faults.commit
    requires st' == CommitAll(st, map[pc.rel := PutVersion(pc.cur, pc.c.reader.body, pc.c.base, pc.c.device)])
    requires pc' == Leaving(Answered(Confirmed(pc.cur.rev + 1, pc.c.faults.unheard)))
    ensures StepRefines(cfg, st, pc, [], st', pc')
  {
    AbsPlain(st', pc');
    AbsPromoted(st, pc);
  }

  lemma AbsPromoted(st: State, pc: Pc)
    requires pc.PutPromoted? && !pc.c.faults.commit
    ensures AbsAt(st, pc) == CommitAll(st, map[pc.rel := PutVersion(pc.cur, pc.c.reader.body, pc.c.base, pc.c.device)])
  {
    assert st.(disk := st.disk, temps := st.temps) == st;
  }

  // ---------- Delete ----------

  lemma DeleteEnters(cfg: Config, st: State, pc: Pc, hint: Option<Path>)
    requires pc.Entered? && pc.op.DeleteOp?
    ensures var (st', pc') := Advance(cfg, st, pc, hint); StepRefines(cfg, st, pc, [], st', pc')
  {
    var (st', pc') := Advance(cfg, st, pc, hint);
    AbsPlain(st, pc);
    AbsPlain(st', pc');
  }

  lemma DeleteRemoves(cfg: Config, st: State, pc: Pc, hint: Option<Path>)
    requires pc.DeleteChecked? && PcValid(cfg, st, pc, [])
    ensures var (st', pc') := Advance(cfg, st, pc, hint); StepRefines(cfg, st, pc, [], st', pc')
  {
    var (st', pc') := Advance(cfg, st, pc, hint);
    if pc.d.faults.remove {
      AbsPlain(st, pc);
      AbsPlain(st', pc');
    } else {
      FileGoes(cfg, st, pc, st', pc');
    }
  }

  lemma FileGoes(cfg: Config, st: State, pc: Pc, st': State, pc': Pc)
    requires pc.DeleteChecked? && PcValid(cfg, st, pc, []) && !pc.d.faults.remove
    requires st' == st.(disk := st.disk - {pc.rel}) && pc' == DeleteRemoved(pc.d, pc.rel, pc.cur)
    ensures StepRefines(cfg, st, pc, [], st', pc')
  {
    AbsPlain(st, pc);
    if pc.d.faults.commit {
      AbsPlain(st', pc');
    }
  }

  lemma DeleteCommits(cfg: Config, st: State, pc: Pc, hint: Option<Path>)
    requires pc.DeleteRemoved? && PcValid(cfg, st, pc, [])
    ensures var (st', pc') := Advance(cfg, st, pc, hint); StepRefines(cfg, st, pc, [], st', pc')
  {
    var (st', pc') := Advance(cfg, st, pc, hint);
    AbsPlain(st', pc');
    if pc.d.faults.commit {
      AbsPlain(st, pc);
    }
  }

  // ---------- Reconcile ----------

  lemma ReconcileEnters(cfg: Config, st: State, pc: Pc, hint: Option<Path>)
    requires pc.Entered? && pc.op.ReconcileOp?
    ensures var (st', pc') := Advance(cfg, st, pc, hint); StepRefines(cfg, st, pc, [], st', pc')
  {
    var (st', pc') := Advance(cfg, st, pc, hint);
    AbsPlain(st, pc);
    AbsPlain(st', pc');
    if pc'.Scanning? {
      assert map[] + (st.disk - {}) == st.disk;
    }
  }

  // Reading one more file freezes it without changing what the scan sees.
  lemma ScanReads(cfg: Config, st: State, pc: Pc, p: Path, late: seq<Step>)
    requires pc.Scanning? && PcValid(cfg, st, pc, late)
    ensures var (st', pc') := Advance(cfg, st, pc, Some(p)); StepRefines(cfg, st, pc, late, st', pc')
  {
    var (st', pc') := Advance(cfg, st, pc, Some(p));
    AbsPlain(st, pc);
    AbsPlain(st', pc');
    if pc' != pc {
      FreezeOne(st.disk, pc, p);
    }
  }

  lemma FreezeOne(disk: map<Path, Content>, pc: Pc, p: Path)
    requires pc.Scanning? && p !in pc.visited && pc.got.Keys <= pc.visited
    ensures Frozen(disk, Scanning(pc.f, if p in disk then pc.got[p := disk[p]] else pc.got, pc.visited + {p})) == Frozen(disk, pc)
  {
  }

  // A finished scan lists exactly the scannable files of the frozen disk.
  lemma ScanIsFrozenDisk(cfg: Config, st: State, pc: Pc, late: seq<Step>)
    requires pc.Scanning? && PcValid(cfg, st, pc, late) && Scan(st.disk).Keys <= pc.visited
    ensures Scan(Frozen(st.disk, pc)) == pc.got
  {
    var frozen := Frozen(st.disk, pc);
    forall p | p in frozen && Paths.Scannable(p) ensures p in pc.got {
      assert p in pc.visited || p in Scan(st.disk).Keys;
    }
  }

  lemma {:induction false} RunEdits(cfg: Config, st: State, edits: seq<Step>)
    requires forall s | s in edits :: IsEdit(s)
    ensures Run(cfg, st, edits) == st.(disk := EditAll(st.disk, edits))
    decreases |edits|
  {
    if edits != [] {
      var init, e := edits[..|edits| - 1], edits[|edits| - 1];
      assert edits == init + [e] && e in edits;
      RunConcat(cfg, st, init, [e]);
      RunEdits(cfg, st, init);
      var mid := Run(cfg, st, init);
      assert [e][1..] == [];
      assert Run(cfg, mid, [e]) == Apply(cfg, mid, e);
    }
  }

  lemma CommitIgnoresDisk(st: State, news: map<Path, Version>, disk: map<Path, Content>)
    ensures CommitAll(st, news).(disk := disk) == CommitAll(st.(disk := disk), news)
  {
    assert Appended(st, news) == Appended(st.(disk := disk), news);
  }

  // The end of the scan is where a reconcile takes effect; the edits it missed follow at once.
  lemma ScanEnds(cfg: Config, st: State, pc: Pc, late: seq<Step>)
    requires pc.Scanning? && PcValid(cfg, st, pc, late)
    ensures var (st', pc') := Advance(cfg, st, pc, None); StepRefines(cfg, st, pc, late, st', pc')
  {
    var (st', pc') := Advance(cfg, st, pc, None);
    AbsPlain(st, pc);
    if pc'.Scanned? {
      FullScanEnds(cfg, st, pc, late, st', pc');
    }
  }

  lemma FullScanEnds(cfg: Config, st: State, pc: Pc, late: seq<Step>, st': State, pc': Pc)
    requires pc.Scanning? && PcValid(cfg, st, pc, late) && Scan(st.disk).Keys <= pc.visited
    requires st' == st && pc' == Scanned(pc.f, pc.got)
    requires AbsAt(st, pc) == st.(disk := Frozen(st.disk, pc), temps := Settled(st.temps, pc))
    ensures StepRefines(cfg, st, pc, late, st', pc')
  {
    ScanIsFrozenDisk(cfg, st, pc, late);
    RunEdits(cfg, Reconcile(AbsAt(st, pc), pc.f), late);
    ScanTakesEffect(cfg, st, pc, AbsAt(st, pc));
  }

  // What a finished scan is bound to commit is what the reconcile commits on the disk as the scan saw it.
  lemma ScanTakesEffect(cfg: Config, st: State, pc: Pc, before: State)
    requires pc.Scanning? && !pc.f.scan && Scan(before.disk) == pc.got
    requires before == st.(disk := before.disk, temps := st.temps)
    ensures AbsAt(st, Scanned(pc.f, pc.got)) == Reconcile(before, pc.f).(disk := st.disk)
    ensures Reconcile(before, pc.f).disk == before.disk
  {
    if pc.f.manifest {
      AbsPlain(st, Scanned(pc.f, pc.got));
    } else {
      CommitIgnoresDisk(before, Observations(st.index, pc.got, pc.f.commits), st.disk);
    }
  }

  lemma ManifestReads(cfg: Config, st: State, pc: Pc, hint: Option<Path>)
    requires pc.Scanned?
    ensures var (st', pc') := Advance(cfg, st, pc, hint); StepRefines(cfg, st, pc, [], st', pc')
  {
    var (st', pc') := Advance(cfg, st, pc, hint);
    if pc.f.manifest {
      AbsPlain(st, pc);
      AbsPlain(st', pc');
    }
  }

  lemma CommitPulledOut(st: State, todo: map<Path, Version>, p: Path)
    requires p in todo
    ensures CommitAll(CommitAll(st, map[p := todo[p]]), todo - {p}) == CommitAll(st, todo)
  {
    var one, rest := map[p := todo[p]], todo - {p};
    CommitAllTwice(st, one, rest);
    PulledOut(todo, p);
  }

  lemma PulledOut(todo: map<Path, Version>, p: Path)
    requires p in todo
    ensures map[p := todo[p]] + (todo - {p}) == todo
  {
  }

  lemma AbsCommitting(st: State, todo: map<Path, Version>)
    ensures AbsAt(st, Committing(todo)) == CommitAll(st, todo)
  {
    assert st.(disk := st.disk, temps := st.temps) == st;
  }

  lemma ReconcileCommits(cfg: Config, st: State, pc: Pc, hint: Option<Path>)
    requires pc.Committing?
    ensures var (st', pc') := Advance(cfg, st, pc, hint); StepRefines(cfg, st, pc, [], st', pc')
  {
    var (st', pc') := Advance(cfg, st, pc, hint);
    AbsCommitting(st, pc.todo);
    if hint.Some? && hint.value in pc.todo {
      var p := hint.value;
      CommitPulledOut(st, pc.todo, p);
      AbsCommitting(st', pc.todo - {p});
      assert pc' == Committing(pc.todo - {p}) && st' == CommitAll(st, map[p := pc.todo[p]]);
      assert AbsAt(st', pc') == AbsAt(st, pc);
    } else if pc.todo == map[] {
      AbsPlain(st, pc);
      AbsPlain(st', pc');
    }
  }

  // ---------- Every step ----------

  lemma AdvanceRefines(cfg: Config, st: State, pc: Pc, hint: Option<Path>, late: seq<Step>)
    requires InLock(pc) && !pc.Leaving? && PcValid(cfg, st, pc, late)
    ensures var (st', pc') := Advance(cfg, st, pc, hint); StepRefines(cfg, st, pc, late, st', pc')
  {
    match pc
    case Entered(op) =>
      match op {
        case PutOp(_) => PutEnters(cfg, st, pc, hint);
        case DeleteOp(_) => DeleteEnters(cfg, st, pc, hint);
        case ReconcileOp(_) => ReconcileEnters(cfg, st, pc, hint);
      }
    case PutChecked(_, _, _) => PutWrites(cfg, st, pc, hint);
    case PutWritten(_, _, _) => PutPrices(cfg, st, pc, hint);
    case PutPriced(_, _, _, _) => PutPromotes(cfg, st, pc, hint);
    case PutPromoted(_, _, _, _) => PutCommits(cfg, st, pc, hint);
    case DeleteChecked(_, _, _) => DeleteRemoves(cfg, st, pc, hint);
    case DeleteRemoved(_, _, _) => DeleteCommits(cfg, st, pc, hint);
    case Scanning(_, _, _) =>
      if hint.Some? {
        ScanReads(cfg, st, pc, hint.value, late);
      } else {
        ScanEnds(cfg, st, pc, late);
      }
    case Scanned(_, _) => ManifestReads(cfg, st, pc, hint);
    case Committing(_) => ReconcileCommits(cfg, st, pc, hint);
  }

  // ---------- Edits ----------

  lemma {:induction false} EditCommutes(disk: map<Path, Content>, e: Step, late: seq<Step>)
    requires IsEdit(e) && forall s | s in late :: IsEdit(s) && s.path != e.path
    ensures EditAll(EditOne(disk, e), late) == EditOne(EditAll(disk, late), e)
  {
    if late != [] {
      var last := late[|late| - 1];
      assert last in late;
      EditCommutes(disk, e, late[..|late| - 1]);
      SwapEdits(EditAll(disk, late[..|late| - 1]), e, last);
    }
  }

  lemma SwapEdits(disk: map<Path, Content>, a: Step, b: Step)
    requires IsEdit(a) && IsEdit(b) && a.path != b.path
    ensures EditOne(EditOne(disk, a), b) == EditOne(EditOne(disk, b), a)
  {
  }

  // An edit to a file the scan has yet to read is seen by the scan.
  lemma EditIsSeen(st: State, pc: Pc, e: Step)
    requires IsEdit(e) && (pc.Scanning? ==> e.path !in pc.visited && pc.got.Keys <= pc.visited)
    ensures Frozen(EditOne(st.disk, e), pc) == EditOne(Frozen(st.disk, pc), e)
  {
  }

  lemma EditSeen(cfg: Config, st: State, pc: Pc, late: seq<Step>, s: Step)
    requires IsEdit(s) && PcValid(cfg, st, pc, late) && !(pc.Scanning? && s.path in pc.visited)
    ensures var st' := st.(disk := EditOne(st.disk, s));
            PcValid(cfg, st', pc, late) && AbsAt(st', pc) == AbsAt(st, pc).(disk := EditOne(AbsAt(st, pc).disk, s))
  {
    EditIsSeen(st, pc, s);
    if pc.Scanning? {
      EditCommutes(Frozen(st.disk, pc), s, late);
    }
    CommitIgnoresDisk(st.(disk := Frozen(st.disk, pc), temps := Settled(st.temps, pc)), Pending(st.index, pc),
                      EditOne(Frozen(st.disk, pc), s));
  }

  lemma EditMissed(cfg: Config, st: State, pc: Pc, late: seq<Step>, s: Step)
    requires IsEdit(s) && PcValid(cfg, st, pc, late) && pc.Scanning? && s.path in pc.visited
    ensures var st' := st.(disk := EditOne(st.disk, s));
            PcValid(cfg, st', pc, late + [s]) && AbsAt(st', pc) == AbsAt(st, pc)
  {
    assert Frozen(EditOne(st.disk, s), pc) == Frozen(st.disk, pc);
    assert (late + [s])[..|late + [s]| - 1] == late;
  }

  lemma EditRefines(cfg: Config, w: World, s: Step)
    requires Inv(cfg, w) && IsEdit(s)
    ensures var w' := Next(cfg, w, Edit(s));
            Inv(cfg, w') && Abs(w') == if Missed(w, s.path) then Abs(w) else Apply(cfg, Abs(w), s)
  {
    assert Apply(cfg, w.st, s) == w.st.(disk := EditOne(w.st.disk, s));
    if Missed(w, s.path) {
      EditMissed(cfg, w.st, HolderPc(w), w.late, s);
    } else {
      EditSeen(cfg, w.st, HolderPc(w), w.late, s);
    }
  }

  // ---------- The simulation ----------

  // The replay of the serial run so far agrees with the world.
  ghost predicate Matches(w: World, r: Replayed) {
    && r.st == Abs(w)
    && forall sid | sid in w.pcs && AnswerOf(w.pcs[sid]).Some? ::
      sid in r.answers && r.answers[sid] == AnswerOf(w.pcs[sid]).value
  }

  lemma {:induction false} ReplayUnsigned(cfg: Config, r: Replayed, edits: seq<Step>)
    ensures Replay(cfg, r, Unsigned(edits)) == Replayed(Run(cfg, r.st, edits), r.answers)
    decreases |edits|
  {
    if edits == [] {
      assert Unsigned(edits) == [];
    } else {
      var init, e := edits[..|edits| - 1], edits[|edits| - 1];
      ReplayUnsigned(cfg, r, init);
      assert Unsigned(edits)[..|edits| - 1] == Unsigned(init);
      assert edits == init + [e] && [e][1..] == [];
      RunConcat(cfg, r.st, init, [e]);
      assert Run(cfg, Run(cfg, r.st, init), [e]) == Apply(cfg, Run(cfg, r.st, init), e);
    }
  }

  lemma ReplayDecision(cfg: Config, r: Replayed, step: Step, sid: Sid, late: seq<Step>)
    ensures Replay(cfg, r, [Entry(step, Some(sid))] + Unsigned(late)) ==
            Replayed(Run(cfg, Apply(cfg, r.st, step), late), r.answers[sid := StepAnswer(cfg, r.st, step)])
  {
    ReplayConcat(cfg, r, [Entry(step, Some(sid))], Unsigned(late));
    ReplayOne(cfg, r, Entry(step, Some(sid)));
    ReplayUnsigned(cfg, Replay(cfg, r, [Entry(step, Some(sid))]), late);
  }

  // The lock holder takes a step.
  lemma HolderMoves(cfg: Config, w: World, sid: Sid, hint: Option<Path>, r: Replayed)
    requires Inv(cfg, w) && Matches(w, r) && InLock(PcOf(w, sid)) && !PcOf(w, sid).Leaving?
    ensures var e := Move(sid, hint);
            Inv(cfg, Next(cfg, w, e)) && Matches(Next(cfg, w, e), Replay(cfg, r, Contribution(cfg, w, e)))
  {
    var pc := PcOf(w, sid);
    var (st', pc') := Advance(cfg, w.st, pc, hint);
    AdvanceRefines(cfg, w.st, pc, hint, w.late);
    MoveIs(cfg, w, sid, hint, st', pc');
    StepReplays(cfg, w, sid, st', pc', r);
  }

  // The holder's step as an update of the world, and what it adds to the serial run.
  function Moved(w: World, sid: Sid, st': State, pc': Pc): World {
    w.(st := st', pcs := w.pcs[sid := pc'], late := if pc'.Scanning? then w.late else [])
  }

  function Decided(w: World, sid: Sid, pc: Pc, pc': Pc): seq<Entry> {
    if Undecided(pc).Some? && AnswerOf(pc').Some? then
      [Entry(OpStep(Undecided(pc).value), Some(sid))] + Unsigned(if pc.Scanning? then w.late else [])
    else []
  }

  lemma MoveIs(cfg: Config, w: World, sid: Sid, hint: Option<Path>, st': State, pc': Pc)
    requires InLock(PcOf(w, sid)) && !PcOf(w, sid).Leaving? && (st', pc') == Advance(cfg, w.st, PcOf(w, sid), hint)
    ensures Next(cfg, w, Move(sid, hint)) == Moved(w, sid, st', pc')
    ensures Contribution(cfg, w, Move(sid, hint)) == Decided(w, sid, PcOf(w, sid), pc')
  {
    assert Next(cfg, w, Move(sid, hint)) == Moved(w, sid, st', pc');
    assert Unsigned([]) == [];
  }

  lemma StepReplays(cfg: Config, w: World, sid: Sid, st': State, pc': Pc, r: Replayed)
    requires Inv(cfg, w) && Matches(w, r) && InLock(PcOf(w, sid))
    requires StepRefines(cfg, w.st, PcOf(w, sid), w.late, st', pc')
    ensures Inv(cfg, Moved(w, sid, st', pc'))
    ensures Matches(Moved(w, sid, st', pc'), Replay(cfg, r, Decided(w, sid, PcOf(w, sid), pc')))
  {
    var pc, w' := PcOf(w, sid), Moved(w, sid, st', pc');
    HolderKeepsInv(cfg, w, sid, st', pc');
    if Undecided(pc).Some? && AnswerOf(pc').Some? {
      ReplayDecision(cfg, r, OpStep(Undecided(pc).value), sid, if pc.Scanning? then w.late else []);
      MatchesAnswer(w, w', sid, pc', r, AnswerOf(pc').value);
    } else {
      MatchesStill(w, w', sid, pc', r);
    }
  }

  lemma HolderKeepsInv(cfg: Config, w: World, sid: Sid, st': State, pc': Pc)
    requires Inv(cfg, w) && InLock(PcOf(w, sid)) && StepRefines(cfg, w.st, PcOf(w, sid), w.late, st', pc')
    ensures var w' := Moved(w, sid, st', pc');
            && Inv(cfg, w') && HolderPc(w) == PcOf(w, sid) && HolderPc(w') == pc' && sid in w.pcs
            && (!PcOf(w, sid).Scanning? ==> w.late == [])
  {
    assert w.owner == Some(sid) && InLock(pc');
  }

  lemma MatchesAnswer(w: World, w': World, sid: Sid, pc': Pc, r: Replayed, a: Answer)
    requires Matches(w, r) && w'.pcs == w.pcs[sid := pc'] && AnswerOf(pc') == Some(a)
    ensures Matches(w', Replayed(Abs(w'), r.answers[sid := a]))
  {
  }

  lemma MatchesStill(w: World, w': World, sid: Sid, pc': Pc, r: Replayed)
    requires Matches(w, r) && w'.pcs == w.pcs[sid := pc'] && sid in w.pcs
    requires AnswerOf(pc') == AnswerOf(w.pcs[sid]) && Abs(w') == Abs(w)
    ensures Matches(w', r)
  {
  }

  lemma AbsIdle(st: State)
    ensures AbsAt(st, Idle) == st
  {
    AbsPlain(st, Idle);
  }

  // A path no request may name is refused before the lock.
  lemma TurnedAway(cfg: Config, w: World, sid: Sid, hint: Option<Path>, r: Replayed)
    requires Inv(cfg, w) && Matches(w, r) && PcOf(w, sid).Waiting? && !SafeOp(PcOf(w, sid).op)
    ensures var e := Move(sid, hint);
            Inv(cfg, Next(cfg, w, e)) && Matches(Next(cfg, w, e), Replay(cfg, r, Contribution(cfg, w, e)))
  {
    var step := OpStep(PcOf(w, sid).op);
    var w' := Next(cfg, w, Move(sid, hint));
    ReplayDecision(cfg, r, step, sid, []);
    assert Unsigned([]) == [] && [Entry(step, Some(sid))] + [] == [Entry(step, Some(sid))];
    assert Apply(cfg, r.st, step) == r.st && StepAnswer(cfg, r.st, step) == Answered(Reject(UnsafePath));
    assert HolderPc(w') == HolderPc(w);
  }

  lemma Acquires(cfg: Config, w: World, sid: Sid, hint: Option<Path>)
    requires Inv(cfg, w) && PcOf(w, sid).Waiting? && SafeOp(PcOf(w, sid).op) && w.owner.None?
    ensures Inv(cfg, Next(cfg, w, Move(sid, hint))) && Abs(Next(cfg, w, Move(sid, hint))) == Abs(w)
  {
    AbsIdle(w.st);
    AbsPlain(w.st, Entered(PcOf(w, sid).op));
  }

  lemma Releases(cfg: Config, w: World, sid: Sid, hint: Option<Path>)
    requires Inv(cfg, w) && PcOf(w, sid).Leaving?
    ensures Inv(cfg, Next(cfg, w, Move(sid, hint))) && Abs(Next(cfg, w, Move(sid, hint))) == Abs(w)
  {
    AbsPlain(w.st, PcOf(w, sid));
    AbsIdle(w.st);
  }

  // Taking or leaving the lock, or being turned away before it.
  lemma OutsiderMoves(cfg: Config, w: World, sid: Sid, hint: Option<Path>, r: Replayed)
    requires Inv(cfg, w) && Matches(w, r) && (!InLock(PcOf(w, sid)) || PcOf(w, sid).Leaving?)
    ensures var e := Move(sid, hint);
            Inv(cfg, Next(cfg, w, e)) && Matches(Next(cfg, w, e), Replay(cfg, r, Contribution(cfg, w, e)))
  {
    var pc := PcOf(w, sid);
    if pc.Waiting? && !SafeOp(pc.op) {
      TurnedAway(cfg, w, sid, hint, r);
    } else if pc.Waiting? && w.owner.None? {
      Acquires(cfg, w, sid, hint);
    } else if pc.Leaving? {
      Releases(cfg, w, sid, hint);
    }
  }

  lemma Simulates(cfg: Config, w: World, e: Event, r: Replayed)
    requires Inv(cfg, w) && Matches(w, r)
    ensures Inv(cfg, Next(cfg, w, e)) && Matches(Next(cfg, w, e), Replay(cfg, r, Contribution(cfg, w, e)))
  {
    match e
    case Call(sid, op) =>
      assert HolderPc(Next(cfg, w, e)) == HolderPc(w);
    case Edit(s) =>
      if IsEdit(s) {
        EditRefines(cfg, w, s);
        ReplayOne(cfg, r, Entry(s, None));
      }
    case Move(sid, hint) =>
      if InLock(PcOf(w, sid)) && !PcOf(w, sid).Leaving? {
        HolderMoves(cfg, w, sid, hint, r);
      } else {
        OutsiderMoves(cfg, w, sid, hint, r);
      }
  }

  lemma {:induction false} ExecSimulates(cfg: Config, st: State, events: seq<Event>)
    ensures var w := Exec(cfg, Start(st), events);
            Inv(cfg, w) && Matches(w, Replay(cfg, Replayed(st, map[]), Serial(cfg, Start(st), events)))
    decreases |events|
  {
    var r := Replayed(st, map[]);
    if events == [] {
      AbsPlain(st, Idle);
    } else {
      var init, e := events[..|events| - 1], events[|events| - 1];
      var before := Exec(cfg, Start(st), init);
      ExecSimulates(cfg, st, init);
      Simulates(cfg, before, e, Replay(cfg, r, Serial(cfg, Start(st), init)));
      ReplayConcat(cfg, r, Serial(cfg, Start(st), init), Contribution(cfg, before, e));
    }
  }

  function Steps(entries: seq<Entry>): seq<Step> {
    seq(|entries|, i requires 0 <= i < |entries| => entries[i].step)
  }

  lemma {:induction false} ReplayIsRun(cfg: Config, r: Replayed, entries: seq<Entry>)
    ensures Replay(cfg, r, entries).st == Run(cfg, r.st, Steps(entries))
    decreases |entries|
  {
    if entries != [] {
      var init, e := entries[..|entries| - 1], entries[|entries| - 1];
      ReplayIsRun(cfg, r, init);
      assert Steps(entries) == Steps(init) + [e.step] && [e.step][1..] == [];
      RunConcat(cfg, r.st, Steps(init), [e.step]);
      assert Run(cfg, Run(cfg, r.st, Steps(init)), [e.step]) == Apply(cfg, Run(cfg, r.st, Steps(init)), e.step);
    }
  }

  // ---------- Main results ----------

  // Every interleaving is a serial run: whenever the lock is free the project is in the state the serial
  // run reaches ...
  lemma InterleavingIsSerial(cfg: Config, st: State, events: seq<Event>)
    requires Exec(cfg, Start(st), events).owner.None?
    ensures Exec(cfg, Start(st), events).st == Run(cfg, st, Steps(Serial(cfg, Start(st), events)))
  {
    ExecSimulates(cfg, st, events);
    ReplayIsRun(cfg, Replayed(st, map[]), Serial(cfg, Start(st), events));
    AbsIdle(Exec(cfg, Start(st), events).st);
  }

  // ... and every finished session got the answer its latest operation gives in that serial run.
  lemma AnswersAreSerial(cfg: Config, st: State, events: seq<Event>, sid: Sid)
    requires PcOf(Exec(cfg, Start(st), events), sid).Done?
    ensures var answers := Replay(cfg, Replayed(st, map[]), Serial(cfg, Start(st), events)).answers;
            sid in answers && answers[sid] == PcOf(Exec(cfg, Start(st), events), sid).answer
  {
    ExecSimulates(cfg, st, events);
    MatchedAnswer(Exec(cfg, Start(st), events), Replay(cfg, Replayed(st, map[]), Serial(cfg, Start(st), events)), sid);
  }

  lemma MatchedAnswer(w: World, r: Replayed, sid: Sid)
    requires Matches(w, r) && PcOf(w, sid).Done?
    ensures sid in r.answers && r.answers[sid] == PcOf(w, sid).answer
  {
  }

  // What a put read before is still true when it promotes and when it commits: no other session has
  // moved its row or the total in between.
  lemma PutReadsStayValid(cfg: Config, st: State, events: seq<Event>, sid: Sid)
    ensures var w := Exec(cfg, Start(st), events);
            var pc := PcOf(w, sid);
            && (pc.PutPriced? || pc.PutPromoted? ==>
                  pc.cur == CurrentOf(w.st.index, pc.rel) && BaseMatches(pc.cur, pc.c.base) && pc.used == Used(w.st.index))
            && (forall other | other in w.pcs && InLock(pc) && InLock(w.pcs[other]) :: other == sid)
  {
    ExecSimulates(cfg, st, events);
  }

  // The chain of revisions holds for concurrent sessions too.
  lemma ConcurrentRevisionsAreGapless(cfg: Config, events: seq<Event>, p: Path)
    requires Exec(cfg, Start(EMPTY), events).owner.None?
    ensures var st := Exec(cfg, Start(EMPTY), events).st;
            Chained(History(st, p)) && RevAt(st, p) == |History(st, p)|
  {
    InterleavingIsSerial(cfg, EMPTY, events);
    var serial := Steps(Serial(cfg, Start(EMPTY), events));
    RevisionsAreGapless(cfg, serial, p);
    assert forall q :: RowIsLast(EMPTY, q);
    RunKeepsConsistent(cfg, EMPTY, serial);
    ConsistentAt(Run(cfg, EMPTY, serial), p);
  }

  // ---------- Whose operations ----------

  // The operations a session has taken up, in order; a call while it is busy changes nothing.
  ghost function Asked(cfg: Config, w: World, events: seq<Event>, sid: Sid): seq<Step> {
    if events == [] then []
    else
      var init := events[..|events| - 1];
      Asked(cfg, w, init, sid) + Taken(Exec(cfg, w, init), events[|events| - 1], sid)
  }

  function Taken(w: World, e: Event, sid: Sid): seq<Step> {
    if e.Call? && e.sid == sid && (PcOf(w, sid).Idle? || PcOf(w, sid).Done?) then [OpStep(e.op)] else []
  }

  // The operation it is still about, if any.
  function Open(w: World, sid: Sid): seq<Step> {
    var op := Undecided(PcOf(w, sid));
    if op.Some? then [OpStep(op.value)] else []
  }

  // The steps a session has signed, in order.
  function SignedBy(entries: seq<Entry>, sid: Sid): seq<Step> {
    if entries == [] then []
    else
      var e := entries[|entries| - 1];
      SignedBy(entries[..|entries| - 1], sid) + if e.sid == Some(sid) then [e.step] else []
  }

  lemma {:induction false} SignedConcat(a: seq<Entry>, b: seq<Entry>, sid: Sid)
    ensures SignedBy(a + b, sid) == SignedBy(a, sid) + SignedBy(b, sid)
    decreases |b|
  {
    if b == [] {
      EmptyIsUnit(a);
      EmptyIsUnit(SignedBy(a, sid));
    } else {
      var init, e := b[..|b| - 1], b[|b| - 1];
      assert (a + b)[..|a + b| - 1] == a + init;
      SignedConcat(a, init, sid);
      Associative(SignedBy(a, sid), SignedBy(init, sid), if e.sid == Some(sid) then [e.step] else []);
    }
  }

  lemma {:induction false} NobodySigned(edits: seq<Step>, sid: Sid)
    ensures SignedBy(Unsigned(edits), sid) == []
  {
    if edits != [] {
      assert Unsigned(edits)[..|edits| - 1] == Unsigned(edits[..|edits| - 1]);
      NobodySigned(edits[..|edits| - 1], sid);
    }
  }

  lemma SignedOne(step: Step, author: Option<Sid>, late: seq<Step>, sid: Sid)
    ensures SignedBy([Entry(step, author)] + Unsigned(late), sid) == if author == Some(sid) then [step] else []
  {
    SignedConcat([Entry(step, author)], Unsigned(late), sid);
    NobodySigned(late, sid);
    assert [Entry(step, author)][..0] == [] && SignedBy([], sid) == [];
  }

  // A step keeps what the session is about, or decides it.
  lemma AdvanceKeepsOp(cfg: Config, st: State, pc: Pc, hint: Option<Path>)
    ensures var pc' := Advance(cfg, st, pc, hint).1;
            Undecided(pc') == if AnswerOf(pc').Some? then None else Undecided(pc)
  {
  }

  // Seen from any session, a move leaves an undecided operation as it was, or decides it.
  lemma MoveKeepsOp(cfg: Config, w: World, mover: Sid, hint: Option<Path>, sid: Sid)
    ensures var pc, pc' := PcOf(w, sid), PcOf(Next(cfg, w, Move(mover, hint)), sid);
            if sid == mover then Undecided(pc') == if AnswerOf(pc').Some? then None else Undecided(pc)
            else pc' == pc
  {
    AdvanceKeepsOp(cfg, w.st, PcOf(w, mover), hint);
  }

  lemma MoveSigns(cfg: Config, w: World, mover: Sid, hint: Option<Path>, sid: Sid)
    ensures var e := Move(mover, hint);
            Open(w, sid) == SignedBy(Contribution(cfg, w, e), sid) + Open(Next(cfg, w, e), sid)
  {
    var pc := PcOf(w, mover);
    MoveKeepsOp(cfg, w, mover, hint, sid);
    if Undecided(pc).Some? {
      SignedOne(OpStep(Undecided(pc).value), Some(mover), if pc.Scanning? then w.late else [], sid);
      assert Unsigned([]) == [];
    }
  }

  // One event: what a session takes up it is about, until it is decided and signed.
  lemma EventSigns(cfg: Config, w: World, e: Event, sid: Sid)
    ensures Open(w, sid) + Taken(w, e, sid) == SignedBy(Contribution(cfg, w, e), sid) + Open(Next(cfg, w, e), sid)
  {
    match e
    case Call(_, _) =>
    case Edit(s) =>
      SignedOne(s, None, [], sid);
      assert Unsigned([]) == [] && [Entry(s, None)] + [] == [Entry(s, None)];
    case Move(mover, hint) => MoveSigns(cfg, w, mover, hint, sid);
  }

  // In the serial run every session has signed exactly the operations it took up, each once and in order;
  // only the one it is still about is to come. So the answers of AnswersAreSerial are to those operations.
  lemma {:induction false} OperationsKeepTheirOrder(cfg: Config, st: State, events: seq<Event>, sid: Sid)
    ensures Asked(cfg, Start(st), events, sid) ==
            SignedBy(Serial(cfg, Start(st), events), sid) + Open(Exec(cfg, Start(st), events), sid)
    decreases |events|
  {
    if events != [] {
      var init, e := events[..|events| - 1], events[|events| - 1];
      var w, done := Exec(cfg, Start(st), init), Serial(cfg, Start(st), init);
      OperationsKeepTheirOrder(cfg, st, init, sid);
      EventSigns(cfg, w, e, sid);
      SignedConcat(done, Contribution(cfg, w, e), sid);
      Regroup(SignedBy(done, sid), Open(w, sid), Taken(w, e, sid), SignedBy(Contribution(cfg, w, e), sid),
              Open(Next(cfg, w, e), sid));
    }
  }

  // What nobody signed is an edit made in the container.
  lemma {:induction false} OnlyEditsAreUnsigned(cfg: Config, st: State, events: seq<Event>)
    ensures forall x | x in Serial(cfg, Start(st), events) :: x.sid.None? <==> IsEdit(x.step)
    decreases |events|
  {
    if events != [] {
      var init := events[..|events| - 1];
      OnlyEditsAreUnsigned(cfg, st, init);
      ExecSimulates(cfg, st, init);
      var w, e := Exec(cfg, Start(st), init), events[|events| - 1];
      forall x | x in Contribution(cfg, w, e) ensures x.sid.None? <==> IsEdit(x.step) {
        if e.Move? && x.sid.None? {
          assert x in Unsigned(w.late);
        }
      }
    }
  }

  // ---------- Order ----------

  // The edits of p, in order.
  function EditsOn(steps: seq<Step>, p: Path): seq<Step> {
    if steps == [] then []
    else
      var e := steps[|steps| - 1];
      EditsOn(steps[..|steps| - 1], p) + if IsEdit(e) && e.path == p then [e] else []
  }

  function EditsIn(events: seq<Event>): seq<Step> {
    if events == [] then []
    else
      var e := events[|events| - 1];
      EditsIn(events[..|events| - 1]) + if e.Edit? && IsEdit(e.edit) then [e.edit] else []
  }

  lemma {:induction false} EditsOnConcat(a: seq<Step>, b: seq<Step>, p: Path)
    ensures EditsOn(a + b, p) == EditsOn(a, p) + EditsOn(b, p)
    decreases |b|
  {
    if b == [] {
      assert a + b == a;
    } else {
      assert (a + b)[..|a + b| - 1] == a + b[..|b| - 1];
      EditsOnConcat(a, b[..|b| - 1], p);
    }
  }

  lemma EditsOnOne(e: Step, p: Path)
    ensures EditsOn([e], p) == if IsEdit(e) && e.path == p then [e] else []
  {
    assert [e][..0] == [];
  }

  lemma {:induction false} NoEditsOn(steps: seq<Step>, p: Path)
    requires forall s | s in steps :: IsEdit(s) ==> s.path != p
    ensures EditsOn(steps, p) == []
  {
    if steps != [] {
      assert steps[|steps| - 1] in steps;
      NoEditsOn(steps[..|steps| - 1], p);
    }
  }

  lemma LateAfterMove(cfg: Config, w: World, sid: Sid, hint: Option<Path>)
    requires Inv(cfg, w)
    ensures var pc, w' := PcOf(w, sid), Next(cfg, w, Move(sid, hint));
            w'.late == if pc.Scanning? && AnswerOf(PcOf(w', sid)).Some? then [] else w.late
  {
    if PcOf(w, sid).Scanning? {
      assert Advance(cfg, w.st, PcOf(w, sid), hint).1.Scanning? || Advance(cfg, w.st, PcOf(w, sid), hint).1.Scanned?;
    } else if InLock(PcOf(w, sid)) {
      assert w.late == [];
    }
  }

  lemma MoveHandsOn(cfg: Config, w: World, sid: Sid, hint: Option<Path>, p: Path)
    requires Inv(cfg, w)
    ensures EditsOn(w.late, p) ==
            EditsOn(Steps(Contribution(cfg, w, Move(sid, hint))), p) + EditsOn(Next(cfg, w, Move(sid, hint)).late, p)
  {
    var e := Move(sid, hint);
    var pc, w' := PcOf(w, sid), Next(cfg, w, e);
    LateAfterMove(cfg, w, sid, hint);
    if Undecided(pc).Some? && AnswerOf(PcOf(w', sid)).Some? {
      DecisionHandsOn(OpStep(Undecided(pc).value), sid, if pc.Scanning? then w.late else [], p);
    }
  }

  lemma DecisionHandsOn(step: Step, sid: Sid, late: seq<Step>, p: Path)
    requires !IsEdit(step)
    ensures EditsOn(Steps([Entry(step, Some(sid))] + Unsigned(late)), p) == EditsOn(late, p)
    ensures Unsigned([]) == []
  {
    assert Steps([Entry(step, Some(sid))] + Unsigned(late)) == [step] + late;
    EditsOnConcat([step], late, p);
    EditsOnOne(step, p);
  }

  lemma EditHandsOn(cfg: Config, w: World, s: Step, p: Path)
    requires Inv(cfg, w) && IsEdit(s)
    ensures EditsOn(w.late, p) + (if s.path == p then [s] else []) ==
            EditsOn(Steps(Contribution(cfg, w, Edit(s))), p) + EditsOn(Next(cfg, w, Edit(s)).late, p)
  {
    EditsOnOne(s, p);
    EditSteps(cfg, w, s);
    if Missed(w, s.path) {
      EditsOnConcat(w.late, [s], p);
    } else if s.path == p {
      NoEditsOn(w.late, p);
    }
  }

  // An edit is signed at once, unless the running scan missed it.
  lemma EditSteps(cfg: Config, w: World, s: Step)
    requires IsEdit(s)
    ensures Steps(Contribution(cfg, w, Edit(s))) == if Missed(w, s.path) then [] else [s]
    ensures Next(cfg, w, Edit(s)).late == if Missed(w, s.path) then w.late + [s] else w.late
  {
    assert Steps([Entry(s, None)]) == [s];
  }

  // One event hands on the edits of p: from the events to the serial run, or to the late ones.
  lemma EditsMoveOn(cfg: Config, w: World, e: Event, p: Path)
    requires Inv(cfg, w)
    ensures EditsOn(w.late, p) + EditsOn(EditsIn([e]), p) ==
            EditsOn(Steps(Contribution(cfg, w, e)), p) + EditsOn(Next(cfg, w, e).late, p)
  {
    assert [e][..0] == [] && EditsIn([]) == [];
    match e
    case Call(_, _) =>
    case Edit(s) =>
      if IsEdit(s) {
        EditHandsOn(cfg, w, s, p);
        EditsOnOne(s, p);
      }
    case Move(sid, hint) => MoveHandsOn(cfg, w, sid, hint, p);
  }

  lemma Regroup<T>(a: seq<T>, b: seq<T>, c: seq<T>, d: seq<T>, e: seq<T>)
    requires b + c == d + e
    ensures (a + b) + c == (a + d) + e
  {
    assert (a + b) + c == a + (b + c);
    assert (a + d) + e == a + (d + e);
  }

  // On every path the serial run contains exactly the edits that happened, in the order they happened;
  // only edits a scan under way has missed are still to come.
  lemma {:induction false} EditsKeepTheirOrder(cfg: Config, st: State, events: seq<Event>, p: Path)
    ensures EditsOn(EditsIn(events), p) ==
            EditsOn(Steps(Serial(cfg, Start(st), events)), p) + EditsOn(Exec(cfg, Start(st), events).late, p)
    decreases |events|
  {
    if events != [] {
      var init, e := events[..|events| - 1], events[|events| - 1];
      EditsKeepTheirOrder(cfg, st, init, p);
      ExecSimulates(cfg, st, init);
      OneMoreEvent(cfg, Exec(cfg, Start(st), init), Serial(cfg, Start(st), init), init, e, p);
      UnSnoc(events);
    }
  }

  lemma OneMoreEvent(cfg: Config, w: World, done: seq<Entry>, init: seq<Event>, e: Event, p: Path)
    requires Inv(cfg, w) && EditsOn(EditsIn(init), p) == EditsOn(Steps(done), p) + EditsOn(w.late, p)
    ensures EditsOn(EditsIn(init + [e]), p) ==
            EditsOn(Steps(done + Contribution(cfg, w, e)), p) + EditsOn(Next(cfg, w, e).late, p)
  {
    var more := Contribution(cfg, w, e);
    EditsMoveOn(cfg, w, e, p);
    StepsConcat(done, more);
    EditsInGrows(init, e);
    ChainEdits(Steps(done), Steps(more), w.late, Next(cfg, w, e).late, EditsIn(init), EditsIn([e]), p);
  }

  lemma StepsConcat(a: seq<Entry>, b: seq<Entry>)
    ensures Steps(a + b) == Steps(a) + Steps(b)
  {
  }

  lemma EditsInGrows(init: seq<Event>, e: Event)
    ensures EditsIn(init + [e]) == EditsIn(init) + EditsIn([e])
  {
    SnocInit(init, e);
    assert [e][..0] == [] && EditsIn([]) == [];
  }

  lemma ChainEdits(done: seq<Step>, more: seq<Step>, late: seq<Step>, late': seq<Step>,
                   before: seq<Step>, now: seq<Step>, p: Path)
    requires EditsOn(before, p) == EditsOn(done, p) + EditsOn(late, p)
    requires EditsOn(late, p) + EditsOn(now, p) == EditsOn(more, p) + EditsOn(late', p)
    ensures EditsOn(before + now, p) == EditsOn(done + more, p) + EditsOn(late', p)
  {
    EditsOnConcat(before, now, p);
    EditsOnConcat(done, more, p);
    Regroup(EditsOn(done, p), EditsOn(late, p), EditsOn(now, p), EditsOn(more, p), EditsOn(late', p));
  }
}
