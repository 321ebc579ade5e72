/**
 Any number of sessions on one project, one small step at a time. Puts, deletes and reconciles hold
 the project lock (internal/sync/syncserver.go:49-59, cmd/worker-agent/main.go:95-100); edits in the
 container take no lock and may fall between any two steps, also in the middle of a scan.
 Every interleaving is shown to be a serial run of the operations of SyncServer.
 */
module Interleaving {
  import opened Options
  import opened Listing
  import opened FileIndex
  import opened SyncServer
  import Paths

  type Sid = nat

  datatype Op = PutOp(put: PutCall) | DeleteOp(delete: DeleteCall) | ReconcileOp(faults: ScanFaults)

  datatype Answer = Answered(result: Result) | Swept

  // Where a session is. Everything between Entered and Leaving happens under the lock.
  datatype Pc =
    | Idle
    | Waiting(op: Op)
    | Entered(op: Op)
    | PutChecked(c: PutCall, rel: Path, cur: Current)
    | PutWritten(c: PutCall, rel: Path, cur: Current)
    | PutPriced(c: PutCall, rel: Path, cur: Current, used: nat)
    | PutPromoted(c: PutCall, rel: Path, cur: Current, used: nat)
    | DeleteChecked(d: DeleteCall, rel: Path, cur: Current)
    | DeleteRemoved(d: DeleteCall, rel: Path, cur: Current)
    | Scanning(f: ScanFaults, got: map<Path, Content>, visited: set<Path>)
    | Scanned(f: ScanFaults, got: map<Path, Content>)
    | Committing(todo: map<Path, Version>)
    | Leaving(answer: Answer)
    | Done(answer: Answer)

  /** `late` remembers the edits that hit files the running scan had already read. */
  datatype World = World(st: State, owner: Option<Sid>, pcs: map<Sid, Pc>, late: seq<Step>)

  datatype Event = Call(sid: Sid, op: Op) | Move(sid: Sid, hint: Option<Path>) | Edit(edit: Step)

  function PcOf(w: World, sid: Sid): Pc {
    if sid in w.pcs then w.pcs[sid] else Idle
  }

  function Start(st: State): World {
    World(st, None, map[], [])
  }

  // ---------- Small steps ----------

  function SafeOp(op: Op): bool {
    match op
    case PutOp(c) => Paths.SafeRelPath(c.path).Some?
    case DeleteOp(d) => Paths.SafeRelPath(d.path).Some?
    case ReconcileOp(_) => true
  }

  function Refused(st: State, reason: Reason): (State, Pc) {
    (st, Leaving(Answered(Reject(reason))))
  }

  function Discarded(st: State, tmp: TempId, reason: Reason): (State, Pc) {
    (st.(temps := st.temps - {tmp}), Leaving(Answered(Reject(reason))))
  }

  // One step of the session holding the lock. `hint` is the path a scan reads or a reconcile
  // commits next; a scan ends on None, once nothing scannable is left unread.
  ghost function Advance(cfg: Config, st: State, pc: Pc, hint: Option<Path>): (State, Pc) {
    match pc
    case Entered(PutOp(c)) =>
      var rel := Paths.SafeRelPath(c.path);
      if rel.None? then Refused(st, UnsafePath)
      else if c.faults.current then Refused(st, Internal)
      else if !BaseMatches(CurrentOf(st.index, rel.value), c.base) then Refused(st, Conflict)
      else (st, PutChecked(c, rel.value, CurrentOf(st.index, rel.value)))
    case PutChecked(c, rel, cur) =>
      (match WriteTemp(cfg.maxBytes, st.temps, c.tmp, c.reader, c.faults.temp)
       case Oversized => Refused(st, TooLarge)
       case Unwritable => Refused(st, Internal)
       case Staged(content) => (st.(temps := st.temps[c.tmp := content]), PutWritten(c, rel, cur)))
    case PutWritten(c, rel, cur) =>
      if Sha(c.reader.body) != c.declared then Discarded(st, c.tmp, ShaMismatch)
      else if c.mode == Cleanup && |c.reader.body| >= cur.size then Discarded(st, c.tmp, ReadonlyMode)
      else if c.faults.total then Discarded(st, c.tmp, Internal)
      else (st, PutPriced(c, rel, cur, Used(st.index)))
    case PutPriced(c, rel, cur, used) =>
      if !GateAllows(cfg.limit, used, cur.size, |c.reader.body|) then Discarded(st, c.tmp, DiskFull)
      else if c.faults.promote || c.tmp !in st.temps then Discarded(st, c.tmp, Internal)
      else (st.(disk := st.disk[rel := st.temps[c.tmp]], temps := st.temps - {c.tmp}), PutPromoted(c, rel, cur, used))
    case PutPromoted(c, rel, cur, _) =>
      if c.faults.commit then Refused(st, Internal)
      else (CommitAll(st, map[rel := PutVersion(cur, c.reader.body, c.base, c.device)]),
            Leaving(Answered(Confirmed(cur.rev + 1, c.faults.unheard))))
    case Entered(DeleteOp(d)) =>
      var rel := Paths.SafeRelPath(d.path);
      if rel.None? then Refused(st, UnsafePath)
      else if d.faults.current then Refused(st, Internal)
      else
        var cur := CurrentOf(st.index, rel.value);
        if cur.found && cur.rev != d.base then Refused(st, Conflict)
        else if !cur.found then (st, Leaving(Answered(Ok(d.base))))
        else (st, DeleteChecked(d, rel.value, cur))
    case DeleteChecked(d, rel, cur) =>
      if d.faults.remove then Refused(st, Internal)
      else (st.(disk := st.disk - {rel}), DeleteRemoved(d, rel, cur))
    case DeleteRemoved(d, rel, cur) =>
      if d.faults.commit then Refused(st, Internal)
      else (CommitAll(st, map[rel := DeleteVersion(cur, d)]), Leaving(Answered(Confirmed(cur.rev + 1, d.faults.unheard))))
    case Entered(ReconcileOp(f)) =>
      if f.scan then (st, Leaving(Swept)) else (st, Scanning(f, map[], {}))
    case Scanning(f, got, visited) =>
      (match hint
       case Some(p) =>
         if !Paths.Scannable(p) || p in visited then (st, pc)
         else (st, Scanning(f, if p in st.disk then got[p := st.disk[p]] else got, visited + {p}))
       case None =>
         if Scan(st.disk).Keys <= visited then (st, Scanned(f, got)) else (st, pc))
    case Scanned(f, got) =>
      if f.manifest then (st, Leaving(Swept)) else (st, Committing(Observations(st.index, got, f.commits)))
    case Committing(todo) =>
      if hint.Some? && hint.value in todo then
        (CommitAll(st, map[hint.value := todo[hint.value]]), Committing(todo - {hint.value}))
      else if todo == map[] then (st, Leaving(Swept))
      else (st, pc)
    case _ => (st, pc)
  }

  predicate InLock(pc: Pc) {
    !pc.Idle? && !pc.Waiting? && !pc.Done?
  }

  predicate IsEdit(s: Step) {
    s.CloudWrite? || s.CloudRemove?
  }

  // Does the running scan already hold its answer for p?
  predicate Missed(w: World, p: Path) {
    w.owner.Some? && var pc := PcOf(w, w.owner.value); pc.Scanning? && p in pc.visited
  }

  // What one event does; an event that is not enabled changes nothing.
  ghost function Next(cfg: Config, w: World, e: Event): World {
    match e
    case Call(sid, op) =>
      if PcOf(w, sid).Idle? || PcOf(w, sid).Done? then w.(pcs := w.pcs[sid := Waiting(op)]) else w
    case Edit(s) =>
      if !IsEdit(s) then w
      else w.(st := Apply(cfg, w.st, s), late := if Missed(w, s.path) then w.late + [s] else w.late)
    case Move(sid, hint) =>
      var pc := PcOf(w, sid);
      if pc.Waiting? then
        if !SafeOp(pc.op) then w.(pcs := w.pcs[sid := Done(Answered(Reject(UnsafePath)))])
        else if w.owner.Some? then w
        else w.(owner := Some(sid), pcs := w.pcs[sid := Entered(pc.op)])
      else if pc.Leaving? then w.(owner := None, pcs := w.pcs[sid := Done(pc.answer)])
      else if InLock(pc) then
        var (st', pc') := Advance(cfg, w.st, pc, hint);
        w.(st := st', pcs := w.pcs[sid := pc'], late := if pc'.Scanning? then w.late else [])
      else w
  }

  // ---------- The serial run ----------

  datatype Entry = Entry(step: Step, sid: Option<Sid>)

  function OpStep(op: Op): Step {
    match op
    case PutOp(c) => DoPut(c)
    case DeleteOp(d) => DoDelete(d)
    case ReconcileOp(f) => DoReconcile(f)
  }

  // The operation a session has not yet decided, if any.
  function Undecided(pc: Pc): Option<Op> {
    match pc
    case Waiting(op) => Some(op)
    case Entered(op) => Some(op)
    case PutChecked(c, _, _) => Some(PutOp(c))
    case PutWritten(c, _, _) => Some(PutOp(c))
    case PutPriced(c, _, _, _) => Some(PutOp(c))
    case DeleteChecked(d, _, _) => Some(DeleteOp(d))
    case Scanning(f, _, _) => Some(ReconcileOp(f))
    case _ => None
  }

  // The answer of a session that has decided: a put once it has promoted or failed, a delete once the
  // file is gone, a reconcile once its scan is over.
  function AnswerOf(pc: Pc): Option<Answer> {
    match pc
    case PutPromoted(c, _, cur, _) => Some(Answered(if c.faults.commit then Reject(Internal) else Confirmed(cur.rev + 1, c.faults.unheard)))
    case DeleteRemoved(d, _, cur) => Some(Answered(if d.faults.commit then Reject(Internal) else Confirmed(cur.rev + 1, d.faults.unheard)))
    case Scanned(_, _) => Some(Swept)
    case Committing(_) => Some(Swept)
    case Leaving(a) => Some(a)
    case Done(a) => Some(a)
    case _ => None
  }

  function Unsigned(edits: seq<Step>): seq<Entry> {
    seq(|edits|, i requires 0 <= i < |edits| => Entry(edits[i], None))
  }

  // What the event contributes to the serial run: an edit when it happens (or, if the scan missed it,
  // right after the reconcile), an operation at the moment it is decided.
  ghost function Contribution(cfg: Config, w: World, e: Event): seq<Entry> {
    match e
    case Call(_, _) => []
    case Edit(s) => if !IsEdit(s) || Missed(w, s.path) then [] else [Entry(s, None)]
    case Move(sid, hint) =>
      var pc, pc' := PcOf(w, sid), PcOf(Next(cfg, w, e), sid);
      if Undecided(pc).Some? && AnswerOf(pc').Some? then
        [Entry(OpStep(Undecided(pc).value), Some(sid))] + if pc.Scanning? then Unsigned(w.late) else []
      else []
  }

  ghost function Exec(cfg: Config, w: World, events: seq<Event>): World {
    if events == [] then w
    else Next(cfg, Exec(cfg, w, events[..|events| - 1]), events[|events| - 1])
  }

  ghost function Serial(cfg: Config, w: World, events: seq<Event>): seq<Entry> {
    if events == [] then []
    else
      var init := events[..|events| - 1];
      Serial(cfg, w, init) + Contribution(cfg, Exec(cfg, w, init), events[|events| - 1])
  }

  // ---------- Replaying a serial run ----------

  datatype Replayed = Replayed(st: State, answers: map<Sid, Answer>)

  ghost function StepAnswer(cfg: Config, st: State, s: Step): Answer {
    match s
    case DoPut(c) => Answered(Put(cfg, st, c).result)
    case DoDelete(d) => Answered(Delete(st, d).result)
    case _ => Swept
  }

  // Runs the entries one after the other and notes the latest answer each session got.
  ghost function Replay(cfg: Config, r: Replayed, entries: seq<Entry>): Replayed {
    if entries == [] then r
    else
      var before := Replay(cfg, r, entries[..|entries| - 1]);
      var e := entries[|entries| - 1];
      Replayed(Apply(cfg, before.st, e.step),
               if e.sid.None? then before.answers else before.answers[e.sid.value := StepAnswer(cfg, before.st, e.step)])
  }

  lemma {:induction false} ReplayConcat(cfg: Config, r: Replayed, a: seq<Entry>, b: seq<Entry>)
    ensures Replay(cfg, r, a + b) == Replay(cfg, Replay(cfg, r, a), b)
    decreases |b|
  {
    if b == [] {
      assert a + b == a;
    } else {
      var init := b[..|b| - 1];
      assert (a + b)[..|a + b| - 1] == a + init;
      ReplayConcat(cfg, r, a, init);
    }
  }

  lemma ReplayOne(cfg: Config, r: Replayed, e: Entry)
    ensures Replay(cfg, r, [e]) ==
            Replayed(Apply(cfg, r.st, e.step),
                     if e.sid.None? then r.answers else r.answers[e.sid.value := StepAnswer(cfg, r.st, e.step)])
  {
    assert [e][..0] == [];
    assert Replay(cfg, r, []) == r;
  }

  // ---------- Abstraction ----------

  // Commits the lock holder is bound to make.
  function Pending(index: map<Path, Row>, pc: Pc): map<Path, Version> {
    match pc
    case PutPromoted(c, rel, cur, _) =>
      if c.faults.commit then map[] else map[rel := PutVersion(cur, c.reader.body, c.base, c.device)]
    case DeleteRemoved(d, rel, cur) => if d.faults.commit then map[] else map[rel := DeleteVersion(cur, d)]
    case Scanned(f, got) => if f.manifest then map[] else Observations(index, got, f.commits)
    case Committing(todo) => todo
    case _ => map[]
  }

  // The disk as the scan sees it: files already read stay as they were read.
  function Frozen(disk: map<Path, Content>, pc: Pc): map<Path, Content> {
    if pc.Scanning? then pc.got + (disk - pc.visited) else disk
  }

  // The temp files without the lock holder's own.
  function Settled(temps: map<TempId, Content>, pc: Pc): map<TempId, Content> {
    if pc.PutWritten? || pc.PutPriced? then temps - {pc.c.tmp} else temps
  }

  function AbsAt(st: State, pc: Pc): State {
    CommitAll(st.(disk := Frozen(st.disk, pc), temps := Settled(st.temps, pc)), Pending(st.index, pc))
  }

  function HolderPc(w: World): Pc {
    if w.owner.Some? then PcOf(w, w.owner.value) else Idle
  }

  function Abs(w: World): State {
    AbsAt(w.st, HolderPc(w))
  }

  // ---------- Invariant ----------

  predicate CheckedPut(st: State, c: PutCall, rel: Path, cur: Current) {
    && Paths.SafeRelPath(c.path) == Some(rel) && !c.faults.current
    && cur == CurrentOf(st.index, rel) && BaseMatches(cur, c.base)
  }

  predicate WrittenPut(cfg: Config, st: State, c: PutCall) {
    && c.tmp in st.temps && st.temps[c.tmp] == c.reader.body
    && WriteTemp(cfg.maxBytes, st.temps - {c.tmp}, c.tmp, c.reader, c.faults.temp) == Staged(c.reader.body)
  }

  predicate CheckedDelete(st: State, d: DeleteCall, rel: Path, cur: Current) {
    && Paths.SafeRelPath(d.path) == Some(rel) && !d.faults.current
    && cur == CurrentOf(st.index, rel) && cur.found && cur.rev == d.base
  }

  function EditOne(disk: map<Path, Content>, e: Step): map<Path, Content> {
    if e.CloudWrite? then disk[e.path := e.content]
    else if e.CloudRemove? then disk - {e.path}
    else disk
  }

  function EditAll(disk: map<Path, Content>, edits: seq<Step>): map<Path, Content> {
    if edits == [] then disk
    else EditOne(EditAll(disk, edits[..|edits| - 1]), edits[|edits| - 1])
  }

  // What the lock holder has read is still so.
  ghost predicate PcValid(cfg: Config, st: State, pc: Pc, late: seq<Step>) {
    && (!pc.Scanning? ==> late == [])
    && match pc
       case PutChecked(c, rel, cur) => CheckedPut(st, c, rel, cur)
       case PutWritten(c, rel, cur) => CheckedPut(st, c, rel, cur) && WrittenPut(cfg, st, c)
       case PutPriced(c, rel, cur, used) =>
         && CheckedPut(st, c, rel, cur) && WrittenPut(cfg, st, c)
         && Sha(c.reader.body) == c.declared && !(c.mode == Cleanup && |c.reader.body| >= cur.size)
         && !c.faults.total && used == Used(st.index)
       case PutPromoted(c, rel, cur, used) => CheckedPut(st, c, rel, cur) && used == Used(st.index)
       case DeleteChecked(d, rel, cur) => CheckedDelete(st, d, rel, cur)
       case DeleteRemoved(d, rel, cur) => CheckedDelete(st, d, rel, cur)
       case Scanning(f, got, visited) =>
         && !f.scan && got.Keys <= visited && (forall p | p in visited :: Paths.Scannable(p))
         && (forall s | s in late :: IsEdit(s) && s.path in visited)
         && EditAll(Frozen(st.disk, pc), late) == st.disk
       case _ => true
  }

  // Mutual exclusion, and a lock holder whose reads are current.
  ghost predicate Inv(cfg: Config, w: World) {
    && (forall sid | sid in w.pcs :: InLock(w.pcs[sid]) <==> w.owner == Some(sid))
    && (w.owner.Some? ==> w.owner.value in w.pcs)
    && PcValid(cfg, w.st, HolderPc(w), w.late)
  }
}
