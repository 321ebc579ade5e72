/** What is overwritten: files edited in the container, and local files the scan skips. */
module Overwrites {
  import opened Options
  import opened Listing
  import opened FileIndex
  import opened SyncServer
  import opened ServerRuns
  import opened Reconciling
  import opened ThreeWay
  import opened PlanMeaning
  import opened ClientRound
  import opened CalmRound
  import opened Safety
  import opened TempNames
  import Paths

  // ---------- Files edited in the container ----------

  function DiskSha(st: State, p: Path): Digest {
    if p in st.disk then Sha(st.disk[p]) else NoDigest
  }

  // The digest of one version; a tombstone has none, and neither has what was before the first.
  function VersionSha(st: State, p: Path, rev: int): Digest {
    if 1 <= rev <= |History(st, p)| then History(st, p)[rev - 1].row.sha else NoDigest
  }

  // A put or delete that reaches the disk at p, whatever its commit then does.
  ghost predicate Replaces(cfg: Config, st: State, step: Step, p: Path) {
    match step
    case DoPut(c) =>
      Paths.SafeRelPath(c.path) == Some(p) && Put(cfg, st, SurePut(c)).result.Ok?
    case DoDelete(c) =>
      && Paths.SafeRelPath(c.path) == Some(p) && p in st.index
      && Delete(st, SureDelete(c)).result.Ok?
    case _ => false
  }

  function BaseOf(step: Step): int {
    match step
    case DoPut(c) => c.base
    case DoDelete(c) => c.base
    case _ => 0
  }

  // What a client's request replaces on disk is the version it is based on exactly if index and disk agree.
  lemma ReplacedIsTheBase(cfg: Config, st: State, step: Step, p: Path)
    requires Consistent(st) && Replaces(cfg, st, step, p) && Paths.Scannable(p)
    ensures DiskSha(st, p) == VersionSha(st, p, BaseOf(step)) <==> AgreesAt(st, p)
    ensures forall q | q != p :: At(Apply(cfg, st, step).disk, q) == At(st.disk, q)
  {
    ConsistentAt(st, p);
    assert RowIsLast(st, p);
    BaseIsCurrent(cfg, st, step, p);
    DiskAfter(cfg, st, step);
  }

  lemma BaseIsCurrent(cfg: Config, st: State, step: Step, p: Path)
    requires Replaces(cfg, st, step, p)
    ensures BaseOf(step) == RevAt(st, p)
  {
  }

  // What a step leaves on disk and in the index.
  ghost predicate Touched(st: State, st': State, p: Path) {
    forall q | q != p :: At(st'.disk, q) == At(st.disk, q) && At(st'.index, q) == At(st.index, q)
  }

  lemma DiskAfter(cfg: Config, st: State, step: Step)
    requires step.DoPut? || step.DoDelete?
    ensures var rel := Paths.SafeRelPath(if step.DoPut? then step.put.path else step.delete.path);
            if rel.None? then Apply(cfg, st, step) == st else Touched(st, Apply(cfg, st, step), rel.value)
  {
    match step
    case DoPut(c) =>
      PutUnheard(cfg, st, c);
      if Put(cfg, st, HeardPut(c)).result.Ok? {
        PutAccepted(cfg, st, HeardPut(c));
      } else {
        PutRefused(cfg, st, HeardPut(c));
      }
    case DoDelete(c) => DeleteTouches(st, c);
  }

  lemma DeleteTouches(st: State, c: DeleteCall)
    ensures var rel := Paths.SafeRelPath(c.path);
            if rel.None? then Delete(st, c).st == st else Touched(st, Delete(st, c).st, rel.value)
  {
    DeleteUnheard(st, c);
    if Delete(st, HeardDelete(c)).result.Ok? && Paths.SafeRelPath(c.path).value in st.index {
      DeleteAccepted(st, HeardDelete(c));
    }
  }

  // A step after which index and disk agree about p: its row is written, whether or not that is reported.
  ghost predicate Settles(cfg: Config, st: State, step: Step, p: Path) {
    match step
    case DoPut(c) => Paths.SafeRelPath(c.path) == Some(p) && Put(cfg, st, HeardPut(c)).result.Ok?
    case DoDelete(c) => Paths.SafeRelPath(c.path) == Some(p) && p in st.index && Delete(st, HeardDelete(c)).result.Ok?
    case DoReconcile(f) => !f.scan && !f.manifest && p !in f.commits
    case _ => false
  }

  // The file of p changes without a commit: an edit in the container, or a request whose commit fails.
  ghost predicate Disturbs(cfg: Config, st: State, step: Step, p: Path) {
    At(Apply(cfg, st, step).disk, p) != At(st.disk, p) && !Settles(cfg, st, step, p)
  }

  lemma StepAgreement(cfg: Config, st: State, step: Step, p: Path)
    requires Paths.Scannable(p) && !Disturbs(cfg, st, step, p)
    ensures AgreesAt(Apply(cfg, st, step), p) <==> AgreesAt(st, p) || Settles(cfg, st, step, p)
  {
    match step
    case DoPut(c) => PutAgreement(cfg, st, c, p);
    case DoDelete(c) => DeleteAgreement(cfg, st, c, p);
    case DoReconcile(f) =>
      if !f.scan && !f.manifest {
        ReconcileAt(st, f, p);
      }
    case _ =>
  }

  lemma PutAgreement(cfg: Config, st: State, c: PutCall, p: Path)
    requires Paths.Scannable(p) && !Disturbs(cfg, st, DoPut(c), p)
    ensures AgreesAt(Put(cfg, st, c).st, p) <==> AgreesAt(st, p) || Settles(cfg, st, DoPut(c), p)
  {
    PutUnheard(cfg, st, c);
    if Put(cfg, st, HeardPut(c)).result.Ok? {
      PutAccepted(cfg, st, HeardPut(c));
    } else {
      PutRefused(cfg, st, HeardPut(c));
    }
  }

  lemma DeleteAgreement(cfg: Config, st: State, c: DeleteCall, p: Path)
    requires Paths.Scannable(p) && !Disturbs(cfg, st, DoDelete(c), p)
    ensures AgreesAt(Delete(st, c).st, p) <==> AgreesAt(st, p) || Settles(cfg, st, DoDelete(c), p)
  {
    DeleteUnheard(st, c);
    if Delete(st, HeardDelete(c)).result.Ok? && Paths.SafeRelPath(c.path).value in st.index {
      DeleteAccepted(st, HeardDelete(c));
    }
  }

  ghost predicate SettledIn(cfg: Config, st: State, steps: seq<Step>, p: Path)
    decreases |steps|
  {
    steps != [] && (Settles(cfg, st, steps[0], p) || SettledIn(cfg, Apply(cfg, st, steps[0]), steps[1..], p))
  }

  ghost predicate Undisturbed(cfg: Config, st: State, steps: seq<Step>, p: Path)
    decreases |steps|
  {
    steps == [] || (!Disturbs(cfg, st, steps[0], p) && Undisturbed(cfg, Apply(cfg, st, steps[0]), steps[1..], p))
  }

  // Over a stretch without further changes behind the index, index and disk agree in the end exactly if
  // they did before or a reconcile, put or delete of p came through.
  lemma {:induction false} AgreementIff(cfg: Config, st: State, steps: seq<Step>, p: Path)
    requires Paths.Scannable(p) && Undisturbed(cfg, st, steps, p)
    ensures AgreesAt(Run(cfg, st, steps), p) <==> AgreesAt(st, p) || SettledIn(cfg, st, steps, p)
    decreases |steps|
  {
    if steps != [] {
      StepAgreement(cfg, st, steps[0], p);
      AgreementIff(cfg, Apply(cfg, st, steps[0]), steps[1..], p);
    }
  }

  // In every run: after a container edit of p, and whatever else behind the index before it, a later put or
  // delete replaces exactly the version it is based on if and only if the edit made no difference to the
  // digest of the row, or something settled p in between. Otherwise it replaces bytes of no such version.
  lemma ReplacedSinceEdit(cfg: Config, before: seq<Step>, edit: Step, between: seq<Step>, step: Step, p: Path)
    requires edit.CloudWrite? || edit.CloudRemove?
    requires edit.path == p && Paths.Scannable(p)
    requires var edited := Run(cfg, EMPTY, before + [edit]);
             Undisturbed(cfg, edited, between, p) && Replaces(cfg, Run(cfg, edited, between), step, p)
    ensures var edited := Run(cfg, EMPTY, before + [edit]);
            var st := Run(cfg, edited, between);
            DiskSha(st, p) == VersionSha(st, p, BaseOf(step)) <==>
            DiskSha(edited, p) == VersionSha(edited, p, RevAt(edited, p)) || SettledIn(cfg, edited, between, p)
  {
    var edited := Run(cfg, EMPTY, before + [edit]);
    assert forall q :: RowIsLast(EMPTY, q);
    RunKeepsConsistent(cfg, EMPTY, before + [edit]);
    RunKeepsConsistent(cfg, edited, between);
    AgreementIff(cfg, edited, between, p);
    AgreesMeaning(edited, p);
    ReplacedIsTheBase(cfg, Run(cfg, edited, between), step, p);
  }

  lemma AgreesMeaning(st: State, p: Path)
    requires Consistent(st) && Paths.Scannable(p)
    ensures AgreesAt(st, p) <==> DiskSha(st, p) == VersionSha(st, p, RevAt(st, p))
  {
    ConsistentAt(st, p);
    assert RowIsLast(st, p);
  }

  // A path whose file is never changed behind the index is never overwritten unseen.
  lemma NeverEditedIsSeen(cfg: Config, steps: seq<Step>, step: Step, p: Path)
    requires Paths.Scannable(p) && Undisturbed(cfg, EMPTY, steps, p) && Replaces(cfg, Run(cfg, EMPTY, steps), step, p)
    ensures var st := Run(cfg, EMPTY, steps); DiskSha(st, p) == VersionSha(st, p, BaseOf(step))
  {
    assert forall q :: RowIsLast(EMPTY, q);
    RunKeepsConsistent(cfg, EMPTY, steps);
    AgreementIff(cfg, EMPTY, steps, p);
    ReplacedIsTheBase(cfg, Run(cfg, EMPTY, steps), step, p);
  }

  // ---------- Files the scan skips ----------

  predicate Quiet(r: Round) {
    r.script == [] && r.inbox == []
  }

  // What the server would send for a path is the same in both.
  predicate SameFetch(r: Round, r': Round, p: Path) {
    Get(r'.st, p, false) == Get(r.st, p, false)
  }

  lemma SendElsewhere(dev: Device, at: Path -> string, r: Round, u: Item<Local>, p: Path)
    requires Quiet(r) && Paths.SafeRelPath(u.path) != Paths.SafeRelPath(p)
    ensures var r' := Act(dev, at, r, Send(u)); Quiet(r') && SameFetch(r, r', p)
  {
    if u.path in r.files {
      var out := Put(dev.cfg, r.st, CalmCall(dev, u, r.files[u.path]));
      QuietPut(dev, r, u);
      PutElsewhere(dev.cfg, r.st, CalmCall(dev, u, r.files[u.path]), p);
      if out.result == Reject(Conflict) {
        QuietFetch(dev, r.(st := out.st), u.path, ConflictName(u.path, at(u.path)));
      }
    }
  }

  lemma PutElsewhere(cfg: Config, st: State, c: PutCall, p: Path)
    requires Paths.SafeRelPath(c.path) != Paths.SafeRelPath(p)
    ensures Get(Put(cfg, st, c).st, p, false) == Get(st, p, false)
  {
    DiskAfter(cfg, st, DoPut(c));
    if Paths.SafeRelPath(c.path).Some? && Paths.SafeRelPath(p).Some? {
      GetElsewhere(st, Put(cfg, st, c).st, Paths.SafeRelPath(c.path).value, p);
    }
  }

  lemma GetElsewhere(st: State, st': State, rel: Path, p: Path)
    requires Touched(st, st', rel) && Paths.SafeRelPath(p).Some? && Paths.SafeRelPath(p).value != rel
    ensures Get(st', p, false) == Get(st, p, false)
  {
    var q := Paths.SafeRelPath(p).value;
    assert At(st'.disk, q) == At(st.disk, q) && At(st'.index, q) == At(st.index, q);
  }

  lemma QuietPut(dev: Device, r: Round, u: Item<Local>)
    requires Quiet(r) && u.path in r.files
    ensures var out := Put(dev.cfg, r.st, CalmCall(dev, u, r.files[u.path]));
            CallPut(dev, r, u, r.files[u.path]) == (r.(st := out.st), Some(out.result))
  {
    var out := Put(dev.cfg, r.st, CalmCall(dev, u, r.files[u.path]));
    assert Arrive(dev.cfg, r) == r;
    AnsweredAlone(dev, r.(st := out.st), out.result);
  }

  lemma QuietFetch(dev: Device, r: Round, p: Path, target: Path)
    requires Quiet(r)
    ensures Quiet(FetchTo(dev, r, p, target)) && FetchTo(dev, r, p, target).st == r.st
  {
    Wire.OwnReplyIsRead(dev.decode, Ok(0), Get(r.st, p, false), None);
  }

  predicate OnlySends(actions: seq<Action>, p: Path) {
    forall a | a in actions :: a.Send? && Paths.SafeRelPath(a.u.path) != Paths.SafeRelPath(p)
  }

  lemma {:induction false} SendsElsewhere(dev: Device, at: Path -> string, r: Round, actions: seq<Action>, p: Path)
    requires Quiet(r) && OnlySends(actions, p)
    ensures var r' := Perform(dev, at, r, actions); Quiet(r') && SameFetch(r, r', p)
    decreases |actions|
  {
    if actions != [] {
      var init, last := actions[..|actions| - 1], actions[|actions| - 1];
      assert last in actions && forall a | a in init :: a in actions;
      SendsElsewhere(dev, at, r, init, p);
      SendElsewhere(dev, at, Perform(dev, at, r, init), last.u, p);
    }
  }

  lemma {:induction false} OpenedConcat(dev: Device, at: Path -> string, r: Round, a: seq<Action>, b: seq<Action>)
    ensures Opened(dev, at, r, a + b) == Opened(dev, at, r, a) + Opened(dev, at, Perform(dev, at, r, a), b)
    decreases |b|
  {
    if b == [] {
      assert a + b == a;
    } else {
      assert (a + b)[..|a + b| - 1] == a + b[..|b| - 1];
      PerformConcat(dev, at, r, a, b[..|b| - 1]);
      OpenedConcat(dev, at, r, a, b[..|b| - 1]);
    }
  }

  // Actions that are not about p: its file is gone exactly if it has the name of a temp file they create.
  lemma Elsewhere(dev: Device, at: Path -> string, r: Round, actions: seq<Action>, p: Path)
    requires r.script == [] && forall a | a in actions :: Touches(at, a) != Some(p)
    ensures At(Perform(dev, at, r, actions).files, p) ==
            if p in TempsOf(Opened(dev, at, r, actions)) then None else At(r.files, p)
  {
    PerformClears(dev, at, r, actions, p);
    if p !in TempsOf(Opened(dev, at, r, actions)) {
      PerformFiles(dev, at, r, actions, p);
    }
  }

  // The file of a path, before and after: kept, or what was fetched; once cut it is gone, unless what was
  // fetched came after.
  predicate Fate(before: Option<Content>, after: Option<Content>, got: Option<Content>, cut: bool) {
    if cut then after == None || (got.Some? && after == got) else after == if got.Some? then got else before
  }

  lemma FateMore(a: Option<Content>, b: Option<Content>, c: Option<Content>, got: Option<Content>, cut: bool, more: bool)
    requires Fate(a, b, got, cut) && c == if more then None else b
    ensures Fate(a, c, got, cut || more)
  {
  }

  // What fetching p brings, if p is among the downloads.
  function Brought(st: State, fetches: seq<Action>, p: Path): Option<Content> {
    var got := Get(st, p, false);
    if Fetch(p) in fetches && got.File? then Some(got.content) else None
  }

  lemma {:induction false} FetchesFate(dev: Device, at: Path -> string, r: Round, fetches: seq<Action>, p: Path)
    requires Quiet(r) && OnlyFetches(fetches)
    ensures Fate(At(r.files, p), At(Perform(dev, at, r, fetches).files, p), Brought(r.st, fetches, p),
                 p in TempsOf(Opened(dev, at, r, fetches)))
    decreases |fetches|
  {
    if fetches != [] {
      var init, last := fetches[..|fetches| - 1], fetches[|fetches| - 1];
      var mid := Perform(dev, at, r, init);
      assert forall a :: a in fetches <==> a in init || a == last;
      FetchesFate(dev, at, r, init, p);
      FetchesKeepServer(dev, at, r, init);
      FetchAlone(dev, mid, last.path);
      QuietOpens(dev, mid, last.path);
      TempsJoin(Opened(dev, at, r, init), OpenedBy(dev, at, mid, last));
      TempIsAnother(last.path, p);
    }
  }

  lemma QuietOpens(dev: Device, r: Round, p: Path)
    requires Quiet(r)
    ensures OpenedByFetch(dev, r, p, p) == if Get(r.st, p, false).File? then {p} else {}
    ensures TempsOf(OpenedByFetch(dev, r, p, p)) == if Get(r.st, p, false).File? then {TempOf(p)} else {}
  {
    assert Arrive(dev.cfg, r) == r;
    Wire.OwnReplyIsRead(dev.decode, Ok(0), Get(r.st, p, false), None);
  }

  // Uploads elsewhere, downloads, then actions that leave p alone.
  lemma ThreePhases(dev: Device, at: Path -> string, r: Round, sends: seq<Action>, fetches: seq<Action>,
                    others: seq<Action>, p: Path)
    requires Quiet(r) && OnlySends(sends, p) && OnlyFetches(fetches)
    requires forall a | a in sends + others :: Touches(at, a) != Some(p)
    ensures Fate(At(r.files, p), At(Perform(dev, at, r, sends + fetches + others).files, p), Brought(r.st, fetches, p),
                 p in TempsOf(Opened(dev, at, r, sends + fetches + others)))
  {
    var r1 := Perform(dev, at, r, sends);
    var r2 := Perform(dev, at, r1, fetches);
    PerformConcat(dev, at, r, sends + fetches, others);
    PerformConcat(dev, at, r, sends, fetches);
    OpenedConcat(dev, at, r, sends + fetches, others);
    OpenedConcat(dev, at, r, sends, fetches);
    TempsJoin(Opened(dev, at, r, sends) + Opened(dev, at, r1, fetches), Opened(dev, at, r2, others));
    TempsJoin(Opened(dev, at, r, sends), Opened(dev, at, r1, fetches));
    assert forall a | a in sends :: a in sends + others;
    assert forall a | a in others :: a in sends + others;
    Elsewhere(dev, at, r, sends, p);
    SendsElsewhere(dev, at, r, sends, p);
    FetchesFate(dev, at, r1, fetches, p);
    FetchesKeepServer(dev, at, r1, fetches);
    Elsewhere(dev, at, r2, others, p);
    FateMore(At(r1.files, p), At(r2.files, p), At(Perform(dev, at, r2, others).files, p), Brought(r.st, fetches, p),
             p in TempsOf(Opened(dev, at, r1, fetches)), p in TempsOf(Opened(dev, at, r2, others)));
  }

  // A local file the scan skips, with nothing to disturb the round once the manifest is read and no upload
  // to the same path of the server: it is overwritten or destroyed exactly if the server can send the path,
  // the manifest lists it as live and the baseline does not know it, or if it has the name of a temp file
  // the round creates.
  lemma SkippedFileIff(dev: Device, at: Path -> string, r: Round, rows: map<Path, Row>, plan: Plan, r': Round, p: Path)
    requires SyncOnce(dev, at, r, plan, r') && CallManifest(dev, r).1 == Some(rows) && Quiet(CallManifest(dev, r).0)
    requires p in r.files && !Paths.Scannable(p) && FreshNames(at, plan, r.files)
    requires forall u | u in plan.upload :: Paths.SafeRelPath(u.path) != Paths.SafeRelPath(p)
    requires var got := Get(CallManifest(dev, r).0.st, p, false); got.File? ==> got.content != r.files[p]
    ensures var got, cut := Get(CallManifest(dev, r).0.st, p, false), p in TempsOf(RoundOpens(dev, at, r, plan));
            var fetched := got.File? && p !in r.base && p in rows && !rows[p].deleted;
            && (At(r'.files, p) != At(r.files, p) <==> fetched || cut)
            && (fetched && !cut ==> At(r'.files, p) == Some(got.content))
            && (cut && !fetched ==> p !in r'.files)
  {
    var listed := CallManifest(dev, r).0;
    ManifestKeepsFiles(dev, r);
    SkippedVerdict(r.files, r.base, rows, p);
    assert p in PathsOf(plan.download) <==> VerdictAt(r.files, r.base, rows, p) == Download;
    assert p !in PathsOf(plan.deleteToLocal);
    SkippedFate(dev, at, listed.(base := Kept(listed.files, listed.base)), plan, p);
  }

  lemma SkippedVerdict(files: map<Path, Content>, base: map<Path, Base>, rows: map<Path, Row>, p: Path)
    requires !Paths.Scannable(p)
    ensures VerdictAt(files, base, rows, p) == Download <==> p !in base && p in rows && !rows[p].deleted
    ensures VerdictAt(files, base, rows, p) != DeleteToLocal
  {
  }

  lemma ManifestKeepsFiles(dev: Device, r: Round)
    ensures CallManifest(dev, r).0.files == r.files && CallManifest(dev, r).0.base == r.base
  {
  }

  lemma SkippedFate(dev: Device, at: Path -> string, r: Round, plan: Plan, p: Path)
    requires Quiet(r) && p in r.files && FreshNames(at, plan, r.files)
    requires forall u | u in plan.upload :: Paths.SafeRelPath(u.path) != Paths.SafeRelPath(p)
    requires p !in PathsOf(plan.deleteToLocal)
    ensures var actions, got := Actions(dev.mode, plan), Get(r.st, p, false);
            Fate(At(r.files, p), At(Perform(dev, at, r, actions).files, p),
                 if p in PathsOf(plan.download) && got.File? then Some(got.content) else None,
                 p in TempsOf(Opened(dev, at, r, actions)))
  {
    var sends := if dev.mode == Cleanup then [] else Sends(plan.upload);
    var fetches, drops := Fetches(plan.download), Drops(plan.deleteToRemote);
    var removes, saves := Removes(plan.deleteToLocal), Saves(plan.conflicts);
    var rest := Actions(dev.mode, plan.(download := []));
    LastThree(sends + fetches, drops, removes, saves);
    assert Fetch(p) in fetches <==> p in PathsOf(plan.download) by {
      assert forall i | 0 <= i < |fetches| :: fetches[i] == Fetch(plan.download[i].path);
    }
    assert OnlySends(sends, p);
    TouchedByPlan(at, dev.mode, plan.(download := []), r.files, p);
    assert forall a | a in sends + (drops + removes + saves) :: a in rest;
    ThreePhases(dev, at, r, sends, fetches, drops + removes + saves, p);
  }

  lemma LastThree(a: seq<Action>, b: seq<Action>, c: seq<Action>, d: seq<Action>)
    ensures a + b + c + d == a + (b + c + d)
  {
  }

  // ---------- Downloads cut short ----------

  // A round with one fetch to make, whose copy on the server breaks off after `cut` bytes, if at all, and
  // room for the path's own bytes.
  ghost predicate FetchesCut(dev: Device, r: Round, p: Path, cut: Option<nat>) {
    && r.script == [CALM.(getCut := cut)] && r.inbox == [] && CALM.tmp !in r.st.temps && dev.mode == ReadWrite
    && Paths.Canonical(p) && Paths.Scannable(p) && p in r.st.index && !r.st.index[p].deleted && p in r.st.disk
    && |r.st.disk[p]| <= dev.cfg.maxBytes && Used(r.st.index) + |r.st.disk[p]| <= dev.cfg.limit
  }

  lemma CutFetch(dev: Device, r: Round, p: Path, cut: Option<nat>)
    requires FetchesCut(dev, r, p, cut)
    ensures FetchTo(dev, r, p, p) ==
            r.(script := [], files := (r.files - {TempOf(p)})[p := Wire.Cut(r.st.disk[p], cut)],
               base := r.base[p := Base(r.st.index[p].rev, NoDigest)])
  {
    assert r.script[1..] == [];
    assert Run(dev.cfg, r.st, []) == r.st;
    Wire.OwnReplyIsRead(dev.decode, Ok(0), Get(r.st, p, false), cut);
  }

  // The entry a fetch records has no digest, so the next comparison uploads the file as an edit of that
  // revision, whatever it holds: the server keeps its bytes exactly if the copy did not break off before
  // their end.
  lemma CutDownloadSpreads(dev: Device, at: Path -> string, r: Round, p: Path, cut: Option<nat>, u: Item<Local>)
    requires FetchesCut(dev, r, p, cut) && p !in r.notes
    requires var mid := FetchTo(dev, r, p, p);
             u.path == p && u.val.baseRev == BaseRev(mid.base, p) && (p in mid.files ==> u.val.curSha == Sha(mid.files[p]))
    ensures var mid := FetchTo(dev, r, p, p);
            var end := Act(dev, at, mid, Send(u));
            && VerdictAt(mid.files, mid.base, mid.st.index, p) == Upload
            && At(end.st.disk, p) == Some(Wire.Cut(r.st.disk[p], cut))
            && RevAt(end.st, p) == RevAt(r.st, p) + 1 && p !in end.notes
            && (At(end.st.disk, p) == At(r.st.disk, p) <==> cut.None? || |r.st.disk[p]| <= cut.value)
  {
    CutFetch(dev, r, p, cut);
    var mid := FetchTo(dev, r, p, p);
    FetchedIsEdited(mid, p, u);
    CalmUpload(dev, at, mid, u);
  }

  // A scanned file whose entry has the row's revision and no digest counts as an edit.
  lemma FetchedIsEdited(r: Round, p: Path, u: Item<Local>)
    requires p in r.files && Paths.Scannable(p) && p in r.st.index && !r.st.index[p].deleted
    requires p in r.base && r.base[p] == Base(r.st.index[p].rev, NoDigest)
    requires u.path == p && u.val.baseRev == BaseRev(r.base, p) && u.val.curSha == Sha(r.files[p])
    ensures VerdictAt(r.files, r.base, r.st.index, p) == Upload && Ready(Send(u), SliceAt(r, p))
  {
  }

  // Without interference, an upload with the right base and room for it replaces the server's file.
  lemma CalmUpload(dev: Device, at: Path -> string, r: Round, u: Item<Local>)
    requires Calm(r) && dev.mode == ReadWrite && Paths.Canonical(u.path) && Ready(Send(u), SliceAt(r, u.path))
    requires var c := r.files[u.path]; |c| <= dev.cfg.maxBytes && Used(r.st.index) + |c| <= dev.cfg.limit
    ensures var r' := Act(dev, at, r, Send(u));
            && r'.notes == r.notes && At(r'.st.disk, u.path) == Some(r.files[u.path])
            && RevAt(r'.st, u.path) == RevAt(r.st, u.path) + 1
  {
    CalmPut(dev, r, u);
    MayPutIsAccepted(dev.cfg, r.st, CalmCall(dev, u, r.files[u.path]));
    PutOutcome(dev, r, u);
  }
}
