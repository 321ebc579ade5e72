/**
 The visible temp file of a download (internal/sync/syncclient.go:155-173): which rounds destroy a local
 file because its name is taken for one.
 */
module TempNames {
  import opened Options
  import opened Listing
  import opened FileIndex
  import opened SyncServer
  import opened ServerRuns
  import opened ThreeWay
  import opened PlanMeaning
  import opened Wire
  import opened ClientRound
  import opened Safety
  import opened Strays
  import Paths

  // ---------- One round, as it went ----------

  predicate RenamesWork(script: seq<Turn>) {
    forall t | t in script :: !t.write.NotRenamed?
  }

  lemma TailRenames(script: seq<Turn>)
    requires RenamesWork(script)
    ensures RenamesWork(Tail(script)) && !Head(script).write.NotRenamed?
  {
    if script != [] {
      assert script[0] in script && forall t | t in script[1..] :: t in script;
    }
  }

  // An opened temp file is gone afterwards, and no file appears but the target.
  lemma FetchClears(dev: Device, r: Round, p: Path, target: Path, q: Path)
    requires !Head(r.script).write.NotRenamed? && q != target
    requires q in TempsOf(OpenedByFetch(dev, r, p, target)) || q !in r.files
    ensures q !in FetchTo(dev, r, p, target).files
  {
  }

  lemma ActClears(dev: Device, at: Path -> string, r: Round, a: Action, q: Path)
    requires RenamesWork(r.script) && Target(at, a) != Some(q)
    requires q in TempsOf(OpenedBy(dev, at, r, a)) || q !in r.files
    ensures q !in Act(dev, at, r, a).files && RenamesWork(Act(dev, at, r, a).script)
  {
    ActScript(dev, at, r, a);
    TailRenames(r.script);
    TailRenames(Tail(r.script));
    match a
    case Send(u) =>
      if u.path in r.files {
        SendClears(dev, at, r, u, q);
      }
    case Fetch(p) => FetchClears(dev, r, p, p, q);
    case Drop(_) =>
    case Remove(_) =>
    case Save(p) => FetchClears(dev, r, p, ConflictName(p, at(p)), q);
  }

  lemma SendClears(dev: Device, at: Path -> string, r: Round, u: Item<Local>, q: Path)
    requires !Head(Tail(r.script)).write.NotRenamed? && u.path in r.files && Target(at, Send(u)) != Some(q)
    requires q in TempsOf(OpenedBy(dev, at, r, Send(u))) || q !in r.files
    ensures q !in Act(dev, at, r, Send(u)).files
  {
    var (next, reply) := CallPut(dev, r, u, r.files[u.path]);
    PutKeepsFiles(dev, r, u, r.files[u.path]);
    CallScripts(dev, r, u, r.files[u.path], u, "", "");
    if reply == Some(Reject(Conflict)) {
      FetchClears(dev, next, u.path, ConflictName(u.path, at(u.path)), q);
    }
  }

  // Where renames work, a file whose name an opened temp file had is gone in the end.
  lemma {:induction false} PerformClears(dev: Device, at: Path -> string, r: Round, actions: seq<Action>, q: Path)
    requires RenamesWork(r.script) && forall a | a in actions :: Target(at, a) != Some(q)
    ensures RenamesWork(Perform(dev, at, r, actions).script)
    ensures q in TempsOf(Opened(dev, at, r, actions)) || q !in r.files ==> q !in Perform(dev, at, r, actions).files
    decreases |actions|
  {
    if actions != [] {
      var init, last := actions[..|actions| - 1], actions[|actions| - 1];
      var mid := Perform(dev, at, r, init);
      assert last in actions && forall a | a in init :: a in actions;
      PerformClears(dev, at, r, init, q);
      TempsJoin(Opened(dev, at, r, init), OpenedBy(dev, at, mid, last));
      ActScript(dev, at, mid, last);
      TailRenames(mid.script);
      TailRenames(Tail(mid.script));
      if q in TempsOf(OpenedBy(dev, at, mid, last)) || q !in mid.files {
        ActClears(dev, at, mid, last, q);
      }
    }
  }

  // In a round whose renames work, a file that the plan may not replace keeps its bytes exactly if it has not
  // the name of a temp file the round creates; otherwise it is gone.
  lemma KeptIffNotATemp(dev: Device, at: Path -> string, r: Round, plan: Plan, r': Round, p: Path)
    requires Good(r) && SyncOnce(dev, at, r, plan, r') && FreshNames(at, plan, r.files) && Held(dev, at, r, plan)
    requires p in r.files && (CallManifest(dev, r).1.Some? ==> !Replaceable(r, CallManifest(dev, r).1.value, p))
    requires RenamesWork(r.script)
    ensures At(r'.files, p) == At(r.files, p) <==> p !in TempsOf(RoundOpens(dev, at, r, plan))
    ensures At(r'.files, p) == At(r.files, p) || p !in r'.files
  {
    RoundIsSafe(dev, at, r, plan, r');
    var (listed, rows) := CallManifest(dev, r);
    ManifestOnward(dev, r);
    if rows.Some? {
      TailRenames(r.script);
      TailRenames(Tail(r.script));
      NotPlanned(r, rows.value, plan, p);
      TouchedByPlan(at, dev.mode, plan, r.files, p);
      PerformClears(dev, at, listed.(base := Kept(r.files, r.base)), Actions(dev.mode, plan), p);
    }
  }

  lemma NotPlanned(r: Round, rows: map<Path, Row>, plan: Plan, p: Path)
    requires Good(r) && PlanFits(r.files, r.base, rows, plan) && p in r.files && !Replaceable(r, rows, p)
    ensures p !in PathsOf(plan.download) && p !in PathsOf(plan.deleteToLocal)
  {
    if p in PathsOf(plan.download) || p in PathsOf(plan.deleteToLocal) {
      ChangedFile(r, rows, plan, p);
    }
  }

  // ---------- Every way a round may go ----------

  // Whatever happens from here on: no file that the plan may not replace changes or disappears.
  ghost predicate Spares(dev: Device, at: Path -> string, r: Round, rows: map<Path, Row>, plan: Plan) {
    forall script, p | ReadersHold(script) && p in r.files && !Replaceable(r, rows, p) ::
      Survives(dev, at, r, plan, script, p)
  }

  ghost predicate Survives(dev: Device, at: Path -> string, r: Round, plan: Plan, script: seq<Turn>, p: Path) {
    At(Execute(dev, at, r.(script := script), plan).files, p) == At(r.files, p)
  }

  // Does the action fetch to a target whose temp file is called p? The server can only send what it accepts
  // as a path.
  predicate Takes(at: Path -> string, a: Action, p: Path) {
    Target(at, a).Some? && Paths.SafeRelPath(PathOf(a)).Some? && p == TempOf(Target(at, a).value)
  }

  predicate NobodyTakes(at: Path -> string, actions: seq<Action>, p: Path) {
    forall a | a in actions :: !Takes(at, a, p)
  }

  // Whatever is opened is the target of an action for a path the server accepts.
  lemma FetchOpensKnown(dev: Device, r: Round, p: Path, target: Path)
    requires r.inbox == [] && OpenedByFetch(dev, r, p, target) != {}
    ensures Paths.SafeRelPath(p).Some? && OpenedByFetch(dev, r, p, target) == {target}
  {
    var t, a := Head(r.script), Arrive(dev.cfg, r);
    OwnReplyIsRead(dev.decode, Ok(0), Get(a.st, p, t.getFails), t.getCut);
  }

  lemma ActOpensKnown(dev: Device, at: Path -> string, r: Round, a: Action, p: Path)
    requires r.inbox == [] && !LeavesReply(r, a) && p in TempsOf(OpenedBy(dev, at, r, a))
    ensures Takes(at, a, p)
  {
    match a
    case Send(u) =>
      PutAlone(dev, r, u, r.files[u.path]);
      FetchOpensKnown(dev, CallPut(dev, r, u, r.files[u.path]).0, u.path, ConflictName(u.path, at(u.path)));
    case Fetch(q) => FetchOpensKnown(dev, r, q, q);
    case Drop(_) =>
    case Remove(_) =>
    case Save(q) => FetchOpensKnown(dev, r, q, ConflictName(q, at(q)));
  }

  lemma {:induction false} OpensKnown(dev: Device, at: Path -> string, r: Round, actions: seq<Action>, p: Path)
    requires r.inbox == [] && ReadersHold(r.script) && NobodyTakes(at, actions, p)
    ensures p !in TempsOf(Opened(dev, at, r, actions))
    ensures Perform(dev, at, r, actions).inbox == [] && ReadersHold(Perform(dev, at, r, actions).script)
    decreases |actions|
  {
    if actions != [] {
      var init, last := actions[..|actions| - 1], actions[|actions| - 1];
      var mid := Perform(dev, at, r, init);
      assert last in actions && forall a | a in init :: a in actions;
      OpensKnown(dev, at, r, init, p);
      TempsJoin(Opened(dev, at, r, init), OpenedBy(dev, at, mid, last));
      ActUsesUp(dev, at, mid, last);
      ActAlone(dev, at, mid, last);
      if p in TempsOf(OpenedBy(dev, at, mid, last)) {
        ActOpensKnown(dev, at, mid, last, p);
      }
    }
  }

  lemma NobodyTakesSpares(dev: Device, at: Path -> string, r: Round, rows: map<Path, Row>, plan: Plan, script: seq<Turn>,
                          p: Path)
    requires Good(r) && PlanFits(r.files, r.base, rows, plan) && FreshNames(at, plan, r.files) && ReadersHold(script)
    requires p in r.files && !Replaceable(r, rows, p) && NobodyTakes(at, Actions(dev.mode, plan), p)
    ensures Survives(dev, at, r, plan, script, p)
  {
    NotPlanned(r, rows, plan, p);
    TouchedByPlan(at, dev.mode, plan, r.files, p);
    OpensKnown(dev, at, r.(script := script, base := Kept(r.files, r.base)), Actions(dev.mode, plan), p);
    PerformFiles(dev, at, r.(script := script, base := Kept(r.files, r.base)), Actions(dev.mode, plan), p);
  }

  // ---------- How a file is lost ----------

  // The turns of an action whose call gets lost.
  function Lost(r: Round, a: Action): seq<Turn> {
    if a.Remove? || (a.Send? && a.u.path !in r.files) then [] else [LOSE]
  }

  function Removed(r: Round, a: Action): Round {
    if a.Remove? then r.(files := r.files - {a.path}, base := r.base - {a.path}) else r
  }

  lemma LoseOne(dev: Device, at: Path -> string, r: Round, a: Action, later: seq<Turn>)
    ensures Act(dev, at, r.(script := Lost(r, a) + later), a) == Removed(r, a).(script := later)
    ensures ReadersHold(Lost(r, a))
  {
    if Lost(r, a) == [] {
      assert Lost(r, a) + later == later;
    } else {
      assert Tail([LOSE] + later) == later;
    }
  }

  lemma {:induction false} LoseAll(dev: Device, at: Path -> string, r: Round, actions: seq<Action>) returns (script: seq<Turn>)
    ensures ReadersHold(script) && Perform(dev, at, r.(script := script), actions).files.Keys <= r.files.Keys
    decreases |actions|
  {
    script := [];
    if actions != [] {
      var a, rest := actions[0], actions[1..];
      var later := LoseAll(dev, at, Removed(r, a), rest);
      script := Lost(r, a) + later;
      LoseOne(dev, at, r, a, later);
      assert actions == [a] + rest;
      PerformFirst(dev, at, r.(script := script), a, rest);
    }
  }

  // Somebody else stores an empty file there.
  function Stirring(st: State, rel: Path, tmp: TempId): Step {
    DoPut(PutCall(rel, RevAt(st, rel), Sha([]), Reader([], false), ReadWrite, "", tmp, CALM.put))
  }

  lemma Stirred(cfg: Config, st: State, rel: Path, tmp: TempId)
    requires Paths.Canonical(rel) && tmp !in st.temps
    ensures var st' := Apply(cfg, st, Stirring(st, rel, tmp));
            && rel in st'.index && rel in st'.disk && RevAt(st', rel) == RevAt(st, rel) + 1 && st'.temps == st.temps
  {
    PutAccepted(cfg, st, Stirring(st, rel, tmp).put);
  }

  // What others may do so that the server has a file to send whose revision is not `base`.
  lemma StirredAway(cfg: Config, st: State, p: Path, base: int) returns (others: seq<Step>)
    requires Paths.SafeRelPath(p).Some?
    ensures var end, rel := Run(cfg, st, others), Paths.SafeRelPath(p).value;
            Get(end, p, false).File? && !BaseMatches(CurrentOf(end.index, rel), base) && end.temps == st.temps
  {
    var rel := Paths.SafeRelPath(p).value;
    var tmp := Paths.FreshName(st.temps.Keys, 0);
    Paths.SafeRelPathIdempotent(p, rel);
    var one := Stirring(st, rel, tmp);
    var mid := Apply(cfg, st, one);
    Stirred(cfg, st, rel, tmp);
    others := [one];
    RunOne(cfg, st, one);
    if RevAt(mid, rel) == base {
      var two := Stirring(mid, rel, tmp);
      Stirred(cfg, mid, rel, tmp);
      others := [one] + [two];
      RunOne(cfg, mid, two);
      RunConcat(cfg, st, [one], [two]);
    }
  }

  lemma RunOne(cfg: Config, st: State, step: Step)
    ensures Run(cfg, st, [step]) == Apply(cfg, st, step)
  {
    assert [step][1..] == [];
    assert Run(cfg, Apply(cfg, st, step), []) == Apply(cfg, st, step);
  }

  // The fetch finds a file, and its copy breaks off.
  lemma FetchStrikes(dev: Device, r: Round, p: Path, target: Path, turn: Turn, later: seq<Turn>)
    requires r.inbox == [] && turn.fate == Delivered && !turn.getFails && turn.write == CopyBreaks
    requires r.script == [turn] + later && Get(Run(dev.cfg, r.st, turn.others), p, false).File?
    ensures FetchTo(dev, r, p, target) ==
            r.(st := Run(dev.cfg, r.st, turn.others), files := r.files - {TempOf(target)}, script := later)
  {
    assert Tail([turn] + later) == later;
    OwnReplyIsRead(dev.decode, Ok(0), Get(Run(dev.cfg, r.st, turn.others), p, false), turn.getCut);
  }

  // The turns with which an action destroys the file its temp file is called like.
  lemma Strike(dev: Device, at: Path -> string, r: Round, a: Action, p: Path)
    returns (turns: seq<Turn>, others: seq<Step>)
    requires Good(r) && Takes(at, a, p) && (a.Send? ==> a.u.path in r.files)
    ensures ReadersHold(turns)
    ensures forall later :: Act(dev, at, r.(script := turns + later), a) == Struck(dev, r, others, p).(script := later)
  {
    others := StirredAway(dev.cfg, r.st, PathOf(a), if a.Send? then a.u.val.baseRev else 0);
    var strike := CALM.(others := others, write := CopyBreaks);
    turns := if a.Send? then [CALM.(others := others), CALM.(write := CopyBreaks)] else [strike];
    forall later ensures Act(dev, at, r.(script := turns + later), a) == Struck(dev, r, others, p).(script := later) {
      if a.Send? {
        SendStrikes(dev, at, r, a.u, others, later);
      } else {
        FetchStrikes(dev, r.(script := turns + later), PathOf(a), Target(at, a).value, strike, later);
      }
    }
  }

  ghost function Struck(dev: Device, r: Round, others: seq<Step>, p: Path): Round {
    r.(st := Run(dev.cfg, r.st, others), files := r.files - {p})
  }

  lemma SendStrikes(dev: Device, at: Path -> string, r: Round, u: Item<Local>, others: seq<Step>, later: seq<Turn>)
    requires r.inbox == [] && u.path in r.files && Paths.SafeRelPath(u.path).Some?
    requires var end, rel := Run(dev.cfg, r.st, others), Paths.SafeRelPath(u.path).value;
             Get(end, u.path, false).File? && !BaseMatches(CurrentOf(end.index, rel), u.val.baseRev)
    ensures var turns := [CALM.(others := others), CALM.(write := CopyBreaks)];
            Act(dev, at, r.(script := turns + later), Send(u)) ==
            Struck(dev, r, others, TempOf(ConflictName(u.path, at(u.path)))).(script := later)
  {
    var first, second := CALM.(others := others), CALM.(write := CopyBreaks);
    var end := Run(dev.cfg, r.st, others);
    var met := r.(st := end, script := [second] + later);
    assert [first, second] + later == [first] + ([second] + later);
    assert Tail([first] + ([second] + later)) == [second] + later;
    AnsweredAlone(dev, met, Reject(Conflict));
    assert CallPut(dev, r.(script := [first, second] + later), u, r.files[u.path]) == (met, Some(Reject(Conflict)));
    assert Run(dev.cfg, end, []) == end;
    FetchStrikes(dev, met, u.path, ConflictName(u.path, at(u.path)), second, later);
  }

  // Every call before the one action gets lost, and so does every later one.
  lemma {:induction false} SomeRunDestroys(dev: Device, at: Path -> string, r: Round, actions: seq<Action>, k: nat, p: Path)
    returns (script: seq<Turn>)
    requires Good(r) && k < |actions| && Takes(at, actions[k], p)
    requires actions[k].Send? ==> actions[k].u.path in r.files && forall i | 0 <= i < k :: !actions[i].Remove?
    ensures ReadersHold(script) && p !in Perform(dev, at, r.(script := script), actions).files
    decreases k
  {
    var a, rest := actions[0], actions[1..];
    assert actions == [a] + rest;
    if k == 0 {
      var turns, others := Strike(dev, at, r, a, p);
      var later := LoseAll(dev, at, Struck(dev, r, others, p), rest);
      script := turns + later;
      PerformFirst(dev, at, r.(script := script), a, rest);
    } else {
      assert rest[k - 1] == actions[k];
      assert forall i | 0 <= i < k - 1 :: rest[i] == actions[i + 1];
      LoseOne(dev, at, r, a, []);
      RemovedIsGood(r, a);
      var later := SomeRunDestroys(dev, at, Removed(r, a), rest, k - 1, p);
      script := Lost(r, a) + later;
      LoseOne(dev, at, r, a, later);
      PerformFirst(dev, at, r.(script := script), a, rest);
    }
  }

  lemma RemovedIsGood(r: Round, a: Action)
    requires Good(r)
    ensures Good(Removed(r, a))
  {
    if a.Remove? {
      assert forall q | q in Removed(r, a).base :: q in r.base && Removed(r, a).base[q] == r.base[q];
    }
  }

  // Uploads come first.
  lemma SendsFirst(mode: Mode, plan: Plan, k: nat)
    requires k < |Actions(mode, plan)| && Actions(mode, plan)[k].Send?
    ensures Actions(mode, plan)[k].u in plan.upload && forall i | 0 <= i < k :: !Actions(mode, plan)[i].Remove?
  {
    var sends := if mode == Cleanup then [] else Sends(plan.upload);
    assert sends <= Actions(mode, plan);
    assert k < |sends|;
  }

  lemma TakenIsLost(dev: Device, at: Path -> string, r: Round, rows: map<Path, Row>, plan: Plan, a: Action, p: Path)
    requires Good(r) && PlanFits(r.files, r.base, rows, plan) && p in r.files && !Replaceable(r, rows, p)
    requires a in Actions(dev.mode, plan) && Takes(at, a, p)
    ensures !Spares(dev, at, r, rows, plan)
  {
    var actions, start := Actions(dev.mode, plan), r.(base := Kept(r.files, r.base));
    var k :| 0 <= k < |actions| && actions[k] == a;
    if a.Send? {
      SendsFirst(dev.mode, plan, k);
    }
    KeptIsGood(r);
    var script := SomeRunDestroys(dev, at, start, actions, k, p);
    assert r.(script := script, base := Kept(r.files, r.base)) == start.(script := script);
    assert !Survives(dev, at, r, plan, script, p);
  }

  lemma KeptIsGood(r: Round)
    requires Good(r)
    ensures Good(r.(base := Kept(r.files, r.base)))
  {
  }

  // Once a plan is made, nothing that can happen to its round (no reading of a file to upload breaking off)
  // destroys a file the plan may not replace, exactly if no such file is called like the temp file of a
  // target the plan may fetch.
  lemma SparesIffNamesAreFree(dev: Device, at: Path -> string, r: Round, rows: map<Path, Row>, plan: Plan)
    requires Good(r) && PlanFits(r.files, r.base, rows, plan) && FreshNames(at, plan, r.files)
    ensures Spares(dev, at, r, rows, plan) <==>
            forall p | p in r.files && !Replaceable(r, rows, p) :: NobodyTakes(at, Actions(dev.mode, plan), p)
  {
    if forall p | p in r.files && !Replaceable(r, rows, p) :: NobodyTakes(at, Actions(dev.mode, plan), p) {
      forall script, p | ReadersHold(script) && p in r.files && !Replaceable(r, rows, p)
        ensures Survives(dev, at, r, plan, script, p)
      {
        NobodyTakesSpares(dev, at, r, rows, plan, script, p);
      }
    } else {
      var p :| p in r.files && !Replaceable(r, rows, p) && !NobodyTakes(at, Actions(dev.mode, plan), p);
      var a :| a in Actions(dev.mode, plan) && Takes(at, a, p);
      TakenIsLost(dev, at, r, rows, plan, a, p);
    }
  }
}
