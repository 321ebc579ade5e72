/** Runs in which the code does less than it says, for the items README.md lists. */
module Witnesses {
  import opened Options
  import opened Listing
  import opened FileIndex
  import opened SyncServer
  import opened ServerRuns
  import opened Reconciling
  import opened ThreeWay
  import opened PlanMeaning
  import opened Wire
  import opened ClientRound
  import opened Safety
  import opened Walk
  import opened Sequences
  import Paths
  import Usage
  import Convergence
  import Frames

  const CFG := Config(10, 100)
  const LAPTOP := Device(CFG, "laptop", ReadWrite, (body: Content) => None)

  // A put from another device.
  function Theirs(p: Path, base: int, body: Content): PutCall {
    PutCall(p, base, Sha(body), Reader(body, false), ReadWrite, "desk", "tmp", CALM.put)
  }

  // The state after an accepted put, field by field.
  lemma After(st: State, c: PutCall)
    requires MayPut(CFG, st, c) && Used(st.index) + |c.reader.body| <= CFG.limit
    ensures var st' := Put(CFG, st, c).st;
            var row := Row(|c.reader.body|, c.declared, RevAt(st, c.path) + 1, false);
            && Put(CFG, st, c).result == Ok(row.rev) && Used(st'.index) <= Used(st.index) + |c.reader.body|
            && st'.index == st.index[c.path := row] && st'.disk == st.disk[c.path := c.reader.body]
            && st'.temps == st.temps
            && st'.history == st.history[c.path := History(st, c.path) + [Version(row, c.base, Client(c.device))]]
  {
    MayPutIsAccepted(CFG, st, c);
    PutAccepted(CFG, st, c);
    UsedUpdate(st.index, c.path, Row(|c.reader.body|, c.declared, RevAt(st, c.path) + 1, false));
  }

  // ---------- A reply nobody read ----------

  // Three new files. Reading the first breaks off; before the third arrives another device has put it twice.
  const THREE: map<Path, Content> := map["A" := [1], "B" := [2], "C" := [3]]
  const CUT := CALM.(readFails := Some(0))
  const LATE := CALM.(others := [DoPut(Theirs("C", 0, [7])), DoPut(Theirs("C", 1, [8]))])
  const FIRST := Round(THREE, map[], map[], EMPTY, [CALM, CALM, CUT, CALM, LATE], [])

  function New(p: Path, body: Content): Item<Local> {
    Item(p, Local(|body|, 0, NoDigest, Sha(body), Modified))
  }

  const UPLOADS := [New("A", [1]), New("B", [2]), New("C", [3])]
  const PLAN := Plan(UPLOADS, [], [], [], [])

  lemma Names()
    ensures forall p | p in {"A", "B", "C"} :: Paths.Canonical(p) && Paths.Scannable(p)
  {
    Paths.PlainName("A");
    Paths.PlainName("B");
    Paths.PlainName("C");
  }

  lemma NothingYet()
    ensures Consistent(EMPTY) && Reconcile(EMPTY, CLEAN_SCAN) == EMPTY
  {
    assert forall p :: RowIsLast(EMPTY, p);
    assert Observations(map[], Scan(map[]), {}) == map[];
    CommitNone(EMPTY);
  }

  lemma CalmManifest(dev: Device, r: Round)
    requires r.inbox == [] && Head(r.script) == CALM && Head(Tail(r.script)) == CALM
    ensures var st := Reconcile(r.st, CLEAN_SCAN);
            CallManifest(dev, r) == (r.(st := st, script := Tail(Tail(r.script))), Some(st.index))
  {
    var swept := r.(st := Reconcile(r.st, CLEAN_SCAN), script := Tail(r.script));
    assert Arrive(dev.cfg, r) == r.(script := Tail(r.script));
    assert Arrive(dev.cfg, swept) == swept.(script := Tail(Tail(r.script)));
    assert [Text(ManifestReply(Some(swept.st.index)))][1..] == [];
  }

  lemma FirstManifest()
    ensures CallManifest(LAPTOP, FIRST) == (FIRST.(script := [CUT, CALM, LATE]), Some(map[]))
  {
    NothingYet();
    assert FIRST.script[1..] == [CALM, CUT, CALM, LATE] && [CALM, CUT, CALM, LATE][1..] == [CUT, CALM, LATE];
    CalmManifest(LAPTOP, FIRST);
  }

  lemma FirstPlan()
    ensures PlanFits(THREE, map[], map[], PLAN)
  {
    UploadPaths();
    forall p
      ensures p in PathsOf(UPLOADS) <==> VerdictAt(THREE, map[], map[], p) == ThreeWay.Upload
      ensures VerdictAt(THREE, map[], map[], p) in {ThreeWay.Upload, Leave}
    {
      FirstVerdict(p);
    }
  }

  lemma UploadPaths()
    ensures PathsOf(UPLOADS) == {"A", "B", "C"} && Distinct(UPLOADS)
    ensures forall u | u in UPLOADS :: u.path in THREE && u.val.curSha == Sha(THREE[u.path]) && u.val.baseRev == 0
  {
    assert UPLOADS[0].path == "A" && UPLOADS[1].path == "B" && UPLOADS[2].path == "C";
  }

  lemma FirstVerdict(p: Path)
    ensures VerdictAt(THREE, map[], map[], p) == if p in {"A", "B", "C"} then ThreeWay.Upload else Leave
  {
    Names();
    assert p in THREE <==> p in {"A", "B", "C"};
  }

  const AT := (p: Path) => "20260101T000000Z"

  // What a put sends, for an empty inbox or one waiting message.
  function Mine(p: Path, body: Content, declared: Digest): PutCall {
    PutCall(p, 0, declared, Reader(body, false), ReadWrite, "laptop", "tmp", CALM.put)
  }

  // The first upload breaks off; the server refuses the bytes it got, and nobody reads that.
  lemma FirstBreaksOff(r: Round)
    requires r.script == [CUT, CALM, LATE] && r.inbox == [] && r.st == EMPTY && r.files == THREE
    ensures Act(LAPTOP, AT, r, Send(New("A", [1]))) ==
            r.(script := [CALM, LATE], inbox := [Text(ResultReply(Reject(ShaMismatch)))])
  {
    Names();
    assert Tail(r.script) == [CALM, LATE] && Cut([1], Some(0)) == [];
    assert |[1 as Byte]| != 0 && Sha([]) != Sha([1]);
    var call := Mine("A", [], Sha([1]));
    assert Paths.Canonical("A") && BaseMatches(CurrentOf(EMPTY.index, "A"), 0);
    assert WriteTemp(10, EMPTY.temps, "tmp", call.reader, false) == Staged([]);
    assert Put(CFG, EMPTY, call) == PutStaged(CFG, EMPTY, "A", CurrentOf(EMPTY.index, "A"), 0, Sha([1]), [], ReadWrite, "laptop", CALM.put);
  }

  lemma Behind(waiting: Frame, own: Frame)
    ensures Arrived([waiting], [own])[0] == waiting && Arrived([waiting], [own])[1..] == [own]
  {
  }

  // The second takes that reply for its own; its ack waits.
  lemma SecondIsMisread(r: Round)
    requires r.script == [CALM, LATE] && r.inbox == [Text(ResultReply(Reject(ShaMismatch)))] && r.st == EMPTY
    requires r.files == THREE
    ensures var st := Put(CFG, EMPTY, Mine("B", [2], Sha([2]))).st;
            && Act(LAPTOP, AT, r, Send(New("B", [2]))) ==
               r.(script := [LATE], inbox := [Text(ResultReply(Ok(1)))], st := st, notes := r.notes["B" := ShaMismatch])
            && HasB(st)
  {
    Names();
    NothingYet();
    var call := Mine("B", [2], Sha([2]));
    After(EMPTY, call);
    PutKeepsConsistent(CFG, EMPTY, call);
    assert [2 as Byte][0] == 2 && [3 as Byte][0] == 3;
    StillNotStored(EMPTY, call, [3]);
    assert Tail(r.script) == [LATE];
    Behind(Text(ResultReply(Reject(ShaMismatch))), Text(ResultReply(Ok(1))));
  }

  // No version of any path has these bytes.
  ghost predicate NeverStored(st: State, body: Content) {
    forall p, v | v in History(st, p) :: v.row.sha != Sha(body)
  }

  lemma StillNotStored(st: State, c: PutCall, body: Content)
    requires MayPut(CFG, st, c) && Used(st.index) + |c.reader.body| <= CFG.limit
    requires NeverStored(st, body) && c.reader.body != body
    ensures NeverStored(Put(CFG, st, c).st, body)
  {
    After(st, c);
    var st' := Put(CFG, st, c).st;
    forall p, v | v in History(st', p) ensures v.row.sha != Sha(body) {
      if p != c.path {
        assert v in History(st, p);
      }
    }
  }

  const ROW_B := Row(1, Sha([2]), 1, false)
  const ROW_C := Row(1, Sha([8]), 2, false)

  // The server once the second upload is in, and once the others have put the third file twice.
  ghost predicate HasB(st: State) {
    && st.index == map["B" := ROW_B] && st.disk == map["B" := [2]] && st.temps == map[] && "C" !in st.history
    && Used(st.index) <= 1 && Consistent(st) && NeverStored(st, [3])
  }

  ghost predicate HasBC(st: State) {
    && st.index == map["B" := ROW_B, "C" := ROW_C] && st.disk == map["B" := [2], "C" := [8]] && st.temps == map[]
    && Used(st.index) <= 3 && Consistent(st) && NeverStored(st, [3])
  }

  ghost predicate HasOldC(st: State) {
    && st.index == map["B" := ROW_B, "C" := Row(1, Sha([7]), 1, false)] && st.disk == map["B" := [2], "C" := [7]]
    && st.temps == map[] && Used(st.index) <= 2 && Consistent(st) && NeverStored(st, [3])
  }

  lemma OnePut(st: State)
    requires HasB(st)
    ensures HasOldC(Put(CFG, st, Theirs("C", 0, [7])).st)
  {
    Names();
    var one := Theirs("C", 0, [7]);
    assert [7 as Byte][0] == 7 && [3 as Byte][0] == 3;
    After(st, one);
    PutKeepsConsistent(CFG, st, one);
    StillNotStored(st, one, [3]);
  }

  lemma AnotherPut(st: State)
    requires HasOldC(st)
    ensures HasBC(Put(CFG, st, Theirs("C", 1, [8])).st)
  {
    Names();
    var two := Theirs("C", 1, [8]);
    assert [8 as Byte][0] == 8 && [3 as Byte][0] == 3;
    After(st, two);
    PutKeepsConsistent(CFG, st, two);
    StillNotStored(st, two, [3]);
  }

  lemma OthersPutTwice(st: State)
    requires HasB(st)
    ensures HasBC(Run(CFG, st, LATE.others))
  {
    var one, two := Theirs("C", 0, [7]), Theirs("C", 1, [8]);
    OnePut(st);
    var mid := Put(CFG, st, one).st;
    AnotherPut(mid);
    TwoSteps(st, DoPut(one), DoPut(two));
  }

  lemma ThirdPut(st: State)
    requires HasBC(st)
    ensures Put(CFG, st, Mine("C", [3], Sha([3]))) == Outcome(st, Reject(Conflict))
  {
    Names();
    assert Paths.Canonical("C");
  }

  // The third is refused as a conflict and takes the second's ack for its own.
  lemma ThirdIsMisread(r: Round)
    requires r.script == [LATE] && r.inbox == [Text(ResultReply(Ok(1)))] && HasB(r.st) && r.files == THREE
    ensures var st := Run(CFG, r.st, LATE.others);
            Act(LAPTOP, AT, r, Send(New("C", [3]))) ==
            r.(script := [], inbox := [Text(ResultReply(Reject(Conflict)))], st := st, base := r.base["C" := Base(1, Sha([3]))])
  {
    OthersPutTwice(r.st);
    ThirdPut(Run(CFG, r.st, LATE.others));
    assert Tail(r.script) == [];
    ConflictMisread(r, Run(CFG, r.st, LATE.others));
  }

  // Answering a call behind one ack: the call reads the ack.
  lemma ConflictMisread(r: Round, st: State)
    requires r.inbox == [Text(ResultReply(Ok(1)))]
    ensures Answered(LAPTOP, r.(st := st, script := []), Reject(Conflict)) ==
            (r.(st := st, script := [], inbox := [Text(ResultReply(Reject(Conflict)))]), Some(Ok(1)))
  {
    Behind(Text(ResultReply(Ok(1))), Text(ResultReply(Reject(Conflict))));
  }

  const MISREAD: map<Path, Base> := map["C" := Base(1, Sha([3]))]

  lemma ThreeSends()
    ensures Actions(ReadWrite, PLAN) == [Send(New("A", [1])), Send(New("B", [2])), Send(New("C", [3]))]
  {
  }

  lemma PerformThree(r: Round, a: Action, b: Action, c: Action)
    ensures Perform(LAPTOP, AT, r, [a, b, c]) == Act(LAPTOP, AT, Act(LAPTOP, AT, Act(LAPTOP, AT, r, a), b), c)
  {
    PerformMore(LAPTOP, AT, r, [], a);
    PerformMore(LAPTOP, AT, r, [a], b);
    PerformMore(LAPTOP, AT, r, [a, b], c);
    assert [] + [a] == [a] && [a] + [b] == [a, b] && [a, b] + [c] == [a, b, c];
  }

  // The first round ends with an entry for a version the server never had.
  lemma FirstRound() returns (end: Round)
    ensures SyncOnce(LAPTOP, AT, FIRST, PLAN, end)
    ensures end.files == THREE && end.base == MISREAD && HasBC(end.st)
  {
    FirstManifest();
    FirstPlan();
    var r := FIRST.(script := [CUT, CALM, LATE], base := Kept(THREE, map[]));
    assert r.base == map[];
    end := Execute(LAPTOP, AT, FIRST.(script := [CUT, CALM, LATE]), PLAN);
    ThreeSends();
    PerformThree(r, Send(New("A", [1])), Send(New("B", [2])), Send(New("C", [3])));
    FirstBreaksOff(r);
    var r1 := Act(LAPTOP, AT, r, Send(New("A", [1])));
    SecondIsMisread(r1);
    var r2 := Act(LAPTOP, AT, r1, Send(New("B", [2])));
    ThirdIsMisread(r2);
    OthersPutTwice(r2.st);
  }

  const NEXT := Plan([New("A", [1])], [Item("C", ROW_C)], [], [], [])

  lemma NextManifest(st: State)
    requires HasBC(st)
    ensures CallManifest(LAPTOP, Round(THREE, MISREAD, map[], st, [], [])) ==
            (Round(THREE, MISREAD, map[], st, [], []), Some(st.index))
  {
    Names();
    forall p ensures AgreesAt(st, p) {
    }
    AgreesEverywhere(st);
    AgreeingIsQuiet(st);
    CalmManifest(LAPTOP, Round(THREE, MISREAD, map[], st, [], []));
  }

  lemma NextVerdict(index: map<Path, Row>, p: Path)
    requires index == map["B" := ROW_B, "C" := ROW_C]
    ensures VerdictAt(THREE, MISREAD, index, p) ==
            if p == "A" then ThreeWay.Upload else if p == "C" then Download else Leave
  {
    Names();
    assert p in THREE <==> p in {"A", "B", "C"};
  }

  lemma NextPlan(index: map<Path, Row>)
    requires index == map["B" := ROW_B, "C" := ROW_C]
    ensures PlanFits(THREE, MISREAD, index, NEXT)
  {
    PathsOfOne(NEXT.upload[0]);
    PathsOfOne(NEXT.download[0]);
    forall p
      ensures p in PathsOf(NEXT.upload) <==> VerdictAt(THREE, MISREAD, index, p) == ThreeWay.Upload
      ensures p in PathsOf(NEXT.download) <==> VerdictAt(THREE, MISREAD, index, p) == Download
      ensures VerdictAt(THREE, MISREAD, index, p) in {ThreeWay.Upload, Download, Leave}
    {
      NextVerdict(index, p);
    }
  }

  // The next round takes the edit for the old version and downloads over it.
  lemma NextRound(st: State) returns (end: Round)
    requires HasBC(st)
    ensures SyncOnce(LAPTOP, AT, Round(THREE, MISREAD, map[], st, [], []), NEXT, end)
    ensures end.files == THREE["C" := [8]] && NeverStored(end.st, [3])
  {
    var start := Round(THREE, MISREAD, map[], st, [], []);
    NextManifest(st);
    NextPlan(st.index);
    end := Execute(LAPTOP, AT, start, NEXT);
    ExecuteIsSync(LAPTOP, AT, start, start, st.index, NEXT);
    NextExecute(start);
    NextTwo(start);
  }

  lemma ExecuteIsSync(dev: Device, at: Path -> string, r: Round, listed: Round, rows: map<Path, Row>, plan: Plan)
    requires CallManifest(dev, r) == (listed, Some(rows)) && PlanFits(r.files, r.base, rows, plan)
    ensures SyncOnce(dev, at, r, plan, Execute(dev, at, listed, plan))
  {
  }

  lemma NextExecute(r: Round)
    requires r.files == THREE && r.base == MISREAD
    ensures Execute(LAPTOP, AT, r, NEXT) == Act(LAPTOP, AT, Act(LAPTOP, AT, r, Send(New("A", [1]))), Fetch("C"))
  {
    Names();
    assert Kept(THREE, MISREAD) == MISREAD;
    NextActions();
    PerformTwo(r, Send(New("A", [1])), Fetch("C"));
  }

  lemma PerformTwo(r: Round, a: Action, b: Action)
    ensures Perform(LAPTOP, AT, r, [a, b]) == Act(LAPTOP, AT, Act(LAPTOP, AT, r, a), b)
  {
    PerformMore(LAPTOP, AT, r, [], a);
    PerformMore(LAPTOP, AT, r, [a], b);
    assert [] + [a] == [a] && [a] + [b] == [a, b];
  }

  lemma NextTwo(r: Round)
    requires HasBC(r.st) && r.files == THREE && r.script == [] && r.inbox == []
    ensures var end := Act(LAPTOP, AT, Act(LAPTOP, AT, r, Send(New("A", [1]))), Fetch("C"));
            end.files == THREE["C" := [8]] && NeverStored(end.st, [3])
  {
    NextUpload(r);
    NextDownload(Act(LAPTOP, AT, r, Send(New("A", [1]))));
  }

  lemma NextActions()
    ensures Actions(ReadWrite, NEXT) == [Send(New("A", [1])), Fetch("C")]
  {
  }

  lemma NextUpload(r: Round)
    requires HasBC(r.st) && r.files == THREE && r.script == [] && r.inbox == []
    ensures var r' := Act(LAPTOP, AT, r, Send(New("A", [1])));
            && r'.files == THREE && r'.script == [] && r'.inbox == [] && NeverStored(r'.st, [3])
            && "C" in r'.st.index && "C" in r'.st.disk && r'.st.disk["C"] == [8]
  {
    Names();
    var call := Mine("A", [1], Sha([1]));
    assert [1 as Byte][0] == 1 && [3 as Byte][0] == 3;
    After(r.st, call);
    StillNotStored(r.st, call, [3]);
    AnsweredAlone(LAPTOP, r.(st := Put(CFG, r.st, call).st), Ok(1));
    assert Arrive(CFG, r) == r;
  }

  lemma NextDownload(r: Round)
    requires r.script == [] && r.inbox == [] && "C" in r.st.index && "C" in r.st.disk && r.st.disk["C"] == [8]
    requires r.files == THREE
    ensures var r' := Act(LAPTOP, AT, r, Fetch("C")); r'.files == r.files["C" := [8]] && r'.st == r.st
  {
    Names();
    assert Paths.Canonical("C") && Arrive(CFG, r) == r;
    OwnReplyIsRead(LAPTOP.decode, Ok(0), Get(r.st, "C", false), None);
    assert |TempOf("C")| > 1;
    assert THREE - {TempOf("C")} == THREE;
  }

  // One reading of a file to upload breaks off. The saved baseline is no longer sound, and the next round,
  // with nothing failing, overwrites an edit that the server never had under any path.
  lemma StrayReplyBreaksBoth() returns (ms: seq<Machine>, hs: seq<Happening>)
    ensures IsRun(LAPTOP, ms, hs) && |hs| == 2 && HeldIn(LAPTOP, ms[1], hs[1])
    ensures hs[0].RunRound? && hs[0].script == [CALM, CALM, CUT, CALM, LATE]
    ensures !Sound(ms[1].base, ms[1].st)
    ensures "C" in ms[1].files && "C" in ms[2].files && ms[2].files["C"] != ms[1].files["C"]
    ensures NeverStored(ms[2].st, ms[1].files["C"])
  {
    var end := FirstRound();
    var last := NextRound(end.st);
    hs := [RunRound([CALM, CALM, CUT, CALM, LATE], AT, PLAN, end, true), RunRound([], AT, NEXT, last, true)];
    ms := [Machine(THREE, map[], EMPTY), Machine(THREE, MISREAD, end.st), Machine(last.files, last.base, last.st)];
    TwoRoundsRun(ms, hs, end, last);
    HeldWhenCalm(LAPTOP, ms[1], hs[1]);
    BadEntry(end.st);
  }

  lemma TwoRoundsRun(ms: seq<Machine>, hs: seq<Happening>, end: Round, last: Round)
    requires SyncOnce(LAPTOP, AT, FIRST, PLAN, end) && end.files == THREE && end.base == MISREAD
    requires SyncOnce(LAPTOP, AT, Round(THREE, MISREAD, map[], end.st, [], []), NEXT, last)
    requires hs == [RunRound([CALM, CALM, CUT, CALM, LATE], AT, PLAN, end, true), RunRound([], AT, NEXT, last, true)]
    requires ms == [Machine(THREE, map[], EMPTY), Machine(THREE, MISREAD, end.st), Machine(last.files, last.base, last.st)]
    ensures IsRun(LAPTOP, ms, hs)
  {
    NothingYet();
    FreshStamps();
    assert Happens(LAPTOP, ms[0], hs[0], ms[1]);
    assert Happens(LAPTOP, ms[1], hs[1], ms[2]);
  }

  lemma FreshStamps()
    ensures FreshNames(AT, PLAN, THREE) && FreshNames(AT, NEXT, THREE)
  {
    forall q: Path ensures ConflictName(q, AT(q)) !in THREE {
      assert |ConflictName(q, AT(q))| > 1;
    }
  }

  lemma HeldWhenCalm(dev: Device, m: Machine, h: Happening)
    requires h.RunRound? && h.script == []
    ensures HeldIn(dev, m, h)
  {
    var r := Started(m, []);
    var listed := CallManifest(dev, r).0;
    CalmHolds(dev, h.at, listed.(base := Kept(r.files, r.base)), Actions(dev.mode, h.plan));
  }

  lemma BadEntry(st: State)
    requires HasBC(st)
    ensures !Sound(MISREAD, st)
  {
    Names();
    assert Paths.Canonical("C") && "C" in MISREAD;
    assert !SoundAt(st, "C", MISREAD["C"]);
  }

  // ---------- A name no request can spell ----------

  const ODD := "a\\b"

  lemma OddName()
    ensures !Paths.Canonical(ODD) && Paths.Scannable(ODD) && '/' !in ODD
  {
    assert ODD[0] == 'a' && ODD[1] == '\\' && ODD[2] == 'b';
    Paths.SplitOfPlain(ODD);
    Paths.StartsLikeNone(ODD);
    if Paths.Canonical(ODD) {
      Paths.SafeRelPathClean(ODD, ODD);
    }
  }

  // The state after a file was made in the container and reconciled.
  const FOUND_ODD := State(map[ODD := Row(1, Sha([1]), 1, false)],
                           map[ODD := [Version(Row(1, Sha([1]), 1, false), 0, Cloud)]], map[ODD := [1]], map[])

  // A reconcile lists a file with a backslash in its name; no put or delete can change the row.
  lemma OddRowStays(steps: seq<Step>)
    requires forall s | s in steps :: s.DoPut? || s.DoDelete?
    ensures Run(CFG, EMPTY, [CloudWrite(ODD, [1]), DoReconcile(CLEAN_SCAN)]) == FOUND_ODD
    ensures RowAt(Run(CFG, FOUND_ODD, steps), ODD) == Some(Row(1, Sha([1]), 1, false))
  {
    OddName();
    OddIsFound();
    Usage.UnreachableStays(CFG, FOUND_ODD, steps);
    assert ODD in Usage.Unreachable(FOUND_ODD.index);
    assert ODD in Usage.Unreachable(Run(CFG, FOUND_ODD, steps).index);
  }

  lemma OddIsFound()
    requires Paths.Scannable(ODD)
    ensures Run(CFG, EMPTY, [CloudWrite(ODD, [1]), DoReconcile(CLEAN_SCAN)]) == FOUND_ODD
  {
    var st := EMPTY.(disk := map[ODD := [1]]);
    TwoSteps(EMPTY, CloudWrite(ODD, [1]), DoReconcile(CLEAN_SCAN));
    assert EMPTY.disk[ODD := [1]] == map[ODD := [1]];
    assert Observe(map[], Scan(st.disk), ODD) == Some(Version(Row(1, Sha([1]), 1, false), 0, Cloud));
    assert Observations(map[], Scan(st.disk), {}) == map[ODD := Version(Row(1, Sha([1]), 1, false), 0, Cloud)];
    var v := Version(Row(1, Sha([1]), 1, false), 0, Cloud);
    CommitOne(st, ODD, v);
    assert Reconcile(st, CLEAN_SCAN) == CommitAll(st, map[ODD := v]);
    EmptyIsUnit([v]);
    assert st.index[ODD := v.row] == FOUND_ODD.index;
    assert st.history[ODD := [v]] == FOUND_ODD.history;
  }

  lemma TwoSteps(st: State, a: Step, b: Step)
    ensures Run(CFG, st, [a, b]) == Apply(CFG, Apply(CFG, st, a), b)
  {
    assert [a, b][1..] == [b] && [b][1..] == [];
    assert Run(CFG, Apply(CFG, st, a), [b]) == Apply(CFG, Apply(CFG, st, a), b);
  }

  // ---------- An edit that faces a tombstone ----------

  // The server after the first put of one file.
  ghost predicate HasA(st: State) {
    && st.index == map["A" := Row(1, Sha([1]), 1, false)] && st.disk == map["A" := [1]] && st.temps == map[]
    && Used(st.index) <= 1 && Consistent(st) && NeverStored(st, [2])
  }

  lemma FirstPut()
    ensures HasA(Put(CFG, EMPTY, Theirs("A", 0, [1])).st)
  {
    Names();
    NothingYet();
    var put := Theirs("A", 0, [1]);
    assert [1 as Byte][0] == 1 && [2 as Byte][0] == 2;
    After(EMPTY, put);
    PutKeepsConsistent(CFG, EMPTY, put);
    StillNotStored(EMPTY, put, [2]);
  }

  const DELETE_A := DeleteCall("A", 1, "desk", CALM.delete)

  // And once somebody has deleted it.
  ghost predicate GoneA(st: State) {
    && st.index == map["A" := Row(0, NoDigest, 2, true)] && st.disk == map[] && st.temps == map[]
    && Consistent(st) && Committed(st, "A", 1, Sha([1]))
  }

  lemma DeletingA(st: State)
    requires HasA(st)
    ensures GoneA(Delete(st, DELETE_A).st)
  {
    Names();
    ConsistentAt(st, "A");
    DeleteKeepsConsistent(st, DELETE_A);
    assert Paths.Canonical("A") && Delete(st, DELETE_A).result.Ok?;
    DeleteAccepted(st, DELETE_A);
  }

  // Put and deleted by others, and edited here since the first version.
  lemma BuriedEdit() returns (r: Round)
    ensures Convergence.CalmStart(r) && Convergence.Buried(Convergence.LCorner(Convergence.Swept(r), "A"))
    ensures exists steps :: r.st == Run(CFG, EMPTY, steps)
  {
    FirstPut();
    var put := Theirs("A", 0, [1]);
    DeletingA(Put(CFG, EMPTY, put).st);
    TwoSteps(EMPTY, DoPut(put), DoDelete(DELETE_A));
    var st := Run(CFG, EMPTY, [DoPut(put), DoDelete(DELETE_A)]);
    EditIsBuried(st);
    r := EditedHere(st);
    assert r.st == Run(CFG, EMPTY, [DoPut(put), DoDelete(DELETE_A)]);
  }

  function EditedHere(st: State): Round {
    Round(map["A" := [2]], map["A" := Base(1, Sha([1]))], map[], st, [], [])
  }

  lemma EditIsBuried(st: State)
    requires GoneA(st)
    ensures var r := EditedHere(st);
            Convergence.CalmStart(r) && Convergence.Buried(Convergence.LCorner(Convergence.Swept(r), "A"))
  {
    Names();
    forall p ensures AgreesAt(st, p) {
    }
    AgreesEverywhere(st);
    AgreeingIsQuiet(st);
    assert Paths.Canonical("A") && SoundAt(st, "A", Base(1, Sha([1])));
    assert [1 as Byte][0] == 1 && [2 as Byte][0] == 2;
  }

  // ---------- A failed commit that no reconcile repairs ----------

  // The same bytes put again: the commit fails, and the reconcile finds nothing to do.
  lemma LostCommitStays(st: State, c: PutCall)
    requires HasB(st) && c == PutCall("B", 1, Sha([2]), Reader([2], false), ReadWrite, "laptop", "tmp", CALM.put)
    ensures RowAt(Put(CFG, st, c).st, "B") == Some(Row(1, Sha([2]), 2, false))
    ensures RowAt(Reconcile(Put(CFG, st, LosingCommit(c)).st, CLEAN_SCAN), "B") != RowAt(Put(CFG, st, c).st, "B")
  {
    Names();
    After(st, c);
    LostPutCommitHeals(CFG, st, c);
  }

  // ---------- A root named like an excluded directory ----------

  lemma ExcludedRoot()
    ensures var tree := Cons("A", Node.File([1]), Nil);
            && IsRoot("build")
            && ScanDir("build", tree) == [] && DirManifest("build", tree) == [Entry("A", [1])]
  {
    var tree := Cons("A", Node.File([1]), Nil);
    BuildIsExcluded();
    WalksOf("build", tree);
    Names();
    OneFile("A", [1]);
  }

  lemma OneFile(name: string, content: Content)
    requires Paths.Scannable(name)
    ensures Listed(FilesIn("", Cons(name, Node.File(content), Nil))) == [Entry(name, content)]
  {
    assert "" + name == name;
    assert Files(name, Node.File(content)) == [Item(name, content)] && FilesIn("", Nil) == [];
    assert FilesIn("", Cons(name, Node.File(content), Nil)) == [Item(name, content)];
    assert Listed([Item(name, content)][1..]) == [];
  }

  lemma BuildIsExcluded()
    ensures Paths.DefaultExcluded("build" + "/") && IsRoot("build")
  {
    var name := "build" + "/";
    assert Paths.TREES[5] == name;
    assert name in Paths.EXCLUDED_PREFIXES && name <= name;
    Paths.SplitOfPlain("build");
    assert Paths.Resolve(false, ["build"], []) == Paths.Resolve(false, [], ["build"]) by {
      assert ["build"][1..] == [] && [] + ["build"] == ["build"];
    }
  }

  // ---------- A reply read by another call ----------

  // Two puts; the first's content reader fails.
  const PUTS := [Frames.Call(Frames.Put, true), Frames.Call(Frames.Put, false)]

  // The second put reads the reply to the first, and leaves its own for the next call.
  lemma ReplyReadByAnother() returns (events: seq<Frames.Event>)
    ensures var w := Frames.Run(PUTS, events);
            && w.next == 2 && w.client == Frames.Ready && w.toServer == [] && w.server == Frames.Idle
            && w.taken == [Frames.Read(1, 0)] && w.toClient == [Frames.Message(1)]
  {
    var client, server := Frames.ClientStep, Frames.ServerStep(true);
    events := [client, client, server, server, client, client, client, server, server];
    FirstPutFails(client, server);
    SecondPutReads(client, server);
    var before := [client, client, server, server, client, client, client];
    assert events == before + [server] + [server];
    MoreFrames(before, server);
    MoreFrames(before + [server], server);
  }

  lemma MoreFrames(events: seq<Frames.Event>, e: Frames.Event)
    ensures Frames.Run(PUTS, events + [e]) == Frames.Next(PUTS, Frames.Run(PUTS, events), e)
  {
    assert (events + [e])[..|events + [e]| - 1] == events;
  }

  lemma FirstPutFails(client: Frames.Event, server: Frames.Event)
    requires client == Frames.ClientStep && server == Frames.ServerStep(true)
    ensures Frames.Run(PUTS, [client, client, server, server]) ==
            Frames.World(1, Frames.Ready, [], Frames.Idle, [Frames.Message(0)], [])
  {
    MoreFrames([], client);
    MoreFrames([client], client);
    MoreFrames([client, client], server);
    MoreFrames([client, client, server], server);
    assert [] + [client] == [client] && [client] + [client] == [client, client];
    assert [client, client] + [server] == [client, client, server];
    assert [client, client, server] + [server] == [client, client, server, server];
  }

  lemma SecondPutReads(client: Frames.Event, server: Frames.Event)
    requires client == Frames.ClientStep && server == Frames.ServerStep(true)
    requires Frames.Run(PUTS, [client, client, server, server]) ==
             Frames.World(1, Frames.Ready, [], Frames.Idle, [Frames.Message(0)], [])
    ensures Frames.Run(PUTS, [client, client, server, server, client, client, client]) ==
            Frames.World(2, Frames.Ready, [Frames.Text(1, Frames.Put), Frames.Binary(1)], Frames.Idle, [], [Frames.Read(1, 0)])
  {
    var start := [client, client, server, server];
    MoreFrames(start, client);
    MoreFrames(start + [client], client);
    MoreFrames(start + [client] + [client], client);
    assert start + [client] + [client] + [client] == [client, client, server, server, client, client, client];
  }

  // ---------- An edit in the container that a put replaces ----------

  // The container's bytes are in no version and in no file: the base is current, and the disk is not read.
  lemma EditIsReplaced()
    ensures var edited := Run(CFG, EMPTY, [DoPut(Theirs("A", 0, [1])), CloudWrite("A", [2])]);
            var end := Put(CFG, edited, Theirs("A", 1, [3]));
            && edited.disk == map["A" := [2]] && end.result == Ok(2)
            && NeverStored(end.st, [2]) && end.st.disk == map["A" := [3]]
  {
    var one := Theirs("A", 0, [1]);
    FirstPut();
    TwoSteps(EMPTY, DoPut(one), CloudWrite("A", [2]));
    ReplacingEdit(Put(CFG, EMPTY, one).st, Run(CFG, EMPTY, [DoPut(one), CloudWrite("A", [2])]));
  }

  lemma ReplacingEdit(st: State, edited: State)
    requires HasA(st) && edited == Apply(CFG, st, CloudWrite("A", [2]))
    ensures var end := Put(CFG, edited, Theirs("A", 1, [3]));
            && edited.disk == map["A" := [2]] && end.result == Ok(2)
            && NeverStored(end.st, [2]) && end.st.disk == map["A" := [3]]
  {
    Names();
    var two := Theirs("A", 1, [3]);
    assert [2 as Byte][0] == 2 && [3 as Byte][0] == 3;
    SameHistory(st, edited, [2]);
    After(edited, two);
    StillNotStored(edited, two, [2]);
  }

  lemma SameHistory(st: State, st': State, body: Content)
    requires NeverStored(st, body) && st'.history == st.history
    ensures NeverStored(st', body)
  {
    assert forall p :: History(st', p) == History(st, p);
  }

  // ---------- A name taken for a temp file ----------

  // What a download of "A" is written to first.
  const TEMP_A := TempOf("A")
  const ROW_A := Row(1, Sha([1]), 1, false)
  const ROW_TEMP := Row(1, Sha([9]), 1, false)

  lemma TempName()
    ensures Paths.Canonical(TEMP_A) && Paths.Scannable(TEMP_A) && TEMP_A != "A"
    ensures Paths.Canonical("A") && Paths.Scannable("A")
  {
    Names();
    assert TEMP_A == "A.cclaude.dl.tmp";
    Paths.PlainName(TEMP_A);
    TempIsAnother("A", "A");
  }

  // In this mode a client uploads nothing.
  const CLEANER := Device(CFG, "laptop", Cleanup, (body: Content) => None)
  const MINE: map<Path, Content> := map[TEMP_A := [2]]
  const FETCH_A := Plan([New(TEMP_A, [2])], [Item("A", ROW_A)], [], [], [])

  lemma QuietManifest(dev: Device, r: Round)
    requires r.script == [] && r.inbox == [] && forall p :: AgreesAt(r.st, p)
    ensures CallManifest(dev, r) == (r, Some(r.st.index))
  {
    AgreesEverywhere(r.st);
    AgreeingIsQuiet(r.st);
    CalmManifest(dev, r);
  }

  lemma FetchAPlan(index: map<Path, Row>)
    requires index == map["A" := ROW_A]
    ensures PlanFits(MINE, map[], index, FETCH_A)
  {
    TempName();
    PathsOfOne(FETCH_A.upload[0]);
    PathsOfOne(FETCH_A.download[0]);
    OneEachWay(index, TEMP_A, FETCH_A);
  }

  lemma OneEachWay(index: map<Path, Row>, t: Path, plan: Plan)
    requires index == map["A" := ROW_A] && Paths.Scannable(t) && t != "A"
    requires plan == Plan([New(t, [2])], [Item("A", ROW_A)], [], [], [])
    requires PathsOf(plan.upload) == {t} && PathsOf(plan.download) == {"A"}
    ensures PlanFits(map[t := [2]], map[], index, plan)
  {
    forall p
      ensures p in PathsOf(plan.upload) <==> VerdictAt(map[t := [2]], map[], index, p) == ThreeWay.Upload
      ensures p in PathsOf(plan.download) <==> VerdictAt(map[t := [2]], map[], index, p) == Download
      ensures VerdictAt(map[t := [2]], map[], index, p) in {ThreeWay.Upload, Download, Leave}
    {
      OneVerdict(index, t, p);
    }
  }

  lemma OneVerdict(index: map<Path, Row>, t: Path, p: Path)
    requires index == map["A" := ROW_A] && Paths.Scannable(t) && t != "A"
    ensures VerdictAt(map[t := [2]], map[], index, p) ==
            if p == t then ThreeWay.Upload else if p == "A" then Download else Leave
  {
  }

  lemma OnlyFetch(dev: Device, r: Round)
    requires dev.mode == Cleanup && r.base == map[]
    ensures Execute(dev, AT, r, FETCH_A) == FetchTo(dev, r, "A", "A")
  {
    assert Kept(r.files, map[]) == map[];
    assert Actions(Cleanup, FETCH_A) == [Fetch("A")];
    PerformMore(dev, AT, r, [], Fetch("A"));
    assert [] + [Fetch("A")] == [Fetch("A")];
  }

  // The file nobody had is gone with the download.
  lemma FetchOverMine(st: State) returns (end: Round)
    requires HasA(st)
    ensures SyncOnce(CLEANER, AT, Started(Machine(MINE, map[], st), []), FETCH_A, end)
    ensures end.files == map["A" := [1]] && NeverStored(end.st, [2])
  {
    var r := Started(Machine(MINE, map[], st), []);
    Names();
    forall p ensures AgreesAt(st, p) {
      OneAgrees(st, p);
    }
    QuietManifest(CLEANER, r);
    FetchAPlan(st.index);
    end := Execute(CLEANER, AT, r, FETCH_A);
    ExecuteIsSync(CLEANER, AT, r, r, st.index, FETCH_A);
    OnlyFetch(CLEANER, r);
    FetchedAlone(CLEANER, r, "A");
    OneLeft(TEMP_A, "A", [2], [1]);
  }

  lemma OneLeft(t: Path, p: Path, was: Content, now: Content)
    ensures (map[t := was] - {t})[p := now] == map[p := now]
  {
  }

  lemma FetchedAlone(dev: Device, r: Round, p: Path)
    requires r.script == [] && r.inbox == [] && Paths.Canonical(p) && p in r.st.index && p in r.st.disk
    ensures FetchTo(dev, r, p, p) ==
            r.(files := (r.files - {TempOf(p)})[p := r.st.disk[p]], base := r.base[p := Base(r.st.index[p].rev, NoDigest)])
  {
    assert Arrive(dev.cfg, r) == r;
    OwnReplyIsRead(dev.decode, Ok(0), Get(r.st, p, false), None);
  }

  // A local file called like the temp file of a download is destroyed, and its bytes are in no version.
  lemma UnsyncedFileIsLost() returns (ms: seq<Machine>, hs: seq<Happening>)
    ensures IsRun(CLEANER, ms, hs) && |hs| == 2 && hs[1].RunRound? && hs[1].script == []
    ensures HeldIn(CLEANER, ms[1], hs[1])
    ensures ms[1].files == map[TEMP_A := [2]] && TEMP_A !in ms[2].files && NeverStored(ms[2].st, [2])
  {
    var steps := [DoPut(Theirs("A", 0, [1]))];
    var st := Run(CFG, EMPTY, steps);
    FirstPut();
    assert steps[1..] == [] && Run(CFG, Put(CFG, EMPTY, Theirs("A", 0, [1])).st, []) == st;
    var end := FetchOverMine(st);
    hs := [Elsewhere(steps), RunRound([], AT, FETCH_A, end, true)];
    ms := [Machine(MINE, map[], EMPTY), Machine(MINE, map[], st), Machine(end.files, end.base, end.st)];
    TempName();
    HeldWhenCalm(CLEANER, ms[1], hs[1]);
    LosingRun(ms, hs, st, end);
  }

  lemma LosingRun(ms: seq<Machine>, hs: seq<Happening>, st: State, end: Round)
    requires SyncOnce(CLEANER, AT, Started(Machine(MINE, map[], st), []), FETCH_A, end)
    requires st == Run(CFG, EMPTY, [DoPut(Theirs("A", 0, [1]))])
    requires hs == [Elsewhere([DoPut(Theirs("A", 0, [1]))]), RunRound([], AT, FETCH_A, end, true)]
    requires ms == [Machine(MINE, map[], EMPTY), Machine(MINE, map[], st), Machine(end.files, end.base, end.st)]
    ensures IsRun(CLEANER, ms, hs)
  {
    NothingYet();
    forall q ensures ConflictName(q, AT(q)) !in MINE {
      Convergence.CopyIsNoTemp(q, AT(q), "A");
    }
    assert Happens(CLEANER, ms[0], hs[0], ms[1]);
    assert Happens(CLEANER, ms[1], hs[1], ms[2]);
  }

  // Both "A" and the file called like its temp file on the server.
  ghost predicate HasBoth(st: State) {
    && st.index == map["A" := ROW_A, TEMP_A := ROW_TEMP] && st.disk == map["A" := [1], TEMP_A := [9]]
  }

  lemma PutBoth()
    ensures HasBoth(Run(CFG, EMPTY, [DoPut(Theirs("A", 0, [1])), DoPut(Theirs(TEMP_A, 0, [9]))]))
  {
    FirstPut();
    SecondFile(Put(CFG, EMPTY, Theirs("A", 0, [1])).st);
    TwoSteps(EMPTY, DoPut(Theirs("A", 0, [1])), DoPut(Theirs(TEMP_A, 0, [9])));
  }

  lemma SecondFile(st: State)
    requires HasA(st)
    ensures HasBoth(Put(CFG, st, Theirs(TEMP_A, 0, [9])).st)
  {
    TempName();
    AddedFile(st, TEMP_A);
  }

  lemma AddedFile(st: State, t: Path)
    requires HasA(st) && Paths.Canonical(t) && t != "A"
    ensures var st' := Put(CFG, st, Theirs(t, 0, [9])).st;
            st'.index == st.index[t := ROW_TEMP] && st'.disk == st.disk[t := [9]]
  {
    ConsistentAt(st, t);
    assert RowIsLast(st, t);
    assert [9 as Byte][0] == 9;
    After(st, Theirs(t, 0, [9]));
  }

  function Fetching(st: State): Round {
    Round(map[], map[], map[], st, [], [])
  }

  const A_FIRST := Plan([], [Item("A", ROW_A), Item(TEMP_A, ROW_TEMP)], [], [], [])
  const A_LAST := Plan([], [Item(TEMP_A, ROW_TEMP), Item("A", ROW_A)], [], [], [])

  lemma BothPlans(index: map<Path, Row>, a: Item<Row>, t: Item<Row>)
    requires a.path != t.path && !a.val.deleted && !t.val.deleted && index == map[a.path := a.val, t.path := t.val]
    ensures PlanFits(map[], map[], index, Plan([], [a, t], [], [], []))
    ensures PlanFits(map[], map[], index, Plan([], [t, a], [], [], []))
  {
    TwoDownloads(index, a, t, Plan([], [a, t], [], [], []));
    TwoDownloads(index, t, a, Plan([], [t, a], [], [], []));
  }

  lemma TwoPaths(x: Item<Row>, y: Item<Row>)
    requires x.path != y.path
    ensures PathsOf([x, y]) == {x.path, y.path} && Distinct([x, y])
  {
    assert [x, y][0].path in PathsOf([x, y]) && [x, y][1].path in PathsOf([x, y]);
  }

  lemma TwoDownloads(index: map<Path, Row>, x: Item<Row>, y: Item<Row>, plan: Plan)
    requires x.path != y.path && !x.val.deleted && !y.val.deleted
    requires index.Keys == {x.path, y.path} && index[x.path] == x.val && index[y.path] == y.val
    requires plan == Plan([], [x, y], [], [], [])
    ensures PlanFits(map[], map[], index, plan)
  {
    TwoPaths(x, y);
    forall p
      ensures p in PathsOf(plan.download) <==> VerdictAt(map[], map[], index, p) == Download
      ensures VerdictAt(map[], map[], index, p) in {Download, Leave}
    {
      assert p in index <==> p == x.path || p == y.path;
    }
  }

  // Fetching one, then the other: of the first only what the second's temp file is not called is left.
  lemma FetchTwo(r: Round, p: Path, q: Path)
    requires r == Fetching(r.st) && Paths.Canonical(p) && Paths.Canonical(q)
    requires p in r.st.index && p in r.st.disk && q in r.st.index && q in r.st.disk
    requires r.st.index[p].rev == 1 && r.st.index[q].rev == 1
    ensures var end := Act(LAPTOP, AT, Act(LAPTOP, AT, r, Fetch(p)), Fetch(q));
            && end.st == r.st && end.base == map[p := Base(1, NoDigest), q := Base(1, NoDigest)]
            && end.files.Keys == {p} - {TempOf(q)} + {q}
  {
    FetchedAlone(LAPTOP, r, p);
    FetchedAlone(LAPTOP, Act(LAPTOP, AT, r, Fetch(p)), q);
    assert r.files - {TempOf(p)} == map[];
  }

  // A directory that has nothing yet gets both.
  lemma RoundOfBoth(st: State, plan: Plan, p: Path, q: Path) returns (end: Round)
    requires HasBoth(st) && plan in {A_FIRST, A_LAST} && Actions(ReadWrite, plan) == [Fetch(p), Fetch(q)]
    requires {p, q} == {"A", TEMP_A}
    ensures SyncOnce(LAPTOP, AT, Fetching(st), plan, end)
    ensures end.st == st && end.base == map[p := Base(1, NoDigest), q := Base(1, NoDigest)]
    ensures end.files.Keys == {p} - {TempOf(q)} + {q}
  {
    var r := Fetching(st);
    BothAgree(st);
    QuietManifest(LAPTOP, r);
    TempName();
    BothPlans(st.index, Item("A", ROW_A), Item(TEMP_A, ROW_TEMP));
    end := Execute(LAPTOP, AT, r, plan);
    ExecuteIsSync(LAPTOP, AT, r, r, st.index, plan);
    BothFetched(r, plan, p, q);
  }

  lemma BothFetched(r: Round, plan: Plan, p: Path, q: Path)
    requires HasBoth(r.st) && r == Fetching(r.st) && Actions(ReadWrite, plan) == [Fetch(p), Fetch(q)]
    requires {p, q} == {"A", TEMP_A}
    ensures var end := Execute(LAPTOP, AT, r, plan);
            && end.st == r.st && end.base == map[p := Base(1, NoDigest), q := Base(1, NoDigest)]
            && end.files.Keys == {p} - {TempOf(q)} + {q}
  {
    assert Kept(map[], map[]) == map[];
    PerformTwo(r, Fetch(p), Fetch(q));
    BothAreThere(r.st, p);
    BothAreThere(r.st, q);
    FetchTwo(r, p, q);
  }

  lemma BothAreThere(st: State, p: Path)
    requires HasBoth(st) && p in {"A", TEMP_A}
    ensures Paths.Canonical(p) && p in st.index && p in st.disk && st.index[p].rev == 1
  {
    TempName();
  }

  lemma BothAgree(st: State)
    requires HasBoth(st)
    ensures forall x :: AgreesAt(st, x)
  {
    TempName();
    forall x ensures AgreesAt(st, x) {
      TwoAgree(st, "A", TEMP_A, x);
    }
  }

  lemma TwoAgree(st: State, a: Path, t: Path, x: Path)
    requires Paths.Scannable(a) && Paths.Scannable(t) && a != t
    requires st.index == map[a := ROW_A, t := ROW_TEMP] && st.disk == map[a := [1], t := [9]]
    ensures AgreesAt(st, x)
  {
  }

  lemma OneAgrees(st: State, x: Path)
    requires HasA(st)
    ensures AgreesAt(st, x)
  {
    Names();
  }

  lemma BothActions()
    ensures Actions(ReadWrite, A_FIRST) == [Fetch("A"), Fetch(TEMP_A)]
    ensures Actions(ReadWrite, A_LAST) == [Fetch(TEMP_A), Fetch("A")]
  {
  }

  // The same two downloads in both orders: if the temp file's namesake comes first it is lost here, and since
  // the baseline knows it the next round deletes it on the server.
  lemma DownloadOrderShows() returns (st: State, one: Round, two: Round)
    ensures st == Run(CFG, EMPTY, [DoPut(Theirs("A", 0, [1])), DoPut(Theirs(TEMP_A, 0, [9]))])
    ensures SyncOnce(LAPTOP, AT, Fetching(st), A_FIRST, one) && SyncOnce(LAPTOP, AT, Fetching(st), A_LAST, two)
    ensures TEMP_A in one.files && TEMP_A !in two.files
    ensures VerdictAt(two.files, two.base, two.st.index, TEMP_A) == DeleteToRemote
  {
    st := Run(CFG, EMPTY, [DoPut(Theirs("A", 0, [1])), DoPut(Theirs(TEMP_A, 0, [9]))]);
    PutBoth();
    one, two := BothOrders(st);
    NamesakeIsDeleted(st.index, two);
  }

  lemma BothOrders(st: State) returns (one: Round, two: Round)
    requires HasBoth(st)
    ensures SyncOnce(LAPTOP, AT, Fetching(st), A_FIRST, one) && SyncOnce(LAPTOP, AT, Fetching(st), A_LAST, two)
    ensures TEMP_A in one.files && TEMP_A !in two.files
    ensures two.st == st && TEMP_A in two.base && two.base[TEMP_A] == Base(1, NoDigest)
  {
    BothActions();
    one := RoundOfBoth(st, A_FIRST, "A", TEMP_A);
    two := RoundOfBoth(st, A_LAST, TEMP_A, "A");
    TempIsAnother(TEMP_A, "A");
    TempName();
  }

  lemma NamesakeIsDeleted(index: map<Path, Row>, r: Round)
    requires TEMP_A in index && index[TEMP_A] == ROW_TEMP && TEMP_A !in r.files
    requires TEMP_A in r.base && r.base[TEMP_A] == Base(1, NoDigest)
    ensures VerdictAt(r.files, r.base, index, TEMP_A) == DeleteToRemote
  {
  }
}
