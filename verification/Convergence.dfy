/**
 One client alone: from any sound baseline two undisturbed rounds bring the directory and the server
 together, and the third round has nothing to do.
 */
module Convergence {
  import opened Options
  import opened Listing
  import opened FileIndex
  import opened SyncServer
  import opened ServerRuns
  import opened Reconciling
  import opened ThreeWay
  import opened PlanMeaning
  import opened ClientRound
  import opened Safety
  import opened CalmRound
  import Paths
  import Sequences
  import Usage

  // ---------- The actions of a plan ----------

  function KindOf(a: Action): Verdict {
    match a
    case Send(_) => Upload
    case Fetch(_) => Download
    case Drop(_) => DeleteToRemote
    case Remove(_) => DeleteToLocal
    case Save(_) => SaveBoth
  }

  predicate PathsDiffer(actions: seq<Action>) {
    forall i, j | 0 <= i < j < |actions| :: PathOf(actions[i]) != PathOf(actions[j])
  }

  lemma JoinActions(a: seq<Action>, b: seq<Action>)
    requires PathsDiffer(a) && PathsDiffer(b)
    requires Apart(a, b)
    ensures PathsDiffer(a + b)
  {
    var all := a + b;
    forall i, j | 0 <= i < j < |all| ensures PathOf(all[i]) != PathOf(all[j]) {
      if i < |a| <= j {
        assert all[i] in a && all[j] in b;
      }
    }
  }

  // Lists of actions of different kinds, for the paths of their verdict, have no path in common.
  lemma JoinFive(a: seq<Action>, b: seq<Action>, c: seq<Action>, d: seq<Action>, e: seq<Action>)
    requires PathsDiffer(a) && PathsDiffer(b) && PathsDiffer(c) && PathsDiffer(d) && PathsDiffer(e)
    requires Apart(a, b) && Apart(a + b, c) && Apart(a + b + c, d) && Apart(a + b + c + d, e)
    ensures PathsDiffer(a + b + c + d + e)
  {
    JoinActions(a, b);
    JoinActions(a + b, c);
    JoinActions(a + b + c, d);
    JoinActions(a + b + c + d, e);
  }

  predicate Apart(a: seq<Action>, b: seq<Action>) {
    forall x, y | x in a && y in b :: PathOf(x) != PathOf(y)
  }

  // The actions of one list: those paths whose verdict it stands for, each once.
  ghost predicate Carries(files: map<Path, Content>, base: map<Path, Base>, rows: map<Path, Row>,
                          part: seq<Action>, v: Verdict) {
    && PathsDiffer(part)
    && (forall a | a in part :: KindOf(a) == v && VerdictAt(files, base, rows, PathOf(a)) == v)
    && (forall p | VerdictAt(files, base, rows, p) == v :: exists a :: a in part && PathOf(a) == p)
  }

  lemma ListCarries<T>(files: map<Path, Content>, base: map<Path, Base>, rows: map<Path, Row>,
                       xs: seq<Item<T>>, part: seq<Action>, v: Verdict)
    requires Names(files, base, rows, xs, v) && |part| == |xs|
    requires forall i | 0 <= i < |xs| :: KindOf(part[i]) == v && PathOf(part[i]) == xs[i].path
    ensures Carries(files, base, rows, part, v)
  {
    forall a | a in part ensures VerdictAt(files, base, rows, PathOf(a)) == v {
      var i :| 0 <= i < |part| && part[i] == a;
      assert xs[i].path in PathsOf(xs);
    }
    forall p | VerdictAt(files, base, rows, p) == v ensures exists a :: a in part && PathOf(a) == p {
      assert p in PathsOf(xs);
      var i :| 0 <= i < |xs| && xs[i].path == p;
      assert part[i] in part;
    }
    forall i, j | 0 <= i < j < |part| ensures PathOf(part[i]) != PathOf(part[j]) {
      assert xs[i].path != xs[j].path;
    }
  }

  // The plan's actions are one per path with something to do, of the kind the table says.
  ghost predicate ActionsFit(files: map<Path, Content>, base: map<Path, Base>, rows: map<Path, Row>, actions: seq<Action>) {
    && PathsDiffer(actions)
    && (forall a | a in actions :: VerdictAt(files, base, rows, PathOf(a)) == KindOf(a))
    && (forall p | VerdictAt(files, base, rows, p) != Leave :: exists a :: a in actions && PathOf(a) == p)
  }

  lemma PlanActions(files: map<Path, Content>, base: map<Path, Base>, rows: map<Path, Row>, plan: Plan)
    requires PlanFits(files, base, rows, plan)
    ensures ActionsFit(files, base, rows, Actions(ReadWrite, plan))
  {
    var a, b, c := Sends(plan.upload), Fetches(plan.download), Drops(plan.deleteToRemote);
    var d, e := Removes(plan.deleteToLocal), Saves(plan.conflicts);
    ListCarries(files, base, rows, plan.upload, a, Upload);
    ListCarries(files, base, rows, plan.download, b, Download);
    ListCarries(files, base, rows, plan.deleteToRemote, c, DeleteToRemote);
    ListCarries(files, base, rows, plan.deleteToLocal, d, DeleteToLocal);
    ListCarries(files, base, rows, plan.conflicts, e, SaveBoth);
    PartsFit(files, base, rows, a, b, c, d, e);
  }

  lemma PartsFit(files: map<Path, Content>, base: map<Path, Base>, rows: map<Path, Row>, a: seq<Action>,
                 b: seq<Action>, c: seq<Action>, d: seq<Action>, e: seq<Action>)
    requires Carries(files, base, rows, a, Upload) && Carries(files, base, rows, b, Download)
    requires Carries(files, base, rows, c, DeleteToRemote) && Carries(files, base, rows, d, DeleteToLocal)
    requires Carries(files, base, rows, e, SaveBoth)
    ensures ActionsFit(files, base, rows, a + b + c + d + e)
  {
    JoinFive(a, b, c, d, e);
    forall p | VerdictAt(files, base, rows, p) != Leave ensures exists x :: x in a + b + c + d + e && PathOf(x) == p {
      var v := VerdictAt(files, base, rows, p);
      var part := match v case Upload => a case Download => b case DeleteToRemote => c case DeleteToLocal => d case _ => e;
      assert Carries(files, base, rows, part, v);
      var x :| x in part && PathOf(x) == p;
      assert x in a + b + c + d + e;
    }
  }

  // ---------- The start of a calm round ----------

  const STAMP_LENGTH := 16   // 20060102T150405Z

  // The state in which a calm round executes its plan: the manifest has just been read.
  ghost predicate Listed(l: Round) {
    && Calm(l) && Good(l) && Agrees(l.st)
    && forall p | p in Scan(l.files) || p in l.base || p in l.st.index || p in Scan(l.st.disk) ::
      Paths.Canonical(p)
  }

  function Start(l: Round): Round {
    l.(base := Kept(l.files, l.base))
  }

  function LVerdict(l: Round, p: Path): Verdict {
    VerdictAt(l.files, l.base, l.st.index, p)
  }

  predicate Blank(s: Slice) {
    s == Slice(None, None, None, None)
  }

  predicate IsStamp(stamp: string) {
    |stamp| == STAMP_LENGTH && stamp[STAMP_LENGTH - 1] == 'Z'
  }

  // Conflict copies get timestamped names, unused on both sides, that a scan covers.
  ghost predicate CleanNames(at: Path -> string, l: Round) {
    forall p | LVerdict(l, p) == SaveBoth ::
      && IsStamp(at(p))
      && var name := ConflictName(p, at(p));
      Paths.Canonical(name) && Paths.Scannable(name) && Blank(SliceAt(l, name))
  }

  lemma NamesAreInjective(p: Path, q: Path, s: string, t: string)
    requires |s| == |t| && ConflictName(p, s) == ConflictName(q, t)
    ensures p == q
  {
    var name := ConflictName(p, s);
    assert |p| == |q|;
    assert p == name[..|p|] && q == name[..|q|];
  }

  // A name with a timestamp at its end is no temp file's.
  lemma CopyIsNoTemp(p: Path, stamp: string, target: Path)
    requires IsStamp(stamp)
    ensures ConflictName(p, stamp) != TempOf(target)
  {
    var name, temp := ConflictName(p, stamp), TempOf(target);
    assert name[|name| - 1] == 'Z' && temp[|temp| - 1] == 'p';
  }

  // The row a baseline entry was confirmed at is still the current one exactly if its revision is.
  lemma BaseMeaning(l: Round, p: Path)
    requires Listed(l) && p in l.base
    ensures p in l.st.index && 1 <= l.base[p].rev <= l.st.index[p].rev
    ensures l.base[p].rev == l.st.index[p].rev && l.base[p].sha != NoDigest ==> l.st.index[p].sha == l.base[p].sha
  {
    assert SoundAt(l.st, p, l.base[p]);
    ConsistentAt(l.st, p);
    assert RowIsLast(l.st, p);
  }

  lemma RowMeaning(l: Round, p: Path)
    requires Listed(l)
    ensures AgreesAt(l.st, p)
    ensures p in l.st.index ==> l.st.index[p].rev >= 1 && WellFormed(l.st.index[p])
  {
    AgreesEverywhere(l.st);
    ConsistentAt(l.st, p);
    assert RowIsLast(l.st, p);
  }

  function LCorner(l: Round, p: Path): Corner {
    CornerAt(l.files, l.base, l.st.index, p)
  }

  // An edited local file facing a tombstone.
  predicate Buried(c: Corner) {
    c.file.Some? && c.row.Some? && c.row.value.deleted && !Unedited(c)
  }

  // What the state says about one path.
  predicate PointOk(p: Path, c: Corner, disk: Option<Content>) {
    && (c.row.Some? ==> c.row.value.rev >= 1 && WellFormed(c.row.value))
    && (c.base.Some? ==> c.row.Some? && c.base.value.rev <= c.row.value.rev)
    && (c.base.Some? && c.base.value.sha != NoDigest && c.base.value.rev == c.row.value.rev ==>
          c.row.value.sha == c.base.value.sha)
    && (Paths.Scannable(p) && disk.Some? <==> c.row.Some? && !c.row.value.deleted)
    && (c.row.Some? && !c.row.value.deleted ==> c.row.value.sha == Sha(disk.value))
    && (c.file.Some? ==> Paths.Scannable(p))
  }

  lemma PointFacts(l: Round, p: Path)
    requires Listed(l)
    ensures PointOk(p, LCorner(l, p), At(l.st.disk, p))
    ensures LVerdict(l, p) != Leave ==> Paths.Canonical(p)
  {
    RowMeaning(l, p);
    if p in l.base {
      BaseMeaning(l, p);
    }
  }

  // What a verdict says about a path in such a state.
  lemma VerdictFacts(p: Path, c: Corner, disk: Option<Content>)
    requires PointOk(p, c, disk)
    ensures var v, live := Table(c), c.row.Some? && !c.row.value.deleted;
            var rev := if c.row.Some? then c.row.value.rev else 0;
            && (v == Upload ==> c.file.Some? && (if c.base.Some? then c.base.value.rev else 0) == rev && (c.row.Some? ==> live))
            && (v == DeleteToRemote ==> live && c.base.value.rev == rev && c.file.None?)
            && (v == Download ==> live)
            && (v == SaveBoth ==> live || Buried(c))
            && (v == DeleteToLocal ==> c.file.Some? && c.row.Some? && !live)
            && (live ==> Paths.Scannable(p) && disk.Some?)
  {
  }

  // Every action is ready when its turn comes.
  lemma ActionIsReady(l: Round, plan: Plan, a: Action)
    requires Listed(l) && PlanFits(l.files, l.base, l.st.index, plan)
    requires a in Actions(ReadWrite, plan) && LVerdict(l, PathOf(a)) == KindOf(a)
    ensures Paths.Canonical(PathOf(a)) && Ready(a, SliceAt(Start(l), PathOf(a)))
  {
    PointFacts(l, PathOf(a));
    VerdictFacts(PathOf(a), LCorner(l, PathOf(a)), At(l.st.disk, PathOf(a)));
    match a
    case Send(u) => SendComesFrom(plan, u);
    case Drop(d) => DropComesFrom(plan, d);
    case _ =>
  }

  lemma SendComesFrom(plan: Plan, u: Item<Local>)
    requires Send(u) in Actions(ReadWrite, plan)
    ensures u in plan.upload
  {
    assert Send(u) in Sends(plan.upload);
  }

  lemma DropComesFrom(plan: Plan, d: Item<Local>)
    requires Drop(d) in Actions(ReadWrite, plan)
    ensures d in plan.deleteToRemote
  {
    assert Drop(d) in Drops(plan.deleteToRemote);
  }

  lemma RoundIsIndependent(at: Path -> string, l: Round, plan: Plan)
    requires Listed(l) && CleanNames(at, l) && PlanFits(l.files, l.base, l.st.index, plan)
    ensures var actions := Actions(ReadWrite, plan);
            && ActionsFit(l.files, l.base, l.st.index, actions)
            && Independent(at, actions) && AllReady(Start(l), actions) && SendsUncut(at, Start(l), actions)
  {
    var actions := Actions(ReadWrite, plan);
    PlanActions(l.files, l.base, l.st.index, plan);
    UploadsComeFirst(at, Start(l), plan);
    forall a | a in actions ensures Paths.Canonical(PathOf(a)) && Ready(a, SliceAt(Start(l), PathOf(a))) {
      ActionIsReady(l, plan, a);
    }
    CopiesAreNobodys(at, l, actions);
  }

  lemma CopyIsNotActedOn(at: Path -> string, l: Round, p: Path)
    requires CleanNames(at, l) && LVerdict(l, p) == SaveBoth
    ensures LVerdict(l, ConflictName(p, at(p))) == Leave
  {
    assert Blank(SliceAt(l, ConflictName(p, at(p))));
    BlankIsLeft(l, ConflictName(p, at(p)));
  }

  lemma CopiesDiffer(at: Path -> string, l: Round, p: Path, q: Path)
    requires CleanNames(at, l) && LVerdict(l, p) == SaveBoth && LVerdict(l, q) == SaveBoth && p != q
    ensures ConflictName(p, at(p)) != ConflictName(q, at(q))
  {
    if ConflictName(p, at(p)) == ConflictName(q, at(q)) {
      NamesAreInjective(p, q, at(p), at(q));
    }
  }

  lemma CopyIsNobodys(at: Path -> string, l: Round, actions: seq<Action>, a: Action, b: Action)
    requires CleanNames(at, l) && ActionsFit(l.files, l.base, l.st.index, actions)
    requires a in actions && b in actions && a.Save?
    ensures NameOf(at, a) != PathOf(b)
    ensures b.Save? && a != b ==> NameOf(at, a) != NameOf(at, b)
    ensures Target(at, b).Some? && !b.Send? ==> NameOf(at, a) != TempOf(Target(at, b).value)
  {
    assert LVerdict(l, a.path) == SaveBoth && LVerdict(l, PathOf(b)) == KindOf(b);
    CopyIsNotActedOn(at, l, a.path);
    if b.Save? && a != b {
      CopiesDiffer(at, l, a.path, b.path);
    }
    if Target(at, b).Some? {
      CopyIsNoTemp(a.path, at(a.path), Target(at, b).value);
    }
  }

  // The names of conflict copies are nobody's path, temp file or other copy.
  lemma CopiesAreNobodys(at: Path -> string, l: Round, actions: seq<Action>)
    requires CleanNames(at, l) && ActionsFit(l.files, l.base, l.st.index, actions)
    ensures Independent(at, actions)
  {
    forall a, b | a in actions && b in actions && a.Save?
      ensures NameOf(at, a) != PathOf(b) && (b.Save? && a != b ==> NameOf(at, a) != NameOf(at, b))
      ensures Target(at, b).Some? && !b.Send? ==> NameOf(at, a) != TempOf(Target(at, b).value)
    {
      CopyIsNobodys(at, l, actions, a, b);
    }
  }

  // Uploads come first, before any file is fetched.
  lemma UploadsComeFirst(at: Path -> string, r: Round, plan: Plan)
    ensures SendsUncut(at, r, Actions(ReadWrite, plan))
  {
    var sends, actions := Sends(plan.upload), Actions(ReadWrite, plan);
    assert sends <= actions && forall i | |sends| <= i < |actions| :: !actions[i].Send?;
    assert forall i | 0 <= i < |sends| :: actions[i].Send?;
  }

  lemma BlankIsLeft(l: Round, p: Path)
    requires Blank(SliceAt(l, p))
    ensures LVerdict(l, p) == Leave
  {
  }

  // ---------- What a calm round leaves at each path ----------

  // The slice Execute starts from.
  function StartSlice(p: Path, c: Corner, files: Option<Content>, disk: Option<Content>): Slice {
    Slice(files, if Paths.Scannable(p) && Unedited(c) then c.base else None, c.row, disk)
  }

  function Done(v: Verdict, s: Slice): Slice {
    match v
    case Leave => s
    case Upload =>
      if s.file.None? then s
      else
        var c, rev := s.file.value, SliceRev(s) + 1;
        s.(base := Some(Base(rev, Sha(c))), row := Some(Row(|c|, Sha(c), rev, false)), disk := s.file)
    case Download => if Found(s) then s.(file := s.disk, base := Some(Base(SliceRev(s), NoDigest))) else s
    case DeleteToRemote => s.(base := None, row := Some(Row(0, NoDigest, SliceRev(s) + 1, true)), disk := None)
    case DeleteToLocal => s.(file := None, base := None)
    case SaveBoth => if Found(s) then s.(base := Some(Base(SliceRev(s), NoDigest))) else s
  }

  ghost predicate CalmExecute(dev: Device, at: Path -> string, l: Round, plan: Plan, e: Round) {
    && dev.mode == ReadWrite && Listed(l) && CleanNames(at, l)
    && PlanFits(l.files, l.base, l.st.index, plan)
    && e == Execute(dev, at, l, plan) && l.notes == map[] && e.notes == map[]
  }

  lemma ExecuteMoves(dev: Device, at: Path -> string, l: Round, plan: Plan, e: Round)
    requires CalmExecute(dev, at, l, plan, e)
    ensures ActionsFit(l.files, l.base, l.st.index, Actions(ReadWrite, plan))
    ensures AllReady(Start(l), Actions(ReadWrite, plan)) && AllMoved(at, Start(l), Actions(ReadWrite, plan), e)
    ensures Independent(at, Actions(ReadWrite, plan)) && Calm(e)
  {
    RoundIsIndependent(at, l, plan);
    PerformMoves(dev, at, Start(l), Actions(ReadWrite, plan));
  }

  // Is p the name under which this round saves somebody's remote version?
  ghost predicate IsCopyOf(at: Path -> string, l: Round, p: Path, q: Path) {
    LVerdict(l, q) == SaveBoth && Found(SliceAt(l, q)) && p == ConflictName(q, at(q))
  }

  // Does this round write the file t, so that its temp file takes a name for a while?
  ghost predicate Writes(at: Path -> string, l: Round, t: Path) {
    || (LVerdict(l, t) == Download && Found(SliceAt(l, t)))
    || (exists q :: IsCopyOf(at, l, t, q))
  }

  // Is p the name of such a temp file?
  ghost predicate CutAt(at: Path -> string, l: Round, p: Path) {
    exists t :: Writes(at, l, t) && p == TempOf(t)
  }

  lemma CutMeaning(at: Path -> string, l: Round, actions: seq<Action>, p: Path)
    requires ActionsFit(l.files, l.base, l.st.index, actions)
    ensures CutIn(at, Start(l), actions, p) <==> CutAt(at, l, p)
  {
    if CutIn(at, Start(l), actions, p) {
      var a :| a in actions && Cuts(at, Start(l), a, p);
      CuttingWrites(at, l, a, p);
    }
    if t :| Writes(at, l, t) && p == TempOf(t) {
      var a := WritingCuts(at, l, actions, t);
    }
  }

  lemma CuttingWrites(at: Path -> string, l: Round, a: Action, p: Path)
    requires LVerdict(l, PathOf(a)) == KindOf(a) && Cuts(at, Start(l), a, p)
    ensures CutAt(at, l, p)
  {
    var t := Target(at, a).value;
    assert a.Save? ==> IsCopyOf(at, l, t, a.path);
    assert Writes(at, l, t);
  }

  lemma WritingCuts(at: Path -> string, l: Round, actions: seq<Action>, t: Path) returns (a: Action)
    requires ActionsFit(l.files, l.base, l.st.index, actions) && Writes(at, l, t)
    ensures a in actions && Cuts(at, Start(l), a, TempOf(t))
  {
    if LVerdict(l, t) == Download && Found(SliceAt(l, t)) {
      a :| a in actions && PathOf(a) == t;
      assert KindOf(a) == Download;
    } else {
      var q :| IsCopyOf(at, l, t, q);
      a :| a in actions && PathOf(a) == q;
      assert KindOf(a) == SaveBoth;
    }
  }

  // Where a path may end up: as the verdict says, without its file if that was cut; a file that was fetched as
  // well may be there or not.
  ghost predicate Ends(at: Path -> string, l: Round, e: Round, p: Path) {
    Became(SliceAt(e, p), Done(LVerdict(l, p), SliceAt(Start(l), p)), CutAt(at, l, p), LVerdict(l, p) == Download)
  }

  // Paths other than fresh copies: the verdict says what happens.
  lemma SliceAfter(dev: Device, at: Path -> string, l: Round, plan: Plan, e: Round, p: Path)
    requires CalmExecute(dev, at, l, plan, e)
    requires forall q :: !IsCopyOf(at, l, p, q)
    ensures Ends(at, l, e, p)
  {
    ExecuteMoves(dev, at, l, plan, e);
    var actions := Actions(ReadWrite, plan);
    CutMeaning(at, l, actions, p);
    if LVerdict(l, p) != Leave {
      ActedOn(at, l, actions, e, p);
    } else {
      LeftAlone(at, l, actions, e, p);
    }
  }

  lemma ActedOn(at: Path -> string, l: Round, actions: seq<Action>, e: Round, p: Path)
    requires ActionsFit(l.files, l.base, l.st.index, actions)
    requires AllReady(Start(l), actions) && AllMoved(at, Start(l), actions, e) && Independent(at, actions)
    requires LVerdict(l, p) != Leave && e.notes == map[]
    requires CutIn(at, Start(l), actions, p) <==> CutAt(at, l, p)
    ensures Ends(at, l, e, p)
  {
    var a :| a in actions && PathOf(a) == p;
    assert KindOf(a) == LVerdict(l, p);
  }

  lemma LeftAlone(at: Path -> string, l: Round, actions: seq<Action>, e: Round, p: Path)
    requires ActionsFit(l.files, l.base, l.st.index, actions)
    requires AllReady(Start(l), actions) && AllMoved(at, Start(l), actions, e) && Independent(at, actions)
    requires LVerdict(l, p) == Leave && forall q :: !IsCopyOf(at, l, p, q)
    requires CutIn(at, Start(l), actions, p) <==> CutAt(at, l, p)
    ensures Ends(at, l, e, p)
  {
    assert forall a | a in actions :: p != PathOf(a);
    if a :| a in actions && a.Save? && p == NameOf(at, a) {
      NothingToCopy(at, l, a, p);
      assert !CutIn(at, Start(l), actions, p);
    } else {
      assert NobodysPath(at, actions, p);
    }
  }

  lemma NothingToCopy(at: Path -> string, l: Round, a: Action, p: Path)
    requires a.Save? && LVerdict(l, a.path) == SaveBoth && p == NameOf(at, a) && !IsCopyOf(at, l, p, a.path)
    ensures Copied(SliceAt(Start(l), p), SliceAt(Start(l), a.path)) == SliceAt(Start(l), p)
  {
    assert !Found(SliceAt(Start(l), a.path));
  }

  lemma CopyAfter(dev: Device, at: Path -> string, l: Round, plan: Plan, e: Round, p: Path, q: Path)
    requires CalmExecute(dev, at, l, plan, e) && IsCopyOf(at, l, p, q)
    ensures SliceAt(e, p) == Slice(At(l.st.disk, q), None, None, None)
    ensures Paths.Canonical(p) && Paths.Scannable(p) && q in l.st.disk
  {
    ExecuteMoves(dev, at, l, plan, e);
    PointFacts(l, q);
    VerdictFacts(q, LCorner(l, q), At(l.st.disk, q));
    var a :| a in Actions(ReadWrite, plan) && PathOf(a) == q;
    assert KindOf(a) == SaveBoth && a == Save(q) && NameOf(at, a) == p;
    assert Blank(SliceAt(l, p)) && Blank(SliceAt(Start(l), p));
  }

  // ---------- Stages ----------

  predicate LiveWith(row: Option<Row>, sha: Digest) {
    row.Some? && !row.value.deleted && row.value.rev >= 1 && row.value.sha == sha
  }

  // Client and server agree, and nothing will be done about this path.
  predicate Settled(s: Slice) {
    if s.file.Some? then
      && LiveWith(s.row, Sha(s.file.value))
      && (s.base.None? || s.base.value == Base(s.row.value.rev, Sha(s.file.value)))
    else s.base.None? && (s.row.None? || s.row.value.deleted)
  }

  // One more round will settle it: the baseline names the current live row without its digest (after a
  // download or a saved conflict), or the file is a fresh conflict copy, or it is gone since its row.
  predicate Almost(s: Slice) {
    || Settled(s)
    || (s.row.Some? && !s.row.value.deleted && s.base == Some(Base(s.row.value.rev, NoDigest)))
    || (s.file.Some? && s.base.None? && s.row.None?)
    || (s.file.None? && s.row.Some? && !s.row.value.deleted && s.base.Some? && s.base.value.rev == s.row.value.rev)
  }

  // An edit that happens to be what the server has by now: nothing is done, and no baseline entry kept.
  predicate Coincides(c: Corner) {
    c.file.Some? && ServerMoved(c) && !Unedited(c) && !c.row.value.deleted && c.row.value.sha == c.file.value
  }

  // Gone, with nothing in the baseline to say that it was ever here.
  predicate Missing(p: Path, s: Slice) {
    Paths.Scannable(p) && s.file.None? && s.base.None? && s.row.Some? && !s.row.value.deleted
  }

  predicate DiskAgrees(p: Path, s: Slice) {
    && (Paths.Scannable(p) && s.disk.Some? <==> s.row.Some? && !s.row.value.deleted)
    && (s.row.Some? && !s.row.value.deleted ==> s.row.value.sha == Sha(s.disk.value))
  }

  predicate AtStage(p: Path, s: Slice, settled: bool) {
    if Paths.Scannable(p) then (if settled then Settled(s) else Almost(s))
    else s.base.None? && (s.row.None? || s.row.value.deleted)
  }

  function CornerOf(p: Path, s: Slice): Corner {
    Corner(if Paths.Scannable(p) && s.file.Some? then Some(Sha(s.file.value)) else None, s.base, s.row)
  }

  // What the first round makes of a path: within one round of agreement; or still a buried edit, unless that
  // was cut; or missing, if it was cut and just what the server has.
  predicate FirstEnd(p: Path, c: Corner, cut: bool, s: Slice) {
    if Buried(c) && !cut then Buried(CornerOf(p, s))
    else if Coincides(c) && cut then Missing(p, s)
    else AtStage(p, s, false) && !Buried(CornerOf(p, s)) && !Missing(p, s)
  }

  lemma FirstStage(p: Path, c: Corner, file: Option<Content>, disk: Option<Content>, cut: bool, s: Slice)
    requires PointOk(p, c, disk)
    requires c.file == if Paths.Scannable(p) && file.Some? then Some(Sha(file.value)) else None
    requires Became(s, Done(Table(c), StartSlice(p, c, file, disk)), cut, Table(c) == Download)
    ensures DiskAgrees(p, s) && FirstEnd(p, c, cut, s)
  {
    UncutStage(p, c, file, disk);
    CutStage(p, c, file, disk);
  }

  lemma UncutStage(p: Path, c: Corner, file: Option<Content>, disk: Option<Content>)
    requires PointOk(p, c, disk)
    requires c.file == if Paths.Scannable(p) && file.Some? then Some(Sha(file.value)) else None
    ensures var s := Done(Table(c), StartSlice(p, c, file, disk));
            DiskAgrees(p, s) && FirstEnd(p, c, false, s) && (Table(c) == Download ==> FirstEnd(p, c, true, s))
  {
  }

  lemma CutStage(p: Path, c: Corner, file: Option<Content>, disk: Option<Content>)
    requires PointOk(p, c, disk)
    requires c.file == if Paths.Scannable(p) && file.Some? then Some(Sha(file.value)) else None
    ensures var s := WithoutFile(Done(Table(c), StartSlice(p, c, file, disk)));
            DiskAgrees(p, s) && FirstEnd(p, c, true, s)
  {
  }

  // The second settles what the first left open.
  lemma SecondStage(p: Path, s: Slice)
    requires PointOk(p, CornerOf(p, s), s.disk) && AtStage(p, s, false)
    ensures var c := CornerOf(p, s);
            && Table(c) in {Leave, Upload, DeleteToRemote}
            && AtStage(p, Done(Table(c), StartSlice(p, c, s.file, s.disk)), true)
  {
  }

  // Settled paths are left alone; buried edits are not.
  lemma ThirdStage(p: Path, s: Slice)
    ensures AtStage(p, s, true) ==> Table(CornerOf(p, s)) == Leave && !Buried(CornerOf(p, s))
    ensures Buried(CornerOf(p, s)) && PointOk(p, CornerOf(p, s), s.disk) ==> Table(CornerOf(p, s)) == SaveBoth
  {
  }

  // ---------- Rounds ----------

  // Where a calm round starts from; only names both sides spell alike are in play.
  ghost predicate CalmStart(r: Round) {
    && Calm(r) && r.notes == map[] && Good(r)
    && forall p | p in Scan(r.files) || p in r.base || p in r.st.index || p in Scan(r.st.disk) :: Paths.Canonical(p)
  }

  // The state after the manifest call of a calm round.
  function Swept(r: Round): Round {
    r.(st := Reconcile(r.st, CLEAN_SCAN))
  }

  lemma CalmManifest(dev: Device, r: Round)
    requires CalmStart(r)
    ensures CallManifest(dev, r) == (Swept(r), Some(Swept(r).st.index))
    ensures Listed(Swept(r)) && Swept(r).notes == map[]
  {
    ManifestOnward(dev, r);
    ReconcileSettles(r.st);
    forall p | p in Swept(r).st.index ensures Paths.Canonical(p) {
      ReconcileAt(r.st, CLEAN_SCAN, p);
    }
  }

  // Names for conflict copies in a round, and no upload refused.
  ghost predicate CalmSync(dev: Device, at: Path -> string, r: Round, plan: Plan, e: Round) {
    dev.mode == ReadWrite && SyncOnce(dev, at, r, plan, e) && CleanNames(at, Swept(r)) && e.notes == map[]
  }

  lemma StartSliceAt(l: Round, p: Path)
    ensures SliceAt(Start(l), p) == StartSlice(p, LCorner(l, p), At(l.files, p), At(l.st.disk, p))
    ensures LCorner(l, p) == CornerOf(p, SliceAt(l, p))
  {
  }

  lemma EnterRound(dev: Device, at: Path -> string, r: Round, plan: Plan, e: Round)
    requires CalmStart(r) && CalmSync(dev, at, r, plan, e)
    ensures CalmExecute(dev, at, Swept(r), plan, e)
  {
    CalmManifest(dev, r);
  }

  // Where the first round leaves a path.
  lemma FirstRoundAt(dev: Device, at: Path -> string, r: Round, plan: Plan, e: Round, p: Path)
    requires CalmStart(r) && CalmSync(dev, at, r, plan, e)
    ensures DiskAgrees(p, SliceAt(e, p)) && FirstEnd(p, LCorner(Swept(r), p), CutAt(at, Swept(r), p), SliceAt(e, p))
  {
    var l := Swept(r);
    EnterRound(dev, at, r, plan, e);
    PointFacts(l, p);
    if q :| IsCopyOf(at, l, p, q) {
      CopyAfter(dev, at, l, plan, e, p, q);
      CopyEnds(at, l, e, p, q);
    } else {
      SliceAfter(dev, at, l, plan, e, p);
      StartSliceAt(l, p);
      FirstStage(p, LCorner(l, p), At(l.files, p), At(l.st.disk, p), CutAt(at, l, p), SliceAt(e, p));
    }
  }

  lemma CopyEnds(at: Path -> string, l: Round, e: Round, p: Path, q: Path)
    requires CleanNames(at, l) && IsCopyOf(at, l, p, q) && q in l.st.disk && Paths.Scannable(p)
    requires SliceAt(e, p) == Slice(At(l.st.disk, q), None, None, None)
    ensures DiskAgrees(p, SliceAt(e, p)) && FirstEnd(p, LCorner(l, p), CutAt(at, l, p), SliceAt(e, p))
  {
    assert Blank(SliceAt(l, p));
  }

  // After a round everything is in place for the next: it starts where this one ended.
  lemma NextRoundStarts(dev: Device, at: Path -> string, r: Round, plan: Plan, e: Round)
    requires CalmStart(r) && CalmSync(dev, at, r, plan, e)
    ensures CalmStart(e) && Swept(e) == e
  {
    var l := Swept(r);
    EnterRound(dev, at, r, plan, e);
    ExecuteMoves(dev, at, l, plan, e);
    assert Onward(l, Start(l)) by {
      assert forall p :: History(l.st, p) <= History(l.st, p);
    }
    CalmHolds(dev, at, Start(l), Actions(ReadWrite, plan));
    PerformOnward(dev, at, Start(l), Actions(ReadWrite, plan));
    forall p
      ensures AgreesAt(e.st, p)
      ensures p in Scan(e.files) || p in e.base || p in e.st.index || p in Scan(e.st.disk) ==> Paths.Canonical(p)
    {
      FirstRoundAt(dev, at, r, plan, e, p);
      StaysCanonical(dev, at, l, plan, e, p);
    }
    AgreesEverywhere(e.st);
    AgreeingIsQuiet(e.st);
  }

  lemma StaysCanonical(dev: Device, at: Path -> string, l: Round, plan: Plan, e: Round, p: Path)
    requires CalmExecute(dev, at, l, plan, e)
    ensures p in Scan(e.files) || p in e.base || p in e.st.index || p in Scan(e.st.disk) ==> Paths.Canonical(p)
  {
    PointFacts(l, p);
    if q :| IsCopyOf(at, l, p, q) {
      CopyAfter(dev, at, l, plan, e, p, q);
    } else {
      SliceAfter(dev, at, l, plan, e, p);
    }
  }

  // Every path is where a first round leaves it.
  ghost predicate Prepared(r: Round) {
    forall q :: AtStage(q, SliceAt(r, q), false) || Buried(CornerOf(q, SliceAt(r, q))) || Missing(q, SliceAt(r, q))
  }

  // Where the second round leaves a path, if none is missing: then nothing is written, and nothing cut.
  lemma SecondRoundAt(dev: Device, at: Path -> string, r: Round, plan: Plan, e: Round, p: Path)
    requires CalmStart(r) && Swept(r) == r && CalmSync(dev, at, r, plan, e)
    requires Prepared(r) && forall q :: !Missing(q, SliceAt(r, q))
    ensures if Buried(CornerOf(p, SliceAt(r, p))) then Buried(CornerOf(p, SliceAt(e, p)))
            else AtStage(p, SliceAt(e, p), true)
  {
    EnterRound(dev, at, r, plan, e);
    PointFacts(r, p);
    StartSliceAt(r, p);
    NobodyCopies(at, r, p);
    NothingIsCut(at, r, p);
    SliceAfter(dev, at, r, plan, e, p);
    if Buried(CornerOf(p, SliceAt(r, p))) {
      UncutStage(p, LCorner(r, p), At(r.files, p), At(r.st.disk, p));
    } else {
      SecondStage(p, SliceAt(r, p));
    }
  }

  // A missing file is downloaded, and without a digest in the baseline the third round has to act on it.
  lemma MissingIsFetched(dev: Device, at: Path -> string, r: Round, plan: Plan, e: Round, p: Path)
    requires CalmStart(r) && Swept(r) == r && CalmSync(dev, at, r, plan, e) && Prepared(r) && Missing(p, SliceAt(r, p))
    ensures LVerdict(e, p) != Leave
  {
    EnterRound(dev, at, r, plan, e);
    PointFacts(r, p);
    StartSliceAt(r, p);
    StartSliceAt(e, p);
    NobodyCopies(at, r, p);
    SliceAfter(dev, at, r, plan, e, p);
    FetchedIsOpen(p, SliceAt(r, p), SliceAt(e, p), CutAt(at, r, p));
  }

  lemma FetchedIsOpen(p: Path, s: Slice, s': Slice, cut: bool)
    requires PointOk(p, CornerOf(p, s), s.disk) && Missing(p, s)
    requires Became(s', Done(Table(CornerOf(p, s)), StartSlice(p, CornerOf(p, s), s.file, s.disk)), cut, true)
    ensures Table(CornerOf(p, s)) == Download && Table(CornerOf(p, s')) != Leave
  {
  }

  lemma NobodyCopies(at: Path -> string, r: Round, p: Path)
    requires Listed(r) && Prepared(r)
    ensures forall q :: !IsCopyOf(at, r, p, q)
  {
    forall q ensures !IsCopyOf(at, r, p, q) {
      PointFacts(r, q);
      NoCopies(q, SliceAt(r, q));
    }
  }

  // In the second round only buried edits are still in conflict, and there is nothing to copy for them; only
  // missing files are downloaded.
  lemma NoCopies(q: Path, s: Slice)
    requires PointOk(q, CornerOf(q, s), s.disk)
    requires AtStage(q, s, false) || Buried(CornerOf(q, s)) || Missing(q, s)
    ensures Table(CornerOf(q, s)) == SaveBoth ==> !Found(s)
    ensures Table(CornerOf(q, s)) == Download ==> Missing(q, s)
  {
  }

  lemma NothingIsCut(at: Path -> string, r: Round, p: Path)
    requires Listed(r) && Prepared(r) && forall q :: !Missing(q, SliceAt(r, q))
    ensures !CutAt(at, r, p)
  {
    forall t ensures !Writes(at, r, t) {
      NobodyCopies(at, r, t);
      PointFacts(r, t);
      NoCopies(t, SliceAt(r, t));
    }
  }

  // ---------- Rounds that refuse nothing ----------

  // No file to upload is too large, and all of them fit next to what is there.
  ghost predicate Roomy(cfg: Config, l: Round) {
    && (forall p | p in Scan(l.files) :: |l.files[p]| <= cfg.maxBytes)
    && Used(l.st.index) + Used(ScanRows(l.files)) <= cfg.limit
  }

  // The bytes some actions upload.
  function Load(r: Round, actions: seq<Action>): nat {
    if actions == [] then 0
    else
      var a := actions[|actions| - 1];
      Load(r, actions[..|actions| - 1]) + if a.Send? && a.u.path in r.files then |r.files[a.u.path]| else 0
  }

  predicate SmallSends(cfg: Config, r: Round, actions: seq<Action>) {
    forall a | a in actions && a.Send? :: a.u.path in r.files && |r.files[a.u.path]| <= cfg.maxBytes
  }

  ghost predicate NothingRefused(r: Round, actions: seq<Action>, r': Round) {
    r'.notes == map[] && Used(r'.st.index) <= Used(r.st.index) + Load(r, actions)
  }

  lemma {:induction false} LoadIsPlaced(dev: Device, at: Path -> string, r: Round, actions: seq<Action>)
    requires Calm(r) && r.notes == map[] && Independent(at, actions) && AllReady(r, actions) && SendsUncut(at, r, actions)
    requires dev.mode == ReadWrite && SmallSends(dev.cfg, r, actions) && Used(r.st.index) + Load(r, actions) <= dev.cfg.limit
    ensures NothingRefused(r, actions, Perform(dev, at, r, actions))
    decreases |actions|
  {
    if actions != [] {
      var init, last := actions[..|actions| - 1], actions[|actions| - 1];
      Sequences.UnSnoc(actions);
      InitIsIndependent(at, r, init, last);
      assert last in actions && forall a | a in init :: a in actions;
      LoadIsPlaced(dev, at, r, init);
      OneMorePlaced(dev, at, r, actions, init, last);
    }
  }

  lemma OneMorePlaced(dev: Device, at: Path -> string, r: Round, actions: seq<Action>, init: seq<Action>, last: Action)
    requires actions == init + [last] && Calm(r) && r.notes == map[] && dev.mode == ReadWrite
    requires Independent(at, actions) && AllReady(r, actions) && SendsUncut(at, r, actions)
    requires Independent(at, init) && AllReady(r, init) && SendsUncut(at, r, init)
    requires SmallSends(dev.cfg, r, actions) && Used(r.st.index) + Load(r, actions) <= dev.cfg.limit
    requires NothingRefused(r, init, Perform(dev, at, r, init))
    ensures NothingRefused(r, actions, Perform(dev, at, r, actions))
  {
    assert actions[..|actions| - 1] == init && last in actions;
    PerformMoves(dev, at, r, init);
    var mid := Perform(dev, at, r, init);
    NotYetMoved(at, r, init, last, mid);
    OnePlaced(dev, at, mid, last, Used(r.st.index) + Load(r, init));
  }

  // One action in a calm round with room for it.
  lemma OnePlaced(dev: Device, at: Path -> string, r: Round, a: Action, used: nat)
    requires Calm(r) && r.notes == map[] && Paths.Canonical(PathOf(a)) && Ready(a, SliceAt(r, PathOf(a)))
    requires dev.mode == ReadWrite && Used(r.st.index) <= used
    requires a.Send? ==> var n := |r.files[a.u.path]|; n <= dev.cfg.maxBytes && used + n <= dev.cfg.limit
    ensures var r' := Act(dev, at, r, a);
            r'.notes == map[] && Used(r'.st.index) <= used + if a.Send? then |r.files[a.u.path]| else 0
  {
    match a
    case Send(u) => SendPlaced(dev, at, r, u, used);
    case Fetch(p) => CalmFetch(dev, r, p, p);
    case Drop(d) =>
      CalmDelete(dev, r, d);
      Usage.DeleteNeverRaisesUsage(r.st, DeleteCall(d.path, d.val.baseRev, dev.name, CALM.delete));
    case Remove(_) =>
    case Save(p) => CalmFetch(dev, r, p, ConflictName(p, at(p)));
  }

  lemma SendPlaced(dev: Device, at: Path -> string, r: Round, u: Item<Local>, used: nat)
    requires Calm(r) && r.notes == map[] && Paths.Canonical(u.path) && Ready(Send(u), SliceAt(r, u.path))
    requires dev.mode == ReadWrite && Used(r.st.index) <= used
    requires |r.files[u.path]| <= dev.cfg.maxBytes && used + |r.files[u.path]| <= dev.cfg.limit
    ensures var r' := Act(dev, at, r, Send(u));
            r'.notes == map[] && Used(r'.st.index) <= used + |r.files[u.path]|
  {
    var c := r.files[u.path];
    CalmPut(dev, r, u);
    MayPutIsAccepted(dev.cfg, r.st, CalmCall(dev, u, c));
    PutOutcome(dev, r, u);
    UsedUpdate(r.st.index, u.path, Row(|c|, Sha(c), SliceRev(SliceAt(r, u.path)) + 1, false));
  }

  // Distinct uploads of scanned files add up to no more than all scanned files.
  lemma {:induction false} LoadIsScanned(r: Round, actions: seq<Action>, rows: map<Path, Row>)
    requires PathsDiffer(actions)
    requires forall a | a in actions && a.Send? :: a.u.path in rows && (a.u.path in r.files ==> LiveSize(rows[a.u.path]) == |r.files[a.u.path]|)
    ensures Load(r, actions) <= Used(rows)
    decreases |actions|
  {
    if actions != [] {
      var init, last := actions[..|actions| - 1], actions[|actions| - 1];
      assert last in actions && forall a | a in init :: a in actions;
      if last.Send? {
        UsedSplit(rows, last.u.path);
        forall a | a in init && a.Send?
          ensures a.u.path in rows - {last.u.path} && rows[a.u.path] == (rows - {last.u.path})[a.u.path]
        {
          var i :| 0 <= i < |init| && init[i] == a;
          assert PathOf(actions[i]) != PathOf(actions[|actions| - 1]);
        }
        LoadIsScanned(r, init, rows - {last.u.path});
      } else {
        LoadIsScanned(r, init, rows);
      }
    }
  }

  lemma SendsFit(cfg: Config, l: Round, plan: Plan)
    requires Roomy(cfg, l) && PlanFits(l.files, l.base, l.st.index, plan)
    requires ActionsFit(l.files, l.base, l.st.index, Actions(ReadWrite, plan))
    ensures var actions := Actions(ReadWrite, plan);
            SmallSends(cfg, Start(l), actions) && Used(l.st.index) + Load(Start(l), actions) <= cfg.limit
  {
    var actions := Actions(ReadWrite, plan);
    forall a | a in actions && a.Send? ensures a.u.path in Scan(l.files) {
      assert LVerdict(l, PathOf(a)) == Upload;
      UploadsAreScanned(l, a.u.path);
    }
    LoadIsScanned(Start(l), actions, ScanRows(l.files));
  }

  lemma UploadsAreScanned(l: Round, p: Path)
    requires LVerdict(l, p) == Upload
    ensures p in Scan(l.files)
  {
  }

  // With room for all scanned files a calm round has no upload refused.
  lemma RoomyRoundsAreCalm(dev: Device, at: Path -> string, r: Round, plan: Plan, e: Round)
    requires CalmStart(r) && dev.mode == ReadWrite && SyncOnce(dev, at, r, plan, e)
    requires CleanNames(at, Swept(r)) && Roomy(dev.cfg, Swept(r))
    ensures CalmSync(dev, at, r, plan, e)
  {
    CalmManifest(dev, r);
    RoomyExecution(dev, at, Swept(r), plan);
  }

  lemma RoomyExecution(dev: Device, at: Path -> string, l: Round, plan: Plan)
    requires Listed(l) && l.notes == map[] && dev.mode == ReadWrite && PlanFits(l.files, l.base, l.st.index, plan)
    requires CleanNames(at, l) && Roomy(dev.cfg, l)
    ensures Execute(dev, at, l, plan).notes == map[]
  {
    RoundIsIndependent(at, l, plan);
    SendsFit(dev.cfg, l, plan);
    LoadIsPlaced(dev, at, Start(l), Actions(ReadWrite, plan));
  }

  // ---------- Main results ----------

  ghost predicate ThreeRounds(dev: Device, at1: Path -> string, at2: Path -> string, at3: Path -> string,
                              r: Round, plans: seq<Plan>, ends: seq<Round>) {
    && |plans| == |ends| == 3 && CalmStart(r)
    && CalmSync(dev, at1, r, plans[0], ends[0])
    && CalmSync(dev, at2, ends[0], plans[1], ends[1])
    && SyncOnce(dev, at3, ends[1], plans[2], ends[2])
  }

  const NO_PLAN := Plan([], [], [], [], [])

  predicate InStep(r: Round) {
    Digests(Scan(r.files)) == LiveDigests(r.st.index) && Agrees(r.st)
  }

  // The first round leaves every path where a second can take it up.
  lemma FirstRoundPrepares(dev: Device, at: Path -> string, r: Round, plan: Plan, e: Round)
    requires CalmStart(r) && CalmSync(dev, at, r, plan, e)
    ensures Prepared(e)
    ensures forall q :: FirstEnd(q, LCorner(Swept(r), q), CutAt(at, Swept(r), q), SliceAt(e, q))
  {
    forall q ensures FirstEnd(q, LCorner(Swept(r), q), CutAt(at, Swept(r), q), SliceAt(e, q)) {
      FirstRoundAt(dev, at, r, plan, e, q);
    }
  }

  // Nothing of the round is cut that just equals the server's file.
  ghost predicate CoincidingUncut(at: Path -> string, l: Round) {
    forall p :: !(Coincides(LCorner(l, p)) && CutAt(at, l, p))
  }

  // The edits that face a tombstone are destroyed by the round's own temp files.
  ghost predicate BuriedAreCut(at: Path -> string, l: Round) {
    forall p :: Buried(LCorner(l, p)) ==> CutAt(at, l, p)
  }

  // After two calm rounds every path is settled, except edits that faced a tombstone and are still there.
  lemma TwoRoundsAt(dev: Device, at1: Path -> string, at2: Path -> string, r: Round, plans: seq<Plan>,
                    ends: seq<Round>, p: Path)
    requires |plans| >= 2 && |ends| >= 2 && CalmStart(r) && CoincidingUncut(at1, Swept(r))
    requires CalmSync(dev, at1, r, plans[0], ends[0]) && CalmSync(dev, at2, ends[0], plans[1], ends[1])
    ensures if Buried(LCorner(Swept(r), p)) && !CutAt(at1, Swept(r), p) then Buried(CornerOf(p, SliceAt(ends[1], p)))
            else AtStage(p, SliceAt(ends[1], p), true)
  {
    NextRoundStarts(dev, at1, r, plans[0], ends[0]);
    FirstRoundPrepares(dev, at1, r, plans[0], ends[0]);
    forall q ensures !Missing(q, SliceAt(ends[0], q)) {
      assert FirstEnd(q, LCorner(Swept(r), q), CutAt(at1, Swept(r), q), SliceAt(ends[0], q));
      BuriedIsNotMissing(q, SliceAt(ends[0], q));
    }
    assert FirstEnd(p, LCorner(Swept(r), p), CutAt(at1, Swept(r), p), SliceAt(ends[0], p));
    SecondRoundAt(dev, at2, ends[0], plans[1], ends[1], p);
  }

  lemma BuriedIsNotMissing(p: Path, s: Slice)
    ensures !(Buried(CornerOf(p, s)) && Missing(p, s))
  {
  }

  // From any sound baseline, two calm rounds leave nothing for a third exactly if every edit that faces a
  // tombstone is destroyed by a temp file of the first, and no file that just equals the server's is. Client
  // and server are then in step; where no such file is destroyed, they are exactly if the edits are.
  lemma TwoRoundsConverge(dev: Device, at1: Path -> string, at2: Path -> string, at3: Path -> string,
                          r: Round, plans: seq<Plan>, ends: seq<Round>)
    requires ThreeRounds(dev, at1, at2, at3, r, plans, ends)
    ensures BuriedAreCut(at1, Swept(r)) && CoincidingUncut(at1, Swept(r)) <==> plans[2] == NO_PLAN
    ensures CoincidingUncut(at1, Swept(r)) ==> (BuriedAreCut(at1, Swept(r)) <==> InStep(ends[1]))
  {
    NextRoundStarts(dev, at1, r, plans[0], ends[0]);
    NextRoundStarts(dev, at2, ends[0], plans[1], ends[1]);
    CalmManifest(dev, ends[1]);
    if CoincidingUncut(at1, Swept(r)) {
      TwoRoundsSettle(dev, at1, at2, r, plans, ends);
    } else {
      var p :| Coincides(LCorner(Swept(r), p)) && CutAt(at1, Swept(r), p);
      FirstRoundPrepares(dev, at1, r, plans[0], ends[0]);
      assert FirstEnd(p, LCorner(Swept(r), p), CutAt(at1, Swept(r), p), SliceAt(ends[0], p));
      CoincidingIsNotBuried(LCorner(Swept(r), p));
      MissingIsFetched(dev, at2, ends[0], plans[1], ends[1], p);
      SomethingToDo(ends[1], plans[2], p);
    }
  }

  lemma CoincidingIsNotBuried(c: Corner)
    ensures !(Coincides(c) && Buried(c))
  {
  }

  lemma SomethingToDo(e: Round, plan: Plan, p: Path)
    requires PlanFits(e.files, e.base, e.st.index, plan) && LVerdict(e, p) != Leave
    ensures plan != NO_PLAN
  {
    VerdictIs(e.files, e.base, e.st.index, plan, p);
  }

  lemma TwoRoundsSettle(dev: Device, at1: Path -> string, at2: Path -> string, r: Round, plans: seq<Plan>,
                        ends: seq<Round>)
    requires |plans| == |ends| == 3 && CalmStart(r) && CoincidingUncut(at1, Swept(r))
    requires CalmSync(dev, at1, r, plans[0], ends[0]) && CalmSync(dev, at2, ends[0], plans[1], ends[1])
    requires CalmStart(ends[1]) && Swept(ends[1]) == ends[1] && Listed(ends[1])
    requires PlanFits(ends[1].files, ends[1].base, ends[1].st.index, plans[2])
    ensures BuriedAreCut(at1, Swept(r)) <==> plans[2] == NO_PLAN
    ensures BuriedAreCut(at1, Swept(r)) <==> InStep(ends[1])
  {
    var e := ends[1];
    AgreesEverywhere(e.st);
    forall p ensures SettledAt(at1, Swept(r), e, p) {
      TwoRoundsAt(dev, at1, at2, r, plans, ends, p);
      PointFacts(e, p);
      EndAt(e, p, Buried(LCorner(Swept(r), p)) && !CutAt(at1, Swept(r), p));
    }
    SettledEverywhere(at1, Swept(r), e, plans[2]);
  }

  // At the end of two rounds only a buried edit that was not cut is out of step.
  ghost predicate SettledAt(at: Path -> string, l: Round, e: Round, p: Path) {
    var left := Buried(LCorner(l, p)) && !CutAt(at, l, p);
    && LVerdict(e, p) == (if left then SaveBoth else Leave)
    && (left <==> At(Digests(Scan(e.files)), p) != At(LiveDigests(e.st.index), p))
  }

  lemma SettledEverywhere(at: Path -> string, l: Round, e: Round, plan: Plan)
    requires PlanFits(e.files, e.base, e.st.index, plan) && Agrees(e.st)
    requires forall p :: SettledAt(at, l, e, p)
    ensures BuriedAreCut(at, l) <==> plan == NO_PLAN
    ensures BuriedAreCut(at, l) <==> InStep(e)
  {
    if BuriedAreCut(at, l) {
      forall p
        ensures LVerdict(e, p) == Leave
        ensures At(Digests(Scan(e.files)), p) == At(LiveDigests(e.st.index), p)
      {
        assert SettledAt(at, l, e, p);
      }
      SameMap(Digests(Scan(e.files)), LiveDigests(e.st.index));
      NothingToDo(e, plan);
    } else {
      var p :| Buried(LCorner(l, p)) && !CutAt(at, l, p);
      assert SettledAt(at, l, e, p);
      SomethingToDo(e, plan, p);
    }
  }

  // What the final state of a path says about the third plan and about agreement.
  lemma EndAt(e: Round, p: Path, buried: bool)
    requires PointOk(p, LCorner(e, p), At(e.st.disk, p))
    requires if buried then Buried(CornerOf(p, SliceAt(e, p))) else AtStage(p, SliceAt(e, p), true)
    ensures LVerdict(e, p) == if buried then SaveBoth else Leave
    ensures buried <==> At(Digests(Scan(e.files)), p) != At(LiveDigests(e.st.index), p)
  {
    ThirdStage(p, SliceAt(e, p));
    StartSliceAt(e, p);
  }

  lemma NothingToDo(e: Round, plan: Plan)
    requires PlanFits(e.files, e.base, e.st.index, plan) && forall p :: LVerdict(e, p) == Leave
    ensures plan == NO_PLAN
  {
    NothingNamed(e, plan.upload, Upload);
    NothingNamed(e, plan.download, Download);
    NothingNamed(e, plan.conflicts, SaveBoth);
    NothingNamed(e, plan.deleteToRemote, DeleteToRemote);
    NothingNamed(e, plan.deleteToLocal, DeleteToLocal);
  }

  lemma NothingNamed<T>(e: Round, xs: seq<Item<T>>, v: Verdict)
    requires Names(e.files, e.base, e.st.index, xs, v) && v != Leave && forall p :: LVerdict(e, p) == Leave
    ensures xs == []
  {
    forall p ensures p !in PathsOf(xs) {
      assert LVerdict(e, p) == Leave;
    }
    assert xs != [] ==> xs[0].path in PathsOf(xs);
  }

  // What becomes of a conflict: after two rounds the remote bytes are the content of the copy on both sides. A
  // local file in conflict keeps its bytes here exactly if it is not called like a temp file of the two
  // rounds, and on the server exactly if it is not called like one of the first; a path without a scanned
  // local file, deleted here and changed there, is deleted on the server: only the copy remains.
  lemma ConflictsKeepBoth(dev: Device, at1: Path -> string, at2: Path -> string, r: Round, plans: seq<Plan>,
                          ends: seq<Round>, q: Path)
    requires |plans| >= 2 && |ends| >= 2 && CalmStart(r)
    requires CalmSync(dev, at1, r, plans[0], ends[0]) && CalmSync(dev, at2, ends[0], plans[1], ends[1])
    requires LVerdict(Swept(r), q) == SaveBoth && !Buried(LCorner(Swept(r), q))
    ensures var l, e, name := Swept(r), ends[1], ConflictName(q, at1(q));
            && q in l.st.disk
            && At(e.files, name) == Some(l.st.disk[q]) && LiveWith(At(e.st.index, name), Sha(l.st.disk[q]))
            && At(e.files, q) == (if CutAt(at1, l, q) || CutAt(at2, ends[0], q) then None else At(r.files, q))
            && (q in Scan(r.files) && !CutAt(at1, l, q) ==> LiveWith(At(e.st.index, q), Sha(r.files[q])))
            && (q in LiveDigests(e.st.index) <==> q in Scan(r.files) && !CutAt(at1, l, q))
  {
    FirstRoundSaves(dev, at1, r, plans[0], ends[0], q);
    FirstRoundPrepares(dev, at1, r, plans[0], ends[0]);
    NextRoundStarts(dev, at1, r, plans[0], ends[0]);
    CopyIsUncut(at1, Swept(r), q, at2, ends[0]);
    SecondRoundFile(dev, at2, ends[0], plans[1], ends[1], ConflictName(q, at1(q)));
    SecondRoundFile(dev, at2, ends[0], plans[1], ends[1], q);
  }

  lemma CopyIsUncut(at: Path -> string, l: Round, q: Path, next: Path -> string, e: Round)
    requires CleanNames(at, l) && LVerdict(l, q) == SaveBoth
    ensures !CutAt(next, e, ConflictName(q, at(q)))
  {
    forall t ensures ConflictName(q, at(q)) != TempOf(t) {
      CopyIsNoTemp(q, at(q), t);
    }
  }

  // The first round saves the remote bytes of a conflict; the local file loses its bytes only to a temp file.
  lemma FirstRoundSaves(dev: Device, at: Path -> string, r: Round, plan: Plan, e: Round, q: Path)
    requires CalmStart(r) && CalmSync(dev, at, r, plan, e)
    requires LVerdict(Swept(r), q) == SaveBoth && !Buried(LCorner(Swept(r), q))
    ensures var l, name := Swept(r), ConflictName(q, at(q));
            && q in l.st.disk && At(e.files, name) == Some(l.st.disk[q])
            && At(e.files, q) == (if CutAt(at, l, q) then None else At(r.files, q))
            && Paths.Scannable(q) && Paths.Scannable(name)
            && AtStage(q, SliceAt(e, q), false) && AtStage(name, SliceAt(e, name), false)
  {
    var l, name := Swept(r), ConflictName(q, at(q));
    EnterRound(dev, at, r, plan, e);
    PointFacts(l, q);
    VerdictFacts(q, LCorner(l, q), At(l.st.disk, q));
    CopyAfter(dev, at, l, plan, e, name, q);
    CopiesAreNew(at, l, q);
    SliceAfter(dev, at, l, plan, e, q);
    FirstRoundAt(dev, at, r, plan, e, q);
    InConflictIsNoCoincidence(LCorner(l, q));
  }

  lemma InConflictIsNoCoincidence(c: Corner)
    ensures Table(c) == SaveBoth ==> !Coincides(c)
  {
  }

  lemma CopiesAreNew(at: Path -> string, l: Round, q: Path)
    requires CleanNames(at, l) && LVerdict(l, q) == SaveBoth
    ensures forall x :: !IsCopyOf(at, l, q, x)
  {
    forall x ensures !IsCopyOf(at, l, q, x) {
      if IsCopyOf(at, l, q, x) {
        BlankIsLeft(l, q);
      }
    }
  }

  // The second round changes no file except by cutting it, and the server then has a scanned path exactly if
  // the client had it.
  lemma SecondRoundFile(dev: Device, at: Path -> string, r: Round, plan: Plan, e: Round, p: Path)
    requires CalmStart(r) && Swept(r) == r && CalmSync(dev, at, r, plan, e) && Prepared(r)
    requires Paths.Scannable(p) && AtStage(p, SliceAt(r, p), false)
    ensures var file, row := At(r.files, p), At(e.st.index, p);
            && At(e.files, p) == (if CutAt(at, r, p) then None else file)
            && (file.Some? ==> LiveWith(row, Sha(file.value))) && (file.None? ==> row.None? || row.value.deleted)
  {
    EnterRound(dev, at, r, plan, e);
    PointFacts(r, p);
    StartSliceAt(r, p);
    NobodyCopies(at, r, p);
    SliceAfter(dev, at, r, plan, e, p);
    SecondStage(p, SliceAt(r, p));
    FileIsKept(p, SliceAt(r, p));
  }

  lemma FileIsKept(p: Path, s: Slice)
    requires PointOk(p, CornerOf(p, s), s.disk) && Paths.Scannable(p) && AtStage(p, s, false)
    ensures var x := Done(Table(CornerOf(p, s)), StartSlice(p, CornerOf(p, s), s.file, s.disk));
            x.file == s.file && Settled(x)
  {
    SecondStage(p, s);
  }
}
