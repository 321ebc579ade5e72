/**
 A round that nothing disturbs, seen path by path: what each action does to the one path it is about,
 and when the order of the actions matters.
 */
module CalmRound {
  import opened Options
  import opened Listing
  import opened FileIndex
  import opened SyncServer
  import opened ServerRuns
  import opened ThreeWay
  import opened PlanMeaning
  import opened ClientRound
  import opened Wire
  import opened Sequences
  import Paths

  // Everything about one path: the client's file and baseline entry, the server's row and file.
  datatype Slice = Slice(file: Option<Content>, base: Option<Base>, row: Option<Row>, disk: Option<Content>)

  function SliceAt(r: Round, p: Path): Slice {
    Slice(At(r.files, p), At(r.base, p), At(r.st.index, p), At(r.st.disk, p))
  }

  // Nobody else acts, nothing fails, and the next temp file's name is free.
  predicate Calm(r: Round) {
    r.script == [] && CALM.tmp !in r.st.temps && r.inbox == []
  }

  function SliceRev(s: Slice): nat {
    if s.row.Some? then s.row.value.rev else 0
  }

  // The situation an action is planned for.
  predicate Ready(a: Action, s: Slice) {
    match a
    case Send(u) => s.file.Some? && u.val.curSha == Sha(s.file.value) && u.val.baseRev == SliceRev(s)
    case Fetch(_) => true
    case Drop(d) => s.row.Some? && d.val.baseRev == SliceRev(s)
    case Remove(_) => true
    case Save(_) => true
  }

  // Can the server send this file?
  predicate Found(s: Slice) {
    s.row.Some? && s.disk.Some?
  }

  // What it makes of its path.
  function After(a: Action, s: Slice): Slice
    requires Ready(a, s)
  {
    match a
    case Send(u) =>
      var c, rev := s.file.value, SliceRev(s) + 1;
      s.(base := Some(Base(rev, Sha(c))), row := Some(Row(|c|, Sha(c), rev, false)), disk := s.file)
    case Fetch(_) => if Found(s) then s.(file := s.disk, base := Some(Base(SliceRev(s), NoDigest))) else s
    case Drop(_) => s.(base := None, row := Some(Row(0, NoDigest, SliceRev(s) + 1, true)), disk := None)
    case Remove(_) => s.(file := None, base := None)
    case Save(_) => if Found(s) then s.(base := Some(Base(SliceRev(s), NoDigest))) else s
  }

  function NameOf(at: Path -> string, a: Action): Path {
    ConflictName(PathOf(a), at(PathOf(a)))
  }

  // A version found on the server appears as the local file `s` describes.
  function Copied(s: Slice, from: Slice): Slice {
    if Found(from) then s.(file := from.disk) else s
  }

  // Was this upload refused? (Every other refusal leaves its path and the notices alone.)
  predicate Refused(r: Round, a: Action) {
    a.Send? && PathOf(a) in r.notes
  }

  // Does this action fetch a file, and does its temp file take the name q?
  predicate Cuts(at: Path -> string, r: Round, a: Action, q: Path) {
    (a.Fetch? || a.Save?) && Found(SliceAt(r, PathOf(a))) && q == TempOf(Target(at, a).value)
  }

  function WithoutFile(s: Slice): Slice {
    s.(file := None)
  }

  // One action: its own path moves on unless it was refused, a saved version appears under its name, a file
  // called like its temp file is gone, all else stays.
  ghost predicate Moved(at: Path -> string, r: Round, a: Action, r': Round)
    requires Ready(a, SliceAt(r, PathOf(a)))
  {
    forall q :: SliceAt(r', q) ==
      if q == PathOf(a) then (if Refused(r', a) then SliceAt(r, q) else After(a, SliceAt(r, q)))
      else if a.Save? && q == NameOf(at, a) then Copied(SliceAt(r, q), SliceAt(r, a.path))
      else if Cuts(at, r, a, q) then WithoutFile(SliceAt(r, q))
      else SliceAt(r, q)
  }

  lemma NamesAreLonger(p: Path, stamp: string)
    ensures ConflictName(p, stamp) != p && TempOf(p) != p
    ensures TempOf(ConflictName(p, stamp)) != p && TempOf(ConflictName(p, stamp)) != ConflictName(p, stamp)
  {
    assert |ConflictName(p, stamp)| > |p| && |TempOf(p)| > |p|;
    assert |TempOf(ConflictName(p, stamp))| > |ConflictName(p, stamp)|;
  }

  lemma CalmFetch(dev: Device, r: Round, p: Path, target: Path)
    requires Calm(r) && Paths.Canonical(p)
    ensures FetchTo(dev, r, p, target) ==
            if Found(SliceAt(r, p)) then
              r.(files := (r.files - {TempOf(target)})[target := r.st.disk[p]],
                 base := r.base[p := Base(r.st.index[p].rev, NoDigest)])
            else r
  {
    OwnReplyIsRead(dev.decode, Ok(0), Get(r.st, p, false), None);
  }

  function CalmCall(dev: Device, u: Item<Local>, c: Content): PutCall {
    PutCall(u.path, u.val.baseRev, u.val.curSha, Reader(c, false), dev.mode, dev.name, CALM.tmp, CALM.put)
  }

  lemma CalmPut(dev: Device, r: Round, u: Item<Local>)
    requires Calm(r) && Ready(Send(u), SliceAt(r, u.path))
    ensures var out := Put(dev.cfg, r.st, CalmCall(dev, u, r.files[u.path]));
            CallPut(dev, r, u, r.files[u.path]) == (r.(st := out.st), Some(out.result))
  {
    var out := Put(dev.cfg, r.st, CalmCall(dev, u, r.files[u.path]));
    assert Arrive(dev.cfg, r) == r;
    AnsweredAlone(dev, r.(st := out.st), out.result);
  }

  // With the right base an upload is accepted or refused for a reason other than a conflict.
  lemma PutOutcome(dev: Device, r: Round, u: Item<Local>)
    requires Calm(r) && Paths.Canonical(u.path) && Ready(Send(u), SliceAt(r, u.path))
    ensures var c, rev := r.files[u.path], SliceRev(SliceAt(r, u.path)) + 1;
            var out := Put(dev.cfg, r.st, CalmCall(dev, u, c));
            match out.result
            case Ok(n) =>
              && n == rev && out.st.temps == r.st.temps && out.st.disk == r.st.disk[u.path := c]
              && out.st.index == r.st.index[u.path := Row(|c|, Sha(c), rev, false)]
            case Reject(reason) => out.st == r.st && reason != Conflict
  {
    var call := CalmCall(dev, u, r.files[u.path]);
    if Put(dev.cfg, r.st, call).result.Ok? {
      PutAccepted(dev.cfg, r.st, call);
    } else {
      PutRefused(dev.cfg, r.st, call);
    }
  }

  lemma CalmSend(dev: Device, at: Path -> string, r: Round, u: Item<Local>)
    requires Calm(r) && Paths.Canonical(u.path) && Ready(Send(u), SliceAt(r, u.path)) && u.path !in r.notes
    ensures var r' := Act(dev, at, r, Send(u));
            && Calm(r') && Moved(at, r, Send(u), r')
            && r'.notes.Keys == r.notes.Keys + if Refused(r', Send(u)) then {u.path} else {}
  {
    CalmPut(dev, r, u);
    PutOutcome(dev, r, u);
  }

  lemma CalmDrop(dev: Device, at: Path -> string, r: Round, d: Item<Local>)
    requires Calm(r) && Paths.Canonical(d.path) && Ready(Drop(d), SliceAt(r, d.path))
    ensures var r' := Act(dev, at, r, Drop(d));
            Calm(r') && r'.notes == r.notes && Moved(at, r, Drop(d), r')
  {
    var call := DeleteCall(d.path, d.val.baseRev, dev.name, CALM.delete);
    CalmDelete(dev, r, d);
    DeleteAccepted(r.st, call);
    DropMoves(at, r, d, Act(dev, at, r, Drop(d)));
  }

  lemma CalmDelete(dev: Device, r: Round, d: Item<Local>)
    requires Calm(r)
    ensures var out := Delete(r.st, DeleteCall(d.path, d.val.baseRev, dev.name, CALM.delete));
            CallDelete(dev, r, d) == (r.(st := out.st), Some(out.result))
  {
    var out := Delete(r.st, DeleteCall(d.path, d.val.baseRev, dev.name, CALM.delete));
    assert Arrive(dev.cfg, r) == r;
    AnsweredAlone(dev, r.(st := out.st), out.result);
  }

  lemma DropMoves(at: Path -> string, r: Round, d: Item<Local>, r': Round)
    requires Ready(Drop(d), SliceAt(r, d.path)) && r'.files == r.files && r'.base == r.base - {d.path}
    requires r'.st.disk == r.st.disk - {d.path}
    requires r'.st.index == r.st.index[d.path := Row(0, NoDigest, r.st.index[d.path].rev + 1, true)]
    ensures Moved(at, r, Drop(d), r')
  {
  }

  lemma FetchMoves(dev: Device, at: Path -> string, r: Round, p: Path)
    requires Calm(r) && Paths.Canonical(p)
    ensures var r' := Act(dev, at, r, Fetch(p));
            Calm(r') && r'.notes == r.notes && Moved(at, r, Fetch(p), r')
  {
    NamesAreLonger(p, at(p));
    CalmFetch(dev, r, p, p);
  }

  lemma SaveMoves(dev: Device, at: Path -> string, r: Round, p: Path)
    requires Calm(r) && Paths.Canonical(p)
    ensures var r' := Act(dev, at, r, Save(p));
            Calm(r') && r'.notes == r.notes && Moved(at, r, Save(p), r')
  {
    NamesAreLonger(p, at(p));
    CalmFetch(dev, r, p, ConflictName(p, at(p)));
  }

  lemma CalmAct(dev: Device, at: Path -> string, r: Round, a: Action)
    requires Calm(r) && (a.Send? ==> PathOf(a) !in r.notes)
    requires Paths.Canonical(PathOf(a)) && Ready(a, SliceAt(r, PathOf(a)))
    ensures var r' := Act(dev, at, r, a);
            && Calm(r') && Moved(at, r, a, r')
            && r'.notes.Keys == r.notes.Keys + if Refused(r', a) then {PathOf(a)} else {}
  {
    match a
    case Send(u) => CalmSend(dev, at, r, u);
    case Fetch(p) => FetchMoves(dev, at, r, p);
    case Drop(d) => CalmDrop(dev, at, r, d);
    case Remove(_) =>
    case Save(p) => SaveMoves(dev, at, r, p);
  }

  // ---------- Many actions ----------

  // Each path has one action, and the names of saved versions are nobody's path, nobody else's name and
  // nobody's temp file.
  ghost predicate Independent(at: Path -> string, actions: seq<Action>) {
    && (forall i, j | 0 <= i < j < |actions| :: PathOf(actions[i]) != PathOf(actions[j]))
    && (forall a, b | a in actions && b in actions && a.Save? :: NameOf(at, a) != PathOf(b))
    && (forall a, b | a in actions && b in actions && a.Save? && b.Save? && a != b :: NameOf(at, a) != NameOf(at, b))
    && (forall a, b | a in actions && b in actions && a.Save? && Target(at, b).Some? && !b.Send? ::
          NameOf(at, a) != TempOf(Target(at, b).value))
  }

  // No file is lost to a temp file before it is uploaded.
  ghost predicate SendsUncut(at: Path -> string, r: Round, actions: seq<Action>) {
    forall i, j | 0 <= i < j < |actions| && actions[j].Send? :: !Cuts(at, r, actions[i], PathOf(actions[j]))
  }

  ghost predicate CutIn(at: Path -> string, r: Round, actions: seq<Action>, q: Path) {
    exists a :: a in actions && Cuts(at, r, a, q)
  }

  ghost predicate AllReady(r: Round, actions: seq<Action>) {
    forall a | a in actions :: Paths.Canonical(PathOf(a)) && Ready(a, SliceAt(r, PathOf(a)))
  }

  // What one action of many makes of its path.
  function Effect(r: Round, a: Action, r': Round): Slice
    requires Ready(a, SliceAt(r, PathOf(a)))
  {
    if Refused(r', a) then SliceAt(r, PathOf(a)) else After(a, SliceAt(r, PathOf(a)))
  }

  // As x, but a file that was cut is gone; one that is fetched as well may have come after.
  predicate Became(s: Slice, x: Slice, cut: bool, fetched: bool) {
    if !cut then s == x else if fetched then s == x || s == WithoutFile(x) else s == WithoutFile(x)
  }

  // The combined effect, whatever the order; only for a path that is fetched and is the temp file of another
  // fetch the order shows.
  ghost predicate AllMoved(at: Path -> string, r: Round, actions: seq<Action>, r': Round)
    requires AllReady(r, actions)
  {
    && (forall a | a in actions ::
          Became(SliceAt(r', PathOf(a)), Effect(r, a, r'), CutIn(at, r, actions, PathOf(a)), FetchesFound(r, a)))
    && (forall a | a in actions && a.Save? ::
          SliceAt(r', NameOf(at, a)) == Copied(SliceAt(r, NameOf(at, a)), SliceAt(r, a.path)))
    && (forall q | NobodysPath(at, actions, q) ::
          SliceAt(r', q) == if CutIn(at, r, actions, q) then WithoutFile(SliceAt(r, q)) else SliceAt(r, q))
  }

  predicate FetchesFound(r: Round, a: Action) {
    a.Fetch? && Found(SliceAt(r, a.path))
  }

  predicate NobodysPath(at: Path -> string, actions: seq<Action>, q: Path) {
    forall a | a in actions :: q != PathOf(a) && !(a.Save? && q == NameOf(at, a))
  }

  // Only uploads among the actions add notices, and each at most its own.
  ghost predicate NotesGrow(r: Round, actions: seq<Action>, r': Round) {
    && r.notes.Keys <= r'.notes.Keys
    && forall q | q in r'.notes && q !in r.notes :: exists a :: a in actions && a.Send? && PathOf(a) == q
  }

  ghost predicate Unnoted(r: Round, actions: seq<Action>) {
    forall a | a in actions && a.Send? :: PathOf(a) !in r.notes
  }

  lemma {:induction false} PerformMoves(dev: Device, at: Path -> string, r: Round, actions: seq<Action>)
    requires Calm(r) && Unnoted(r, actions) && Independent(at, actions) && AllReady(r, actions)
    requires SendsUncut(at, r, actions)
    ensures var r' := Perform(dev, at, r, actions);
            Calm(r') && NotesGrow(r, actions, r') && AllMoved(at, r, actions, r')
    decreases |actions|
  {
    if actions != [] {
      var init, last := actions[..|actions| - 1], actions[|actions| - 1];
      UnSnoc(actions);
      InitIsIndependent(at, r, init, last);
      PerformMoves(dev, at, r, init);
      OneMoreMoves(dev, at, r, init, Perform(dev, at, r, init), last);
    }
  }

  lemma OneMoreMoves(dev: Device, at: Path -> string, r: Round, init: seq<Action>, mid: Round, last: Action)
    requires Unnoted(r, init + [last]) && Independent(at, init + [last]) && AllReady(r, init + [last]) && AllReady(r, init)
    requires SendsUncut(at, r, init + [last])
    requires Calm(mid) && NotesGrow(r, init, mid) && AllMoved(at, r, init, mid)
    ensures var r' := Act(dev, at, mid, last);
            Calm(r') && NotesGrow(r, init + [last], r') && AllMoved(at, r, init + [last], r')
  {
    InitIsIndependent(at, r, init, last);
    NotYetMoved(at, r, init, last, mid);
    NotNotedYet(at, r, init, mid, last);
    AfterCut(r, last, SliceAt(r, PathOf(last)), CutIn(at, r, init, PathOf(last)));
    CalmAct(dev, at, mid, last);
    MovesCompose(at, r, init, mid, last, Act(dev, at, mid, last));
  }

  lemma NotNotedYet(at: Path -> string, r: Round, init: seq<Action>, mid: Round, last: Action)
    requires Independent(at, init + [last]) && Unnoted(r, init + [last]) && NotesGrow(r, init, mid)
    ensures last.Send? ==> PathOf(last) !in mid.notes
  {
    LastIsNew(at, init, last);
    assert last in init + [last];
  }

  lemma InitIsIndependent(at: Path -> string, r: Round, init: seq<Action>, last: Action)
    requires Independent(at, init + [last]) && AllReady(r, init + [last]) && SendsUncut(at, r, init + [last])
    ensures Independent(at, init) && AllReady(r, init) && SendsUncut(at, r, init)
    ensures Paths.Canonical(PathOf(last)) && Ready(last, SliceAt(r, PathOf(last)))
    ensures last.Send? ==> !CutIn(at, r, init, PathOf(last))
  {
    LastIsNew(at, init, last);
    assert forall i | 0 <= i < |init| :: (init + [last])[i] == init[i];
    assert (init + [last])[|init|] == last;
  }

  // Before its own action a path has at most lost its file.
  lemma NotYetMoved(at: Path -> string, r: Round, init: seq<Action>, last: Action, mid: Round)
    requires Independent(at, init + [last]) && AllReady(r, init) && AllMoved(at, r, init, mid)
    ensures var s, before := SliceAt(mid, PathOf(last)), SliceAt(r, PathOf(last));
            s == if CutIn(at, r, init, PathOf(last)) then WithoutFile(before) else before
  {
    LastIsNew(at, init, last);
    assert NobodysPath(at, init, PathOf(last));
  }

  lemma LastIsNew(at: Path -> string, init: seq<Action>, last: Action)
    requires Independent(at, init + [last])
    ensures forall a :: a in init + [last] <==> a in init || a == last
    ensures forall a | a in init :: PathOf(a) != PathOf(last) && a != last
    ensures forall a | a in init && a.Save? :: NameOf(at, a) != PathOf(last)
    ensures last.Save? ==> forall a | a in init :: NameOf(at, last) != PathOf(a)
    ensures last.Save? ==> NameOf(at, last) != PathOf(last)
    ensures last.Save? ==> forall a | a in init && a.Save? :: NameOf(at, last) != NameOf(at, a)
  {
    var actions := init + [last];
    assert actions[|init|] == last;
    forall a | a in init ensures PathOf(a) != PathOf(last) && a != last {
      var i :| 0 <= i < |init| && init[i] == a;
      assert actions[i] == a;
    }
  }

  // One more action: files it cuts are gone.
  lemma CutMore(at: Path -> string, r: Round, init: seq<Action>, last: Action, q: Path)
    ensures CutIn(at, r, init + [last], q) <==> CutIn(at, r, init, q) || Cuts(at, r, last, q)
  {
    if CutIn(at, r, init, q) {
      var a :| a in init && Cuts(at, r, a, q);
      assert a in init + [last];
    }
    assert last in init + [last];
  }

  lemma BecameMore(s: Slice, x: Slice, cut: bool, more: bool, fetched: bool)
    requires Became(s, x, cut, fetched)
    ensures Became(if more then WithoutFile(s) else s, x, cut || more, fetched)
  {
  }

  lemma AfterCut(r: Round, a: Action, s: Slice, cut: bool)
    requires Ready(a, s) && (a.Send? ==> !cut)
    ensures var before := if cut then WithoutFile(s) else s;
            Ready(a, before) && Became(After(a, before), After(a, s), cut, a.Fetch? && Found(s))
  {
  }

  // What is known when the last action has been performed after the others.
  ghost predicate LastMoved(at: Path -> string, r: Round, init: seq<Action>, mid: Round, last: Action, r': Round)
    requires AllReady(r, init + [last])
  {
    && Independent(at, init + [last]) && AllReady(r, init) && AllMoved(at, r, init, mid)
    && (last.Send? ==> !CutIn(at, r, init, PathOf(last)))
    && Ready(last, SliceAt(mid, PathOf(last))) && Moved(at, mid, last, r')
    && r'.notes.Keys == mid.notes.Keys + (if Refused(r', last) then {PathOf(last)} else {})
    && (forall q :: Cuts(at, mid, last, q) <==> Cuts(at, r, last, q))
  }

  lemma EarlierPath(at: Path -> string, r: Round, init: seq<Action>, mid: Round, last: Action, r': Round, a: Action)
    requires AllReady(r, init + [last]) && LastMoved(at, r, init, mid, last, r') && a in init
    ensures Ready(a, SliceAt(r, PathOf(a)))
    ensures Became(SliceAt(r', PathOf(a)), Effect(r, a, r'), CutIn(at, r, init + [last], PathOf(a)), FetchesFound(r, a))
  {
    LastIsNew(at, init, last);
    assert Refused(r', a) <==> Refused(mid, a);
    CutMore(at, r, init, last, PathOf(a));
    BecameMore(SliceAt(mid, PathOf(a)), Effect(r, a, mid), CutIn(at, r, init, PathOf(a)), Cuts(at, r, last, PathOf(a)), FetchesFound(r, a));
  }

  lemma LastPath(at: Path -> string, r: Round, init: seq<Action>, mid: Round, last: Action, r': Round)
    requires AllReady(r, init + [last]) && LastMoved(at, r, init, mid, last, r')
    ensures last in init + [last]
    ensures Became(SliceAt(r', PathOf(last)), Effect(r, last, r'), CutIn(at, r, init + [last], PathOf(last)), FetchesFound(r, last))
  {
    var q := PathOf(last);
    assert last in init + [last];
    NotYetMoved(at, r, init, last, mid);
    CutMore(at, r, init, last, q);
    NamesAreLonger(q, at(q));
    AfterCut(r, last, SliceAt(r, q), CutIn(at, r, init, q));
  }

  lemma CopiedName(at: Path -> string, r: Round, init: seq<Action>, mid: Round, last: Action, r': Round, a: Action)
    requires AllReady(r, init + [last]) && LastMoved(at, r, init, mid, last, r') && a in init + [last] && a.Save?
    ensures SliceAt(r', NameOf(at, a)) == Copied(SliceAt(r, NameOf(at, a)), SliceAt(r, a.path))
  {
    var q := NameOf(at, a);
    LastIsNew(at, init, last);
    assert last in init + [last];
    assert !Cuts(at, r, last, q);
    if a == last {
      assert NobodysPath(at, init, q);
      assert !CutIn(at, r, init, q);
      NotYetMoved(at, r, init, last, mid);
    }
  }

  lemma NobodyMoved(at: Path -> string, r: Round, init: seq<Action>, mid: Round, last: Action, r': Round, q: Path)
    requires AllReady(r, init + [last]) && LastMoved(at, r, init, mid, last, r') && NobodysPath(at, init + [last], q)
    ensures SliceAt(r', q) == if CutIn(at, r, init + [last], q) then WithoutFile(SliceAt(r, q)) else SliceAt(r, q)
  {
    LastIsNew(at, init, last);
    assert last in init + [last] && NobodysPath(at, init, q);
    CutMore(at, r, init, last, q);
  }

  lemma MovesCompose(at: Path -> string, r: Round, init: seq<Action>, mid: Round, last: Action, r': Round)
    requires AllReady(r, init + [last]) && LastMoved(at, r, init, mid, last, r') && NotesGrow(r, init, mid)
    ensures AllMoved(at, r, init + [last], r') && NotesGrow(r, init + [last], r')
  {
    var actions := init + [last];
    LastIsNew(at, init, last);
    forall a | a in actions
      ensures Became(SliceAt(r', PathOf(a)), Effect(r, a, r'), CutIn(at, r, actions, PathOf(a)), FetchesFound(r, a))
    {
      if a == last {
        LastPath(at, r, init, mid, last, r');
      } else {
        EarlierPath(at, r, init, mid, last, r', a);
      }
    }
    forall a | a in actions && a.Save?
      ensures SliceAt(r', NameOf(at, a)) == Copied(SliceAt(r, NameOf(at, a)), SliceAt(r, a.path))
    {
      CopiedName(at, r, init, mid, last, r', a);
    }
    forall q | NobodysPath(at, actions, q)
      ensures SliceAt(r', q) == if CutIn(at, r, actions, q) then WithoutFile(SliceAt(r, q)) else SliceAt(r, q)
    {
      NobodyMoved(at, r, init, mid, last, r', q);
    }
  }

  // ---------- Order ----------

  // What the server can send of some paths, whatever they are spelled like: the files and entries that
  // downloading them leaves.
  function Contents(st: State, paths: set<Path>): map<Path, Content> {
    map p | p in paths && Get(st, p, false).File? :: Get(st, p, false).content
  }

  function Entries(st: State, paths: set<Path>): map<Path, Base> {
    map p | p in paths && Get(st, p, false).File? :: Base(Get(st, p, false).rev, NoDigest)
  }

  predicate OnlyFetches(actions: seq<Action>) {
    forall a | a in actions :: a.Fetch?
  }

  function PathsIn(actions: seq<Action>): set<Path> {
    set a | a in actions :: PathOf(a)
  }

  lemma FetchAlone(dev: Device, r: Round, p: Path)
    requires r.script == [] && r.inbox == []
    ensures var f := Get(r.st, p, false);
            FetchTo(dev, r, p, p) ==
            if f.File? then
              r.(files := (r.files - {TempOf(p)})[p := f.content], base := r.base[p := Base(f.rev, NoDigest)])
            else r
  {
    assert Arrive(dev.cfg, r) == r;
    OwnReplyIsRead(dev.decode, Ok(0), Get(r.st, p, false), None);
  }

  // The temp files of what can be fetched of some paths.
  function Temps(st: State, paths: set<Path>): set<Path> {
    TempsOf(Contents(st, paths).Keys)
  }

  // What downloading some paths leaves, when none of them is the temp file of another.
  function Downloaded(r: Round, paths: set<Path>): Round {
    r.(files := r.files - Temps(r.st, paths) + Contents(r.st, paths), base := r.base + Entries(r.st, paths))
  }

  // No path that can be fetched is called like the temp file of another.
  predicate TempsApart(st: State, paths: set<Path>) {
    Temps(st, paths) !! Contents(st, paths).Keys
  }

  lemma FetchIs(dev: Device, r: Round, paths: set<Path>, p: Path)
    requires r.script == [] && r.inbox == [] && TempsApart(r.st, paths + {p})
    ensures FetchTo(dev, Downloaded(r, paths), p, p) == Downloaded(r, paths + {p})
  {
    FetchAlone(dev, Downloaded(r, paths), p);
    if Get(r.st, p, false).File? {
      OneMoreContent(r.st, paths, p);
      DownloadedMore(r, paths, p, Get(r.st, p, false));
    } else {
      NoMoreContent(r.st, paths, p);
    }
  }

  lemma DownloadedMore(r: Round, paths: set<Path>, p: Path, f: Fetched)
    requires f.File? && TempsApart(r.st, paths + {p})
    requires Contents(r.st, paths + {p}) == Contents(r.st, paths)[p := f.content]
    requires Entries(r.st, paths + {p}) == Entries(r.st, paths)[p := Base(f.rev, NoDigest)]
    ensures var d := Downloaded(r, paths);
            Downloaded(r, paths + {p}) ==
            d.(files := (d.files - {TempOf(p)})[p := f.content], base := d.base[p := Base(f.rev, NoDigest)])
  {
    var written := Contents(r.st, paths);
    TempsGrow(written.Keys, p);
    assert (written[p := f.content]).Keys == written.Keys + {p};
    WriteCommutes(r.files, Temps(r.st, paths), written, p, f.content);
    MergeOne(r.base, Entries(r.st, paths), p, Base(f.rev, NoDigest));
  }

  lemma FewerApart(st: State, paths: set<Path>, p: Path)
    requires TempsApart(st, paths + {p})
    ensures TempsApart(st, paths)
  {
    var more := Contents(st, paths + {p});
    forall t | t in Contents(st, paths) ensures t in more && TempOf(t) in Temps(st, paths + {p}) {
    }
  }

  lemma OneMoreContent(st: State, paths: set<Path>, p: Path)
    requires Get(st, p, false).File?
    ensures Contents(st, paths + {p}) == Contents(st, paths)[p := Get(st, p, false).content]
    ensures Entries(st, paths + {p}) == Entries(st, paths)[p := Base(Get(st, p, false).rev, NoDigest)]
  {
  }

  lemma NoMoreContent(st: State, paths: set<Path>, p: Path)
    requires Get(st, p, false).NotFound?
    ensures Contents(st, paths + {p}) == Contents(st, paths) && Entries(st, paths + {p}) == Entries(st, paths)
  {
  }

  lemma TempsGrow(targets: set<Path>, p: Path)
    ensures TempsOf(targets + {p}) == TempsOf(targets) + {TempOf(p)}
  {
  }

  lemma MergeOne<V>(m: map<Path, V>, n: map<Path, V>, p: Path, v: V)
    ensures (m + n)[p := v] == m + n[p := v]
  {
  }

  // Writing one more file whose temp file is none of those written.
  lemma WriteCommutes(files: map<Path, Content>, temps: set<Path>, written: map<Path, Content>, p: Path, c: Content)
    requires temps + {TempOf(p)} !! written.Keys + {p}
    ensures (files - temps + written - {TempOf(p)})[p := c] == files - (temps + {TempOf(p)}) + written[p := c]
  {
  }

  // Downloading: every path that the server can send is written, files called like their temp files are
  // gone, nothing else changes.
  lemma {:induction false} PerformFetches(dev: Device, at: Path -> string, r: Round, actions: seq<Action>)
    requires r.script == [] && r.inbox == [] && OnlyFetches(actions) && TempsApart(r.st, PathsIn(actions))
    ensures Perform(dev, at, r, actions) == Downloaded(r, PathsIn(actions))
    decreases |actions|
  {
    if actions == [] {
      assert Contents(r.st, {}) == map[] && Entries(r.st, {}) == map[] && PathsIn([]) == {};
      assert r.files - Temps(r.st, {}) == r.files;
    } else {
      var init, last := actions[..|actions| - 1], actions[|actions| - 1];
      UnSnoc(actions);
      assert last in actions && forall a | a in init :: a in actions;
      PathsInMore(init, last);
      FewerApart(r.st, PathsIn(init), last.path);
      FetchIs(dev, r, PathsIn(init), last.path);
      PerformFetches(dev, at, r, init);
    }
  }

  // The downloads of some paths, each once, in some order.
  ghost predicate Orders(actions: seq<Action>, paths: set<Path>) {
    && OnlyFetches(actions) && PathsIn(actions) == paths
    && forall i, j | 0 <= i < j < |actions| :: actions[i] != actions[j]
  }

  ghost predicate OrderIsHidden(dev: Device, at: Path -> string, r: Round, paths: set<Path>) {
    forall a, b | Orders(a, paths) && Orders(b, paths) :: Perform(dev, at, r, a) == Perform(dev, at, r, b)
  }

  // Downloads leave the same round in every order, in any mode, with any notices and whatever cannot be
  // fetched, exactly if no path that can be fetched is called like the temp file of another; otherwise the
  // order in which Go visits the unseen rows shows.
  lemma DownloadsInAnyOrder(dev: Device, at: Path -> string, r: Round, paths: set<Path>)
    requires r.script == [] && r.inbox == []
    ensures OrderIsHidden(dev, at, r, paths) <==> TempsApart(r.st, paths)
  {
    if TempsApart(r.st, paths) {
      forall a, b | Orders(a, paths) && Orders(b, paths) ensures Perform(dev, at, r, a) == Perform(dev, at, r, b) {
        PerformFetches(dev, at, r, a);
        PerformFetches(dev, at, r, b);
      }
    } else {
      var q :| q in Temps(r.st, paths) && q in Contents(r.st, paths);
      var p :| p in Contents(r.st, paths) && q == TempOf(p);
      TempIsAnother(p, p);
      OrderShows(dev, at, r, paths, p, q);
    }
  }

  // The last download decides: of the temp file itself, or of the file it belongs to.
  lemma OrderShows(dev: Device, at: Path -> string, r: Round, paths: set<Path>, p: Path, q: Path)
    requires r.script == [] && r.inbox == [] && p != q && q == TempOf(p)
    requires p in paths && q in paths && Get(r.st, p, false).File? && Get(r.st, q, false).File?
    ensures !OrderIsHidden(dev, at, r, paths)
  {
    var a := OrderEndingIn(paths, q);
    var b := OrderEndingIn(paths, p);
    EndsDiffer(dev, at, r, a, b, p, q);
    OrdersDisagree(dev, at, r, paths, a + [Fetch(q)], b + [Fetch(p)]);
  }

  lemma OrderEndingIn(paths: set<Path>, p: Path) returns (actions: seq<Action>)
    requires p in paths
    ensures OnlyFetches(actions) && Orders(actions + [Fetch(p)], paths)
  {
    actions := AnOrder(paths - {p});
    OrderedMore(actions, paths - {p}, p);
    assert paths - {p} + {p} == paths;
  }

  lemma OrdersDisagree(dev: Device, at: Path -> string, r: Round, paths: set<Path>, a: seq<Action>, b: seq<Action>)
    requires Orders(a, paths) && Orders(b, paths) && Perform(dev, at, r, a) != Perform(dev, at, r, b)
    ensures !OrderIsHidden(dev, at, r, paths)
  {
  }

  lemma EndsDiffer(dev: Device, at: Path -> string, r: Round, a: seq<Action>, b: seq<Action>, p: Path, q: Path)
    requires r.script == [] && r.inbox == [] && OnlyFetches(a) && OnlyFetches(b) && q == TempOf(p)
    requires Get(r.st, p, false).File? && Get(r.st, q, false).File?
    ensures Perform(dev, at, r, a + [Fetch(q)]) != Perform(dev, at, r, b + [Fetch(p)])
  {
    LastFetch(dev, at, r, a, q);
    LastFetch(dev, at, r, b, p);
  }

  lemma {:induction false} AnOrder(paths: set<Path>) returns (actions: seq<Action>)
    ensures Orders(actions, paths)
    decreases |paths|
  {
    actions := [];
    if paths != {} {
      var p :| p in paths;
      actions := AnOrder(paths - {p});
      OrderedMore(actions, paths - {p}, p);
      actions := actions + [Fetch(p)];
      assert paths - {p} + {p} == paths;
    }
  }

  lemma OrderedMore(actions: seq<Action>, paths: set<Path>, p: Path)
    requires Orders(actions, paths) && p !in paths
    ensures Orders(actions + [Fetch(p)], paths + {p})
  {
    var more := actions + [Fetch(p)];
    assert forall x :: x in more <==> x in actions || x == Fetch(p);
    PathsInMore(actions, Fetch(p));
    forall x | x in actions ensures x != Fetch(p) {
      assert PathOf(x) in PathsIn(actions);
    }
  }

  lemma PathsInMore(actions: seq<Action>, a: Action)
    ensures PathsIn(actions + [a]) == PathsIn(actions) + {PathOf(a)}
  {
    assert forall x :: x in actions + [a] <==> x in actions || x == a;
  }

  lemma LastFetch(dev: Device, at: Path -> string, r: Round, actions: seq<Action>, p: Path)
    requires r.script == [] && r.inbox == [] && OnlyFetches(actions) && Get(r.st, p, false).File?
    ensures var end := Perform(dev, at, r, actions + [Fetch(p)]).files; p in end && TempOf(p) !in end
  {
    FetchesKeepServer(dev, at, r, actions);
    PerformMore(dev, at, r, actions, Fetch(p));
    FetchAlone(dev, Perform(dev, at, r, actions), p);
    TempIsAnother(p, p);
  }

  lemma {:induction false} FetchesKeepServer(dev: Device, at: Path -> string, r: Round, actions: seq<Action>)
    requires r.script == [] && r.inbox == [] && OnlyFetches(actions)
    ensures var end := Perform(dev, at, r, actions); end.st == r.st && end.script == [] && end.inbox == []
    decreases |actions|
  {
    if actions != [] {
      var init, last := actions[..|actions| - 1], actions[|actions| - 1];
      assert last in actions && forall a | a in init :: a in actions;
      FetchesKeepServer(dev, at, r, init);
      FetchAlone(dev, Perform(dev, at, r, init), last.path);
    }
  }

  // No temp file has the name of a file that is uploaded or fetched.
  ghost predicate Untangled(at: Path -> string, r: Round, actions: seq<Action>) {
    forall a | a in actions && (a.Send? || FetchesFound(r, a)) :: !CutIn(at, r, actions, PathOf(a))
  }

  lemma UntangledIsUncut(at: Path -> string, r: Round, actions: seq<Action>)
    requires Untangled(at, r, actions)
    ensures SendsUncut(at, r, actions)
  {
    forall i, j | 0 <= i < j < |actions| && actions[j].Send? ensures !Cuts(at, r, actions[i], PathOf(actions[j])) {
      assert actions[j] in actions && actions[i] in actions;
    }
  }

  lemma SameCuts(at: Path -> string, r: Round, a: seq<Action>, b: seq<Action>, q: Path)
    requires forall x :: x in a <==> x in b
    ensures CutIn(at, r, a, q) <==> CutIn(at, r, b, q)
  {
  }

  // Two orders of the same actions leave the same files, baseline and server if they refuse the same
  // uploads (the quota may let one order through and not the other).
  lemma OrderDoesNotMatter(dev: Device, at: Path -> string, r: Round, a: seq<Action>, b: seq<Action>)
    requires Calm(r) && Unnoted(r, a) && (forall x :: x in a <==> x in b)
    requires Independent(at, a) && Independent(at, b) && AllReady(r, a) && Untangled(at, r, a)
    requires Perform(dev, at, r, a).notes.Keys == Perform(dev, at, r, b).notes.Keys
    ensures var one, two := Perform(dev, at, r, a), Perform(dev, at, r, b);
            one.files == two.files && one.base == two.base && one.st.index == two.st.index && one.st.disk == two.st.disk
  {
    var one, two := Perform(dev, at, r, a), Perform(dev, at, r, b);
    forall q ensures CutIn(at, r, a, q) <==> CutIn(at, r, b, q) {
      SameCuts(at, r, a, b, q);
    }
    UntangledIsUncut(at, r, a);
    UntangledIsUncut(at, r, b);
    PerformMoves(dev, at, r, a);
    PerformMoves(dev, at, r, b);
    forall q ensures SliceAt(one, q) == SliceAt(two, q) {
      SlicesAgree(at, r, a, b, one, two, q);
    }
    EqualSlices(one, two);
  }

  lemma SlicesAgree(at: Path -> string, r: Round, a: seq<Action>, b: seq<Action>, one: Round, two: Round, q: Path)
    requires (forall x :: x in a <==> x in b) && AllReady(r, a) && AllReady(r, b) && Untangled(at, r, a)
    requires AllMoved(at, r, a, one) && AllMoved(at, r, b, two) && one.notes.Keys == two.notes.Keys
    ensures SliceAt(one, q) == SliceAt(two, q)
  {
    SameCuts(at, r, a, b, q);
    if x :| x in a && PathOf(x) == q {
      assert x in b;
      MovedOwn(at, r, a, one, x);
      MovedOwn(at, r, b, two, x);
      SameEffect(r, x, one, two);
    } else if x :| x in a && x.Save? && NameOf(at, x) == q {
      assert x in b;
      MovedName(at, r, a, one, x);
      MovedName(at, r, b, two, x);
    } else {
      assert forall x | x in b :: x in a;
      MovedNot(at, r, a, one, q);
      MovedNot(at, r, b, two, q);
    }
  }

  lemma MovedOwn(at: Path -> string, r: Round, actions: seq<Action>, r': Round, a: Action)
    requires AllReady(r, actions) && AllMoved(at, r, actions, r') && a in actions
    requires FetchesFound(r, a) ==> !CutIn(at, r, actions, PathOf(a))
    ensures Ready(a, SliceAt(r, PathOf(a)))
    ensures SliceAt(r', PathOf(a)) ==
            if CutIn(at, r, actions, PathOf(a)) then WithoutFile(Effect(r, a, r')) else Effect(r, a, r')
  {
  }

  lemma MovedName(at: Path -> string, r: Round, actions: seq<Action>, r': Round, a: Action)
    requires AllReady(r, actions) && AllMoved(at, r, actions, r') && a in actions && a.Save?
    ensures SliceAt(r', NameOf(at, a)) == Copied(SliceAt(r, NameOf(at, a)), SliceAt(r, a.path))
  {
  }

  lemma MovedNot(at: Path -> string, r: Round, actions: seq<Action>, r': Round, q: Path)
    requires AllReady(r, actions) && AllMoved(at, r, actions, r') && NobodysPath(at, actions, q)
    ensures SliceAt(r', q) == if CutIn(at, r, actions, q) then WithoutFile(SliceAt(r, q)) else SliceAt(r, q)
  {
  }

  lemma SameEffect(r: Round, a: Action, one: Round, two: Round)
    requires Ready(a, SliceAt(r, PathOf(a))) && one.notes.Keys == two.notes.Keys
    ensures Effect(r, a, one) == Effect(r, a, two)
  {
    assert PathOf(a) in one.notes <==> PathOf(a) in two.notes;
  }

  lemma EqualSlices(one: Round, two: Round)
    requires forall q :: SliceAt(one, q) == SliceAt(two, q)
    ensures one.files == two.files && one.base == two.base && one.st.index == two.st.index && one.st.disk == two.st.disk
  {
    forall q
      ensures At(one.files, q) == At(two.files, q) && At(one.base, q) == At(two.base, q)
      ensures At(one.st.index, q) == At(two.st.index, q) && At(one.st.disk, q) == At(two.st.disk, q)
    {
      assert SliceAt(one, q) == SliceAt(two, q);
    }
    SameMap(one.files, two.files);
    SameMap(one.base, two.base);
    SameMap(one.st.index, two.st.index);
    SameMap(one.st.disk, two.st.disk);
  }
}
