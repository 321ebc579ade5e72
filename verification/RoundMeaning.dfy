/** What single actions of a round leave on the client, told by what became of their call. */
module RoundMeaning {
  import opened Options
  import opened Listing
  import opened FileIndex
  import opened SyncServer
  import opened ThreeWay
  import opened PlanMeaning
  import opened Wire
  import opened ClientRound
  import opened Convergence

  // ---------- The actions of a round ----------

  // Whatever the mode, a round acts once on each path with something to do, as the table says; only a round
  // in cleanup mode leaves the uploads out.
  lemma ActionsFollowTheTable(mode: Mode, files: map<Path, Content>, base: map<Path, Base>, rows: map<Path, Row>, plan: Plan)
    requires PlanFits(files, base, rows, plan)
    ensures var actions := Actions(mode, plan);
            && PathsDiffer(actions)
            && (forall a | a in actions :: VerdictAt(files, base, rows, PathOf(a)) == KindOf(a))
            && (forall p :: (exists a :: a in actions && PathOf(a) == p) <==>
                  VerdictAt(files, base, rows, p) in (if mode == Cleanup then {Download, DeleteToRemote, DeleteToLocal, SaveBoth}
                                                      else {Upload, Download, DeleteToRemote, DeleteToLocal, SaveBoth}))
  {
    PlanActions(files, base, rows, plan);
    if mode == Cleanup {
      WithoutUploads(plan);
    }
  }

  lemma WithoutUploads(plan: Plan)
    requires PathsDiffer(Actions(ReadWrite, plan))
    ensures PathsDiffer(Actions(Cleanup, plan))
    ensures forall a :: a in Actions(Cleanup, plan) <==> a in Actions(ReadWrite, plan) && !a.Send?
  {
    var sends, rest := Sends(plan.upload), Actions(Cleanup, plan);
    var b, c, d, e := Fetches(plan.download), Drops(plan.deleteToRemote), Removes(plan.deleteToLocal), Saves(plan.conflicts);
    assert Actions(ReadWrite, plan) == sends + (b + c + d + e);
    assert rest == b + c + d + e;
    LastDiffer(sends, rest);
    Split(sends, rest);
    assert (forall a | a in b :: a.Fetch?) && (forall a | a in c :: a.Drop?);
    assert (forall a | a in d :: a.Remove?) && (forall a | a in e :: a.Save?);
  }

  lemma LastDiffer(a: seq<Action>, b: seq<Action>)
    requires PathsDiffer(a + b)
    ensures PathsDiffer(b)
  {
    forall i, j | 0 <= i < j < |b| ensures PathOf(b[i]) != PathOf(b[j]) {
      assert b[i] == (a + b)[|a| + i] && b[j] == (a + b)[|a| + j];
    }
  }

  lemma Split(sends: seq<Action>, rest: seq<Action>)
    requires (forall a | a in sends :: a.Send?)
    ensures (forall a | a in rest :: !a.Send?) ==> forall a :: a in rest <==> a in sends + rest && !a.Send?
  {
  }

  // ---------- Calls ----------

  // What the client has is the same.
  predicate Unmoved(r: Round, r': Round) {
    r'.files == r.files && r'.base == r.base && r'.notes == r.notes
  }

  // An action whose call or reply is lost, or whose reader breaks off, leaves the client as it was.
  lemma LostCallsMoveNothing(dev: Device, at: Path -> string, r: Round, a: Action)
    requires !a.Remove? && (Head(r.script).fate != Delivered || (a.Send? && Head(r.script).readFails.Some?))
    ensures Unmoved(r, Act(dev, at, r, a))
  {
  }

  // The rows a round compares with are those after the reconcile and whatever others did next; a manifest the
  // server rejects counts as an empty one, and only a lost call ends the round.
  lemma ManifestMeans(dev: Device, r: Round)
    requires r.inbox == []
    ensures var t, a := Head(r.script), Arrive(dev.cfg, r);
            var b, t' := Arrive(dev.cfg, a.(st := Reconcile(a.st, t.scan))), Head(a.script);
            CallManifest(dev, r) ==
            if t.fate == RequestLost then (a, None)
            else if t.fate == ReplyLost || t'.fate != Delivered then (b, None)
            else (b, Some(if t'.manifestFails then map[] else b.st.index))
  {
    var t, a := Head(r.script), Arrive(dev.cfg, r);
    var b, t' := Arrive(dev.cfg, a.(st := Reconcile(a.st, t.scan))), Head(a.script);
    var own := Text(ManifestReply(if t'.manifestFails then None else Some(b.st.index)));
    assert [own][1..] == [] && b.(inbox := []) == b;
  }

  // The put an upload makes when its turn comes.
  ghost function PutOf(dev: Device, r: Round, u: Item<Local>): Outcome
    requires u.path in r.files
  {
    var t := Head(r.script);
    Put(dev.cfg, Arrive(dev.cfg, r).st,
        PutCall(u.path, u.val.baseRev, u.val.curSha, Reader(r.files[u.path], false), dev.mode, dev.name, t.tmp, t.put))
  }

  predicate Heard(r: Round) {
    r.inbox == [] && Head(r.script).fate == Delivered && Head(r.script).readFails.None?
  }

  // An upload that is heard is recorded exactly if the server accepted it, noted exactly if the server refused
  // it for another reason than a conflict, and on a conflict nothing but the server's version is fetched.
  lemma UploadFollowsTheAnswer(dev: Device, at: Path -> string, r: Round, u: Item<Local>)
    requires Heard(r) && u.path in r.files
    ensures var out, r' := PutOf(dev, r, u), Act(dev, at, r, Send(u));
            var arrived := Arrive(dev.cfg, r).(st := out.st);
            match out.result
            case Ok(rev) => r' == arrived.(base := r.base[u.path := Base(rev, u.val.curSha)])
            case Reject(reason) =>
              if reason == Conflict then r' == FetchTo(dev, arrived, u.path, ConflictName(u.path, at(u.path)))
              else r' == arrived.(notes := r.notes[u.path := reason])
  {
    var t, a := Head(r.script), Arrive(dev.cfg, r);
    assert Cut(r.files[u.path], t.readFails) == r.files[u.path];
    AnsweredAlone(dev, a.(st := PutOf(dev, r, u).st), PutOf(dev, r, u).result);
  }

  // With replies waiting it is the oldest that decides: whatever it answers, unless it is a rejection with a
  // reason, it is taken for an acknowledgement, a rejection without one even for revision 0.
  lemma OldestReplyDecides(dev: Device, at: Path -> string, r: Round, u: Item<Local>)
    requires r.inbox != [] && u.path in r.files
    requires Head(r.script).fate == Delivered && Head(r.script).readFails.None?
    ensures var m, r' := Decoded(dev.decode, r.inbox[0]), Act(dev, at, r, Send(u));
            var refused := m.Some? && m.value.op == RejectOp && m.value.reason.Some?;
            && (m.None? ==> Unmoved(r, r'))
            && (m.Some? && !refused ==>
                  r'.base == r.base[u.path := Base(if m.value.op == RejectOp then 0 else m.value.rev, u.val.curSha)])
            && (refused && m.value.reason != Some(Conflict) ==>
                  r'.base == r.base && r'.notes == r.notes[u.path := m.value.reason.value])
  {
    var own := [Text(ResultReply(PutOf(dev, r, u).result))];
    assert (r.inbox + own)[0] == r.inbox[0];
    assert Cut(r.files[u.path], Head(r.script).readFails) == r.files[u.path];
  }

  // A delete on the server makes the client forget the path exactly if the server says it is done.
  lemma DropForgetsIff(dev: Device, at: Path -> string, r: Round, d: Item<Local>)
    requires r.inbox == [] && d.path in r.base
    ensures var t, r' := Head(r.script), Act(dev, at, r, Drop(d));
            var out := Delete(Arrive(dev.cfg, r).st, DeleteCall(d.path, d.val.baseRev, dev.name, t.delete));
            && (d.path !in r'.base <==> t.fate == Delivered && out.result.Ok?)
            && r'.base - {d.path} == r.base - {d.path} && r'.files == r.files && r'.notes == r.notes
            && r'.st == if t.fate == RequestLost then Arrive(dev.cfg, r).st else out.st
  {
    var t, a := Head(r.script), Arrive(dev.cfg, r);
    var out := Delete(a.st, DeleteCall(d.path, d.val.baseRev, dev.name, t.delete));
    AnsweredAlone(dev, a.(st := out.st), out.result);
  }

  // ---------- Fetches ----------

  // A fetch with no other reply waiting brings the bytes sent and their revision exactly if it is delivered,
  // the server finds the file and the client gets it into place; otherwise no entry and no file changes but
  // the one called like the temp file: gone if the copy broke off, and the new bytes if the rename failed.
  lemma FetchMeans(dev: Device, r: Round, p: Path, target: Path, q: Path)
    requires r.inbox == []
    ensures var t, r' := Head(r.script), FetchTo(dev, r, p, target);
            var got := Get(Arrive(dev.cfg, r).st, p, t.getFails);
            var comes := t.fate == Delivered && got.File?;
            && r'.base == (if comes && t.write == Whole then r.base[p := Base(got.rev, NoDigest)] else r.base)
            && At(r'.files, q) == (
               if comes && t.write == Whole && q == target then Some(Cut(got.content, t.getCut))
               else if comes && t.write in {Whole, CopyBreaks} && q == TempOf(target) then None
               else if comes && t.write == NotRenamed && q == TempOf(target) then Some(Cut(got.content, t.getCut))
               else At(r.files, q))
            && r'.notes == r.notes && r'.inbox == [] && r'.st == Arrive(dev.cfg, r).st
  {
    var t, a := Head(r.script), Arrive(dev.cfg, r);
    OwnReplyIsRead(dev.decode, Ok(0), Get(a.st, p, t.getFails), t.getCut);
    TempIsAnother(target, target);
  }

  // The temp file a failing rename leaves behind is uploaded by the next round, unless the baseline or the
  // server knows its name.
  lemma LeftoverIsUploaded(dev: Device, r: Round, p: Path, target: Path, rows: map<Path, Row>)
    requires r.inbox == [] && Head(r.script).fate == Delivered && Head(r.script).write == NotRenamed
    requires Get(Arrive(dev.cfg, r).st, p, Head(r.script).getFails).File?
    requires Paths.Scannable(TempOf(target)) && TempOf(target) !in r.base && TempOf(target) !in rows
    ensures var r' := FetchTo(dev, r, p, target);
            VerdictAt(r'.files, r'.base, rows, TempOf(target)) == Upload
  {
    FetchMeans(dev, r, p, target, TempOf(target));
  }
}
