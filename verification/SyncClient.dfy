/** The client and its connection as objects (internal/sync/syncclient.go), tied to module ClientRound. */
module SyncClients {
  import opened Options
  import opened Listing
  import opened FileIndex
  import opened SyncServer
  import opened SyncSessions
  import opened ThreeWay
  import opened PlanMeaning
  import opened ClientRound
  import opened Wire

  /** A connection to one project, shared with whatever the script says the others do. */
  class Transport {
    const dev: Device
    const store: RevisionStore
    const dir: DirStore
    var script: seq<Turn>
    var inbox: seq<Frame>

    constructor (dev: Device, store: RevisionStore, dir: DirStore, script: seq<Turn>)
      ensures this.dev == dev && this.store == store && this.dir == dir && this.script == script && inbox == []
    {
      this.dev, this.store, this.dir, this.script, inbox := dev, store, dir, script, [];
    }

    ghost function Server(): State
      reads store, dir
    {
      State(store.rows, store.history, dir.files, dir.temps)
    }

    method Session(device: string, mode: Mode) returns (s: SyncSession)
      ensures fresh(s) && s.device == device && s.mode == mode && s.cfg == dev.cfg && s.store == store && s.dir == dir
    {
      s := new SyncSession(device, mode, dev.cfg, store, dir);
    }

    method PerformStep(step: Step)
      modifies store, dir
      ensures Server() == Apply(dev.cfg, old(Server()), step)
    {
      match step {
        case DoPut(c) =>
          var s := Session(c.device, c.mode);
          var _ := s.HandlePut(c.path, c.base, c.declared, c.reader, c.tmp, c.faults);
        case DoDelete(c) =>
          var s := Session(c.device, dev.mode);
          var _ := s.HandleDelete(c.path, c.base, c.faults);
        case DoReconcile(f) =>
          var s := Session("", dev.mode);
          s.ReconcileCloud(f);
        case CloudWrite(p, content) => dir.files := dir.files[p := content];
        case CloudRemove(p) => dir.files := dir.files - {p};
      }
    }

    // The others' steps, and what is in store for this call.
    method Next() returns (t: Turn)
      modifies this`script, store, dir
      ensures t == Head(old(script)) && script == Tail(old(script))
      ensures Server() == Run(dev.cfg, old(Server()), t.others)
    {
      t := Head(script);
      script := Tail(script);
      for i := 0 to |t.others|
        invariant script == Tail(old(script))
        invariant Run(dev.cfg, Server(), t.others[i..]) == Run(dev.cfg, old(Server()), t.others)
      {
        assert t.others[i..][1..] == t.others[i + 1..];
        PerformStep(t.others[i]);
      }
    }

    // ReadJSON: the oldest frame, decoded if it can be.
    method ReadMessage() returns (m: Option<Message>)
      requires inbox != []
      modifies this`inbox
      ensures inbox == old(inbox)[1..] && m == Decoded(dev.decode, old(inbox)[0])
    {
      m := Decoded(dev.decode, inbox[0]);
      inbox := inbox[1..];
    }

    // The server answers a put or delete, and the client reads.
    method Answer(result: Result, ghost r: Round) returns (reply: Option<Result>)
      requires r.inbox == inbox
      modifies this`inbox
      ensures (r.(inbox := inbox), reply) == Answered(dev, r, result)
    {
      inbox := Arrived(inbox, [Text(ResultReply(result))]);
      var m := ReadMessage();
      return if m.None? then None else Some(ResultOf(m.value));
    }

    ghost predicate Mirrors(r: Round)
      reads this, store, dir
    {
      r.st == Server() && r.script == script && r.inbox == inbox
    }

    ghost function Mirrored(r: Round): Round
      reads this, store, dir
    {
      r.(st := Server(), script := script, inbox := inbox)
    }

    method Put(u: Item<Local>, content: Content, ghost r: Round) returns (reply: Option<Result>)
      requires Mirrors(r)
      modifies this, store, dir
      ensures (Mirrored(r), reply) == CallPut(dev, r, u, content)
    {
      var t := Next();
      if t.fate.RequestLost? {
        return None;
      }
      var s := Session(dev.name, dev.mode);
      var sent := Cut(content, t.readFails);
      var result := s.HandlePut(u.path, u.val.baseRev, u.val.curSha, Reader(sent, false), t.tmp, t.put);
      if t.fate.ReplyLost? {
        return None;
      }
      if t.readFails.Some? {
        inbox := Arrived(inbox, [Text(ResultReply(result))]);
        return None;
      }
      reply := Answer(result, Mirrored(r));
    }

    method Delete(d: Item<Local>, ghost r: Round) returns (reply: Option<Result>)
      requires Mirrors(r)
      modifies this, store, dir
      ensures (Mirrored(r), reply) == CallDelete(dev, r, d)
    {
      var t := Next();
      if t.fate.RequestLost? {
        return None;
      }
      var s := Session(dev.name, dev.mode);
      var result := s.HandleDelete(d.path, d.val.baseRev, t.delete);
      if t.fate.ReplyLost? {
        return None;
      }
      reply := Answer(result, Mirrored(r));
    }

    // What arrives, and how far the client then gets with writing it to disk.
    method Get(p: Path) returns (got: Delivery, w: Writing)
      modifies this, store, dir
      ensures var t := Head(old(script));
              && script == Tail(old(script)) && Server() == Run(dev.cfg, old(Server()), t.others)
              && w == t.write
              && (got, inbox) ==
                 if t.fate != Delivered then (Nothing, old(inbox))
                 else ReadFile(dev.decode, Arrived(old(inbox), FileReply(SyncServer.Get(Server(), p, t.getFails), t.getCut)))
    {
      var t := Next();
      w := t.write;
      if t.fate != Delivered {
        return Nothing, w;
      }
      var s := Session(dev.name, dev.mode);
      var reply := s.HandleGet(p, t.getFails);
      inbox := Arrived(inbox, FileReply(reply, t.getCut));
      ghost var q := inbox;
      var m := ReadMessage();
      if m.None? || m.value.op != FileOp || m.value.entry.None? || inbox == [] {
        return Nothing, w;
      }
      var f := inbox[0];
      inbox := inbox[1..];
      assert f == q[1] && inbox == q[2..];
      got := if f.Binary? then Delivery(m.value.entry.value, f.body) else Nothing;
    }

    method Manifest(ghost r: Round) returns (rows: Option<map<Path, Row>>)
      requires Mirrors(r)
      modifies this, store, dir
      ensures (Mirrored(r), rows) == CallManifest(dev, r)
    {
      var t := Next();
      if t.fate.RequestLost? {
        return None;
      }
      var s := Session(dev.name, dev.mode);
      s.ReconcileCloud(t.scan);
      var t' := Next();
      var entries := store.Manifest(t'.manifestFails);
      if t.fate.ReplyLost? || t'.fate != Delivered {
        return None;
      }
      var own := ManifestReply(if entries.None? then None else Some(ToMap(entries.value)));
      inbox := Arrived(inbox, [Text(own)]);
      var m := ReadMessage();
      return if m.None? then None else Some(m.value.entries);
    }
  }

  /** The client's project directory and saved baseline. */
  class SyncClient {
    var files: map<Path, Content>
    var base: map<Path, Base>
    var notes: map<Path, Reason>

    constructor (files: map<Path, Content>)
      ensures this.files == files && base == map[] && notes == map[]
    {
      this.files, base, notes := files, map[], map[];
    }

    ghost function Now(t: Transport): Round
      reads this, t, t.store, t.dir
    {
      Round(files, base, notes, t.Server(), t.script, t.inbox)
    }

    // download, and with another target saveConflict: both record the entry of the reply.
    method Download(t: Transport, p: Path, target: Path)
      modifies this, t, t.store, t.dir
      ensures Now(t) == FetchTo(t.dev, old(Now(t)), p, target)
    {
      var got, w := t.Get(p);
      if got.Nothing? {
        return;
      }
      var ok := WriteLocal(target, got.content, w);
      if ok {
        base := base[p := got.entry];
      }
    }

    // writeLocal: create, copy, rename, and on the way out remove what a copy that broke off has left.
    method WriteLocal(target: Path, content: Content, w: Writing) returns (ok: bool)
      modifies this`files
      ensures files == ClientRound.WriteLocal(old(files), target, content, w) && ok == w.Whole?
    {
      var tmp := TempOf(target);
      if w.NotCreated? {
        return false;
      }
      files := files[tmp := []];
      if w.CopyBreaks? {
        files := files - {tmp};
        return false;
      }
      files := files[tmp := content];
      if w.NotRenamed? {
        return false;
      }
      TempIsAnother(target, target);
      files := (files - {tmp})[target := files[tmp]];
      return true;
    }

    method UploadOne(t: Transport, at: Path -> string, u: Item<Local>)
      modifies this, t, t.store, t.dir
      ensures Now(t) == Act(t.dev, at, old(Now(t)), Send(u))
    {
      if u.path !in files {
        return;
      }
      var reply := t.Put(u, files[u.path], Now(t));
      match reply {
        case None =>
        case Some(Ok(rev)) => base := base[u.path := Base(rev, u.val.curSha)];
        case Some(Reject(reason)) =>
          if reason == Conflict {
            Download(t, u.path, ConflictName(u.path, at(u.path)));
          } else {
            notes := notes[u.path := reason];
          }
      }
    }

    method DeleteOne(t: Transport, at: Path -> string, d: Item<Local>)
      modifies this, t, t.store, t.dir
      ensures Now(t) == Act(t.dev, at, old(Now(t)), Drop(d))
    {
      var reply := t.Delete(d, Now(t));
      if reply.Some? && reply.value.Ok? {
        base := base - {d.path};
      }
    }

    // The five loops over a plan.

    method Uploads(t: Transport, at: Path -> string, xs: seq<Item<Local>>)
      modifies this, t, t.store, t.dir
      ensures Now(t) == Perform(t.dev, at, old(Now(t)), Sends(xs))
    {
      for i := 0 to |xs|
        invariant Now(t) == Perform(t.dev, at, old(Now(t)), Sends(xs[..i]))
      {
        PerformMore(t.dev, at, old(Now(t)), Sends(xs[..i]), Send(xs[i]));
        SendsSnoc(xs, i);
        UploadOne(t, at, xs[i]);
      }
      assert xs[..|xs|] == xs;
    }

    method Downloads(t: Transport, at: Path -> string, xs: seq<Item<Row>>)
      modifies this, t, t.store, t.dir
      ensures Now(t) == Perform(t.dev, at, old(Now(t)), Fetches(xs))
    {
      for i := 0 to |xs|
        invariant Now(t) == Perform(t.dev, at, old(Now(t)), Fetches(xs[..i]))
      {
        PerformMore(t.dev, at, old(Now(t)), Fetches(xs[..i]), Fetch(xs[i].path));
        FetchesSnoc(xs, i);
        Download(t, xs[i].path, xs[i].path);
      }
      assert xs[..|xs|] == xs;
    }

    method RemoteDeletes(t: Transport, at: Path -> string, xs: seq<Item<Local>>)
      modifies this, t, t.store, t.dir
      ensures Now(t) == Perform(t.dev, at, old(Now(t)), Drops(xs))
    {
      for i := 0 to |xs|
        invariant Now(t) == Perform(t.dev, at, old(Now(t)), Drops(xs[..i]))
      {
        PerformMore(t.dev, at, old(Now(t)), Drops(xs[..i]), Drop(xs[i]));
        DropsSnoc(xs, i);
        DeleteOne(t, at, xs[i]);
      }
      assert xs[..|xs|] == xs;
    }

    method LocalDeletes(t: Transport, at: Path -> string, xs: seq<Item<Row>>)
      modifies this, t, t.store, t.dir
      ensures Now(t) == Perform(t.dev, at, old(Now(t)), Removes(xs))
    {
      for i := 0 to |xs|
        invariant Now(t) == Perform(t.dev, at, old(Now(t)), Removes(xs[..i]))
      {
        PerformMore(t.dev, at, old(Now(t)), Removes(xs[..i]), Remove(xs[i].path));
        RemovesSnoc(xs, i);
        files, base := files - {xs[i].path}, base - {xs[i].path};
      }
      assert xs[..|xs|] == xs;
    }

    method Conflicts(t: Transport, at: Path -> string, xs: seq<Item<Clash>>)
      modifies this, t, t.store, t.dir
      ensures Now(t) == Perform(t.dev, at, old(Now(t)), Saves(xs))
    {
      for i := 0 to |xs|
        invariant Now(t) == Perform(t.dev, at, old(Now(t)), Saves(xs[..i]))
      {
        PerformMore(t.dev, at, old(Now(t)), Saves(xs[..i]), Save(xs[i].path));
        SavesSnoc(xs, i);
        Download(t, xs[i].path, ConflictName(xs[i].path, at(xs[i].path)));
      }
      assert xs[..|xs|] == xs;
    }

    method StartBase(local: seq<Item<Local>>)
      modifies this`base
      ensures base == CleanBase(local)
    {
      base := map[];
      for i := 0 to |local|
        invariant base == CleanBase(local[..i])
      {
        assert local[..i + 1][..i] == local[..i];
        var l := local[i];
        if l.val.state == Clean {
          base := base[l.path := Base(l.val.baseRev, l.val.baseSha)];
        }
      }
      assert local[..|local|] == local;
    }

    method RunPlan(t: Transport, at: Path -> string, plan: Plan, local: seq<Item<Local>>)
      modifies this, t, t.store, t.dir
      ensures Now(t) == Perform(t.dev, at, old(Now(t)).(base := CleanBase(local)), Actions(t.dev.mode, plan))
    {
      StartBase(local);
      ghost var r := Now(t);
      if t.dev.mode != Cleanup {
        Uploads(t, at, plan.upload);
      }
      Downloads(t, at, plan.download);
      RemoteDeletes(t, at, plan.deleteToRemote);
      LocalDeletes(t, at, plan.deleteToLocal);
      Conflicts(t, at, plan.conflicts);
      PerformPlan(t.dev, at, r, plan);
    }

    // One whole round.
    method SyncOnce(t: Transport, at: Path -> string) returns (ghost plan: Plan)
      modifies this, t, t.store, t.dir
      ensures ClientRound.SyncOnce(t.dev, at, old(Now(t)), plan, Now(t))
    {
      plan := Plan([], [], [], [], []);
      var rows := t.Manifest(Now(t));
      if rows.None? {
        return;
      }
      var remote := Enumerate(rows.value);
      ghost var listed := Now(t);
      var scanned := Enumerate(ScanRows(files));
      var known := Enumerate(CleanEntries(base));
      var local := BuildLocal(scanned, known);
      var p := Diff(local, remote);
      DiffFollowsTheTable(files, base, rows.value, scanned, known, p);
      CleanBaseIsKept(files, base, scanned, known);
      RunPlan(t, at, p, local);
      plan := p;
    }
  }

  // The entries of the first loop of `execute`.
  function CleanBase(local: seq<Item<Local>>): map<Path, Base> {
    if local == [] then map[]
    else
      var l := local[|local| - 1];
      var before := CleanBase(local[..|local| - 1]);
      if l.val.state == Clean then before[l.path := Base(l.val.baseRev, l.val.baseSha)] else before
  }

  // One more entry of a list is one more action.

  lemma SendsSnoc(xs: seq<Item<Local>>, i: nat)
    requires i < |xs|
    ensures Sends(xs[..i + 1]) == Sends(xs[..i]) + [Send(xs[i])]
  {
  }

  lemma FetchesSnoc(xs: seq<Item<Row>>, i: nat)
    requires i < |xs|
    ensures Fetches(xs[..i + 1]) == Fetches(xs[..i]) + [Fetch(xs[i].path)]
  {
  }

  lemma DropsSnoc(xs: seq<Item<Local>>, i: nat)
    requires i < |xs|
    ensures Drops(xs[..i + 1]) == Drops(xs[..i]) + [Drop(xs[i])]
  {
  }

  lemma RemovesSnoc(xs: seq<Item<Row>>, i: nat)
    requires i < |xs|
    ensures Removes(xs[..i + 1]) == Removes(xs[..i]) + [Remove(xs[i].path)]
  {
  }

  lemma SavesSnoc(xs: seq<Item<Clash>>, i: nat)
    requires i < |xs|
    ensures Saves(xs[..i + 1]) == Saves(xs[..i]) + [Save(xs[i].path)]
  {
  }

  // The loops one after the other are the plan's actions in order.
  lemma PerformPlan(dev: Device, at: Path -> string, r: Round, plan: Plan)
    ensures Perform(dev, at, r, Actions(dev.mode, plan)) ==
            var r1 := if dev.mode == Cleanup then r else Perform(dev, at, r, Sends(plan.upload));
            var r2 := Perform(dev, at, r1, Fetches(plan.download));
            var r3 := Perform(dev, at, r2, Drops(plan.deleteToRemote));
            var r4 := Perform(dev, at, r3, Removes(plan.deleteToLocal));
            Perform(dev, at, r4, Saves(plan.conflicts))
  {
    var a := if dev.mode == Cleanup then [] else Sends(plan.upload);
    var b, c := Fetches(plan.download), Drops(plan.deleteToRemote);
    var d, e := Removes(plan.deleteToLocal), Saves(plan.conflicts);
    PerformConcat(dev, at, r, a + b + c + d, e);
    PerformConcat(dev, at, r, a + b + c, d);
    PerformConcat(dev, at, r, a + b, c);
    PerformConcat(dev, at, r, a, b);
  }

  lemma {:induction false} CleanBaseAt(local: seq<Item<Local>>, p: Path)
    requires Distinct(local)
    ensures p in CleanBase(local) <==> exists l :: l in local && l.path == p && l.val.state == Clean
    ensures forall l | l in local && l.path == p && l.val.state == Clean ::
              p in CleanBase(local) && CleanBase(local)[p] == Base(l.val.baseRev, l.val.baseSha)
  {
    if local != [] {
      var init, last := local[..|local| - 1], local[|local| - 1];
      CleanBaseAt(init, p);
      assert forall l :: l in local <==> l in init || l == last;
      assert forall l | l in init :: l.path != last.path;
    }
  }

  lemma CleanBaseIsKept(files: map<Path, Content>, base: map<Path, Base>,
                        scanned: seq<Item<Row>>, known: seq<Item<Local>>)
    requires Lists(scanned, ScanRows(files)) && Lists(known, CleanEntries(base))
    ensures CleanBase(LocalView(scanned, known)) == Kept(files, base)
  {
    var local := LocalView(scanned, known);
    LocalViewEntries(files, base, scanned, known);
    forall p ensures At(CleanBase(local), p) == At(Kept(files, base), p) {
      CleanBaseAt(local, p);
      KeptAt(files, base, local, p);
    }
    SameMap(CleanBase(local), Kept(files, base));
  }

  lemma KeptAt(files: map<Path, Content>, base: map<Path, Base>, local: seq<Item<Local>>, p: Path)
    requires PathsOf(local) == Scan(files).Keys + base.Keys
    requires forall l | l in local :: EntryOf(files, base, l.path) == Some(l.val)
    ensures p in Kept(files, base) <==> exists l :: l in local && l.path == p && l.val.state == Clean
    ensures p in Kept(files, base) ==>
              forall l | l in local && l.path == p :: Kept(files, base)[p] == Base(l.val.baseRev, l.val.baseSha)
  {
    if p in Kept(files, base) {
      var i :| 0 <= i < |local| && local[i].path == p;
      assert local[i] in local && local[i].val.state == Clean;
    }
  }
}
