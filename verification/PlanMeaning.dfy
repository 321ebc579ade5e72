/** What a plan says about each path, against the three-way table of the design. */
module PlanMeaning {
  import opened Options
  import opened Listing
  import opened FileIndex
  import opened SyncServer
  import opened ThreeWay

  // A baseline entry: the server revision and digest a file was last confirmed at.
  datatype Base = Base(rev: int, sha: Digest)

  // ---------- The table ----------

  // The local file, the baseline entry and the server row of one path.
  datatype Corner = Corner(file: Option<Digest>, base: Option<Base>, row: Option<Row>)

  predicate Unedited(c: Corner) {
    c.file.Some? && c.base.Some? && c.file.value == c.base.value.sha
  }

  // The server has moved past the baseline. Having no row is not moving.
  predicate ServerMoved(c: Corner) {
    c.row.Some? && (c.row.value.deleted || c.row.value.rev != if c.base.Some? then c.base.value.rev else 0)
  }

  function Table(c: Corner): Verdict {
    if c.file.None? && c.base.None? then
      (if c.row.Some? && !c.row.value.deleted then Download else Leave)
    else if !ServerMoved(c) then
      (if c.file.None? then DeleteToRemote else if Unedited(c) then Leave else Upload)
    else if Unedited(c) then (if c.row.value.deleted then DeleteToLocal else Download)
    else if c.file.None? then (if c.row.value.deleted then Leave else SaveBoth)
    else if c.row.value.sha == c.file.value then Leave
    else SaveBoth
  }

  function CornerAt(files: map<Path, Content>, base: map<Path, Base>, rows: map<Path, Row>, p: Path): Corner {
    Corner(if p in Scan(files) then Some(Sha(files[p])) else None, At(base, p), At(rows, p))
  }

  function VerdictAt(files: map<Path, Content>, base: map<Path, Base>, rows: map<Path, Row>, p: Path): Verdict {
    Table(CornerAt(files, base, rows, p))
  }

  function BaseRev(base: map<Path, Base>, p: Path): int {
    if p in base then base[p].rev else 0
  }

  // xs lists, each once, the paths with verdict v.
  ghost predicate Names<T>(files: map<Path, Content>, base: map<Path, Base>, rows: map<Path, Row>,
                           xs: seq<Item<T>>, v: Verdict) {
    Distinct(xs) && forall p :: p in PathsOf(xs) <==> VerdictAt(files, base, rows, p) == v
  }

  // Each path is in exactly the list the table names for it, once, with the values the round needs.
  ghost predicate PlanFits(files: map<Path, Content>, base: map<Path, Base>, rows: map<Path, Row>, plan: Plan) {
    && Names(files, base, rows, plan.upload, Upload)
    && Names(files, base, rows, plan.download, Download)
    && Names(files, base, rows, plan.conflicts, SaveBoth)
    && Names(files, base, rows, plan.deleteToRemote, DeleteToRemote)
    && Names(files, base, rows, plan.deleteToLocal, DeleteToLocal)
    && (forall u | u in plan.upload ::
          u.path in files && u.val.curSha == Sha(files[u.path]) && u.val.baseRev == BaseRev(base, u.path))
    && (forall d | d in plan.deleteToRemote :: d.val.baseRev == BaseRev(base, d.path))
  }

  // And each entry carries what the directory, the baseline and the rows say about its path.
  ghost predicate PlanCarries(files: map<Path, Content>, base: map<Path, Base>, rows: map<Path, Row>, plan: Plan) {
    && (forall u | u in plan.upload :: u.val.state == Modified && EntryOf(files, base, u.path) == Some(u.val))
    && (forall d | d in plan.deleteToRemote :: d.val.state == Gone && EntryOf(files, base, d.path) == Some(d.val))
    && (forall d | d in plan.download :: At(rows, d.path) == Some(d.val))
    && (forall d | d in plan.deleteToLocal :: At(rows, d.path) == Some(d.val))
    && (forall c | c in plan.conflicts ::
          && c.path in rows && c.val.remote == rows[c.path].sha
          && c.val.local == if c.path in Scan(files) then Sha(files[c.path]) else NoDigest)
  }

  // ---------- What BuildLocal builds ----------

  lemma {:induction false} ToMapConcat<T>(xs: seq<Item<T>>, ys: seq<Item<T>>)
    ensures ToMap(xs + ys) == ToMap(xs) + ToMap(ys)
    decreases |ys|
  {
    if ys == [] {
      assert xs + ys == xs;
    } else {
      assert (xs + ys)[..|xs + ys| - 1] == xs + ys[..|ys| - 1];
      ToMapConcat(xs, ys[..|ys| - 1]);
    }
  }

  lemma {:induction false} ScannedAt(scanned: seq<Item<Row>>, base: map<Path, Local>, p: Path)
    ensures At(ToMap(ScannedEntries(scanned, base)), p) ==
            if p in ToMap(scanned) then Some(ScannedEntry(Item(p, ToMap(scanned)[p]), base).val) else None
  {
    if scanned != [] {
      var init := scanned[..|scanned| - 1];
      ScannedAt(init, base, p);
      var all := ScannedEntries(scanned, base);
      assert all[..|all| - 1] == ScannedEntries(init, base);
    }
  }

  lemma {:induction false} GoneAt(base: seq<Item<Local>>, seen: set<Path>, p: Path)
    requires Distinct(base)
    ensures At(ToMap(GoneEntries(base, seen)), p) ==
            if p in ToMap(base) && p !in seen && ToMap(base)[p].state != Gone
            then Some(GoneEntry(Item(p, ToMap(base)[p])).val) else None
  {
    if base != [] {
      var init, b := base[..|base| - 1], base[|base| - 1];
      GoneAt(init, seen, p);
      ToMapKeys(init);
      assert b.path !in PathsOf(init);
      ToMapConcat(GoneEntries(init, seen), [GoneEntry(b)]);
      assert [GoneEntry(b)][..0] == [];
      assert GoneEntries(init, seen) + [] == GoneEntries(init, seen);
    }
  }

  // The entry of every path, whatever the states in the saved baseline: a scanned file is clean exactly if
  // the baseline has its digest; what the baseline knows and the scan does not is gone, unless it was before.
  lemma BuildLocalMeans(scanned: seq<Item<Row>>, base: seq<Item<Local>>, p: Path)
    requires Distinct(base)
    ensures var now, was := At(ToMap(scanned), p), At(ToMap(base), p);
            var rev, sha := if was.Some? then was.value.baseRev else 0, if was.Some? then was.value.baseSha else NoDigest;
            At(ToMap(LocalView(scanned, base)), p) ==
            if now.Some? then
              Some(Local(now.value.size, rev, sha, now.value.sha,
                         if was.Some? && sha == now.value.sha then Clean else Modified))
            else if was.Some? && was.value.state != Gone then Some(Local(0, rev, sha, NoDigest, Gone))
            else None
  {
    ScannedAt(scanned, ToMap(base), p);
    GoneAt(base, PathsOf(scanned), p);
    ToMapKeys(scanned);
    ToMapConcat(ScannedEntries(scanned, ToMap(base)), GoneEntries(base, PathsOf(scanned)));
  }

  // ---------- From the lists of local entries to the table ----------

  function CleanEntry(b: Base): Local {
    Local(0, b.rev, b.sha, b.sha, Clean)
  }

  // A baseline as SyncOnce leaves it: every entry clean.
  function CleanEntries(base: map<Path, Base>): map<Path, Local> {
    map p | p in base :: CleanEntry(base[p])
  }

  // The entry BuildLocal makes for a path.
  function EntryOf(files: map<Path, Content>, base: map<Path, Base>, p: Path): Option<Local> {
    var rev, sha := BaseRev(base, p), if p in base then base[p].sha else NoDigest;
    if p in Scan(files) then
      Some(Local(|files[p]|, rev, sha, Sha(files[p]), if p in base && base[p].sha == Sha(files[p]) then Clean else Modified))
    else if p in base then Some(Local(0, rev, sha, NoDigest, Gone))
    else None
  }

  lemma {:induction false} GonePaths(base: seq<Item<Local>>, seen: set<Path>)
    requires Distinct(base) && forall b | b in base :: b.val.state == Clean
    ensures Distinct(GoneEntries(base, seen))
    ensures PathsOf(GoneEntries(base, seen)) == PathsOf(base) - seen
    ensures forall g | g in GoneEntries(base, seen) :: exists b :: b in base && b.path !in seen && g == GoneEntry(b)
  {
    if base != [] {
      var init, b := base[..|base| - 1], base[|base| - 1];
      assert base == init + [b] && b in base;
      GonePaths(init, seen);
      JoinPaths(init, [b]);
      JoinPaths(GoneEntries(init, seen), [GoneEntry(b)]);
      PathsOfOne(b);
      PathsOfOne(GoneEntry(b));
      assert PathsOf(base) == PathsOf(init) + {b.path} && b.path !in PathsOf(init);
      assert GoneEntries(init, seen) + [] == GoneEntries(init, seen);
      assert b.path in seen ==> PathsOf(base) - seen == PathsOf(init) - seen;
      assert b.path !in seen ==> PathsOf(base) - seen == (PathsOf(init) - seen) + {b.path};
      assert forall x | x in init :: x in base;
    }
  }

  lemma HereEntries(files: map<Path, Content>, base: map<Path, Base>, scanned: seq<Item<Row>>)
    requires Lists(scanned, ScanRows(files))
    ensures var here := ScannedEntries(scanned, CleanEntries(base));
            && Distinct(here) && PathsOf(here) == Scan(files).Keys
            && forall l | l in here :: EntryOf(files, base, l.path) == Some(l.val)
  {
    DistinctMeaning(scanned);
    var here := ScannedEntries(scanned, CleanEntries(base));
    SamePaths(here, scanned);
    forall l | l in here ensures EntryOf(files, base, l.path) == Some(l.val) {
      var i :| 0 <= i < |here| && here[i] == l;
      assert scanned[i].path in ToMap(scanned);
    }
  }

  lemma GoneAre(files: map<Path, Content>, base: map<Path, Base>, known: seq<Item<Local>>, seen: set<Path>)
    requires Lists(known, CleanEntries(base)) && seen == Scan(files).Keys
    ensures var gone := GoneEntries(known, seen);
            && Distinct(gone) && PathsOf(gone) == base.Keys - seen
            && forall l | l in gone :: EntryOf(files, base, l.path) == Some(l.val)
  {
    DistinctMeaning(known);
    assert PathsOf(known) == CleanEntries(base).Keys == base.Keys;
    forall b | b in known ensures b.path in base && b.val == CleanEntry(base[b.path]) {
      var i :| 0 <= i < |known| && known[i] == b;
      assert known[i].path in ToMap(known);
    }
    GonePaths(known, seen);
  }

  lemma LocalViewEntries(files: map<Path, Content>, base: map<Path, Base>,
                         scanned: seq<Item<Row>>, known: seq<Item<Local>>)
    requires Lists(scanned, ScanRows(files)) && Lists(known, CleanEntries(base))
    ensures var local := LocalView(scanned, known);
            && Distinct(local) && PathsOf(local) == Scan(files).Keys + base.Keys
            && (forall l | l in local :: EntryOf(files, base, l.path) == Some(l.val))
  {
    DistinctMeaning(scanned);
    var seen := Scan(files).Keys;
    assert PathsOf(scanned) == ScanRows(files).Keys == seen;
    HereEntries(files, base, scanned);
    GoneAre(files, base, known, seen);
    JoinPaths(ScannedEntries(scanned, CleanEntries(base)), GoneEntries(known, seen));
  }

  function PathsWith(local: seq<Item<Local>>, rows: map<Path, Row>, v: Verdict): set<Path> {
    set i | 0 <= i < |local| && Decide(local[i].val, At(rows, local[i].path)) == v :: local[i].path
  }

  lemma PathsWithGrows(local: seq<Item<Local>>, rows: map<Path, Row>, v: Verdict)
    requires local != []
    ensures var last := local[|local| - 1];
            PathsWith(local, rows, v) == PathsWith(local[..|local| - 1], rows, v)
              + if Decide(last.val, At(rows, last.path)) == v then {last.path} else {}
  {
    var init := local[..|local| - 1];
    forall p | p in PathsWith(local, rows, v)
      ensures p in PathsWith(init, rows, v) || p == local[|local| - 1].path
    {
      var i :| 0 <= i < |local| && Decide(local[i].val, At(rows, local[i].path)) == v && local[i].path == p;
      if i < |init| {
        assert init[i] == local[i];
      }
    }
    assert forall i | 0 <= i < |init| :: init[i] == local[i];
  }

  lemma AppendDistinct<T>(xs: seq<Item<T>>, x: Item<T>)
    requires Distinct(xs) && x.path !in PathsOf(xs)
    ensures Distinct(xs + [x]) && PathsOf(xs + [x]) == PathsOf(xs) + {x.path}
  {
    JoinPaths(xs, [x]);
    PathsOfOne(x);
  }

  ghost predicate Exactly<T>(xs: seq<Item<T>>, paths: set<Path>) {
    Distinct(xs) && PathsOf(xs) == paths
  }

  ghost predicate LocalPlanFits(local: seq<Item<Local>>, rows: map<Path, Row>, plan: Plan) {
    && Exactly(plan.upload, PathsWith(local, rows, Upload))
    && Exactly(plan.download, PathsWith(local, rows, Download))
    && Exactly(plan.conflicts, PathsWith(local, rows, SaveBoth))
    && Exactly(plan.deleteToRemote, PathsWith(local, rows, DeleteToRemote))
    && Exactly(plan.deleteToLocal, PathsWith(local, rows, DeleteToLocal))
    && (forall l | l in plan.upload :: l in local)
    && (forall l | l in plan.deleteToRemote :: l in local)
  }

  lemma {:induction false} LocalPlanMeaning(local: seq<Item<Local>>, rows: map<Path, Row>)
    requires Distinct(local)
    ensures LocalPlanFits(local, rows, LocalPlan(local, rows))
  {
    if local != [] {
      var init, last := local[..|local| - 1], local[|local| - 1];
      LocalPlanMeaning(init, rows);
      LocalPlanStep(init, last, rows, LocalPlan(init, rows));
      assert local == init + [last];
    }
  }

  lemma LocalPlanStep(init: seq<Item<Local>>, last: Item<Local>, rows: map<Path, Row>, plan: Plan)
    requires Distinct(init + [last]) && LocalPlanFits(init, rows, plan)
    ensures LocalPlanFits(init + [last], rows, Extend(plan, last, rows))
  {
    var local := init + [last];
    assert local[..|local| - 1] == init && local[|local| - 1] == last;
    forall v: Verdict
      ensures last.path !in PathsWith(init, rows, v)
      ensures PathsWith(local, rows, v) == PathsWith(init, rows, v)
                + if Decide(last.val, At(rows, last.path)) == v then {last.path} else {}
    {
      PathsWithGrows(local, rows, v);
      forall i | 0 <= i < |init| ensures init[i].path != last.path {
        assert local[i] == init[i];
      }
    }
    match Decide(last.val, At(rows, last.path))
    case Leave =>
    case Upload => AppendDistinct(plan.upload, last);
    case DeleteToRemote => AppendDistinct(plan.deleteToRemote, last);
    case Download => AppendDistinct(plan.download, Item(last.path, rows[last.path]));
    case DeleteToLocal => AppendDistinct(plan.deleteToLocal, Item(last.path, rows[last.path]));
    case SaveBoth =>
      AppendDistinct(plan.conflicts, Extend(plan, last, rows).conflicts[|plan.conflicts|]);
  }

  // ---------- The result ----------

  // On what BuildLocal makes of a directory and a baseline, Diff puts every path in exactly the list the
  // table names, whatever order the manifest rows are visited in.
  lemma DiffFollowsTheTable(files: map<Path, Content>, base: map<Path, Base>, rows: map<Path, Row>,
                            scanned: seq<Item<Row>>, known: seq<Item<Local>>, plan: Plan)
    requires Lists(scanned, ScanRows(files)) && Lists(known, CleanEntries(base))
    requires IsDiff(LocalView(scanned, known), rows, plan)
    ensures PlanFits(files, base, rows, plan) && PlanCarries(files, base, rows, plan)
  {
    var local := LocalView(scanned, known);
    LocalViewEntries(files, base, scanned, known);
    LocalPlanMeaning(local, rows);
    var part := LocalPlan(local, rows);
    var extra :| Lists(extra, Unseen(local, rows)) && plan == part.(download := part.download + extra);
    DistinctMeaning(extra);
    KnownNames(files, base, rows, local, part.upload, Upload);
    KnownNames(files, base, rows, local, part.conflicts, SaveBoth);
    KnownNames(files, base, rows, local, part.deleteToRemote, DeleteToRemote);
    KnownNames(files, base, rows, local, part.deleteToLocal, DeleteToLocal);
    DownloadNames(files, base, rows, local, part.download, extra);
    RequestValues(files, base, rows, local, part);
    LocalPlanCarries(local, rows);
    ExtraRows(local, rows, extra);
    EntriesCarry(files, base, rows, local, part, extra);
  }

  // What the loop over local entries puts into the lists.
  ghost predicate CarriesFrom(local: seq<Item<Local>>, rows: map<Path, Row>, plan: Plan) {
    && (forall u | u in plan.upload :: u in local && u.val.state == Modified)
    && (forall d | d in plan.deleteToRemote :: d in local && d.val.state == Gone)
    && (forall d | d in plan.download :: At(rows, d.path) == Some(d.val))
    && (forall d | d in plan.deleteToLocal :: At(rows, d.path) == Some(d.val))
    && (forall c | c in plan.conflicts :: c.path in rows && c.val.remote == rows[c.path].sha &&
          exists l :: l in local && l.path == c.path && c.val.local == if l.val.state == Gone then NoDigest else l.val.curSha)
  }

  lemma {:induction false} LocalPlanCarries(local: seq<Item<Local>>, rows: map<Path, Row>)
    ensures CarriesFrom(local, rows, LocalPlan(local, rows))
  {
    if local != [] {
      var init, last := local[..|local| - 1], local[|local| - 1];
      LocalPlanCarries(init, rows);
      assert last in local && forall l | l in init :: l in local;
    }
  }

  lemma ExtraRows(local: seq<Item<Local>>, rows: map<Path, Row>, extra: seq<Item<Row>>)
    requires Lists(extra, Unseen(local, rows))
    ensures forall d | d in extra :: At(rows, d.path) == Some(d.val)
  {
    DistinctMeaning(extra);
    forall d | d in extra ensures At(rows, d.path) == Some(d.val) {
      var i :| 0 <= i < |extra| && extra[i] == d;
      assert extra[i].path in ToMap(extra);
    }
  }

  lemma EntriesCarry(files: map<Path, Content>, base: map<Path, Base>, rows: map<Path, Row>,
                     local: seq<Item<Local>>, part: Plan, extra: seq<Item<Row>>)
    requires CarriesFrom(local, rows, part) && forall l | l in local :: EntryOf(files, base, l.path) == Some(l.val)
    requires forall d | d in extra :: At(rows, d.path) == Some(d.val)
    ensures PlanCarries(files, base, rows, part.(download := part.download + extra))
  {
    forall c | c in part.conflicts
      ensures c.val.local == if c.path in Scan(files) then Sha(files[c.path]) else NoDigest
    {
      var l :| l in local && l.path == c.path && c.val.local == if l.val.state == Gone then NoDigest else l.val.curSha;
      assert EntryOf(files, base, l.path) == Some(l.val);
    }
  }

  lemma RequestValues(files: map<Path, Content>, base: map<Path, Base>, rows: map<Path, Row>,
                      local: seq<Item<Local>>, plan: Plan)
    requires forall l | l in local :: EntryOf(files, base, l.path) == Some(l.val)
    requires (forall l | l in plan.upload :: l in local) && (forall l | l in plan.deleteToRemote :: l in local)
    requires Names(files, base, rows, plan.upload, Upload)
    ensures forall u | u in plan.upload ::
              u.path in files && u.val.curSha == Sha(files[u.path]) && u.val.baseRev == BaseRev(base, u.path)
    ensures forall d | d in plan.deleteToRemote :: d.val.baseRev == BaseRev(base, d.path)
  {
    forall u | u in plan.upload
      ensures u.path in files && u.val.curSha == Sha(files[u.path]) && u.val.baseRev == BaseRev(base, u.path)
    {
      assert EntryOf(files, base, u.path) == Some(u.val);
      assert u.path in PathsOf(plan.upload);
    }
    forall d | d in plan.deleteToRemote ensures d.val.baseRev == BaseRev(base, d.path) {
      assert EntryOf(files, base, d.path) == Some(d.val);
    }
  }

  lemma KnownNames<T>(files: map<Path, Content>, base: map<Path, Base>, rows: map<Path, Row>,
                      local: seq<Item<Local>>, xs: seq<Item<T>>, v: Verdict)
    requires forall l | l in local :: EntryOf(files, base, l.path) == Some(l.val)
    requires PathsOf(local) == Scan(files).Keys + base.Keys
    requires Exactly(xs, PathsWith(local, rows, v)) && v != Leave && v != Download
    ensures Names(files, base, rows, xs, v)
  {
    forall p ensures p in PathsOf(xs) <==> VerdictAt(files, base, rows, p) == v {
      KnownVerdict(files, base, rows, local, p, v);
    }
  }

  lemma DownloadNames(files: map<Path, Content>, base: map<Path, Base>, rows: map<Path, Row>,
                      local: seq<Item<Local>>, known: seq<Item<Row>>, extra: seq<Item<Row>>)
    requires forall l | l in local :: EntryOf(files, base, l.path) == Some(l.val)
    requires PathsOf(local) == Scan(files).Keys + base.Keys
    requires Exactly(known, PathsWith(local, rows, Download)) && Exactly(extra, Unseen(local, rows).Keys)
    ensures Names(files, base, rows, known + extra, Download)
  {
    JoinPaths(known, extra);
    forall p
      ensures p in PathsOf(known + extra) <==> VerdictAt(files, base, rows, p) == Download
      ensures !(p in PathsOf(known) && p in PathsOf(extra))
    {
      KnownVerdict(files, base, rows, local, p, Download);
    }
  }

  lemma KnownVerdict(files: map<Path, Content>, base: map<Path, Base>, rows: map<Path, Row>,
                     local: seq<Item<Local>>, p: Path, v: Verdict)
    requires forall l | l in local :: EntryOf(files, base, l.path) == Some(l.val)
    ensures p in PathsWith(local, rows, v) <==> p in PathsOf(local) && VerdictAt(files, base, rows, p) == v
  {
    forall i | 0 <= i < |local| && local[i].path == p
      ensures Decide(local[i].val, At(rows, p)) == VerdictAt(files, base, rows, p)
    {
      assert local[i] in local;
    }
  }

  // What a plan never does: a path the manifest does not list is not downloaded, deleted here or declared in
  // conflict; an unedited file is not uploaded, deleted on the server or declared in conflict; a file is
  // deleted on the server only if it is gone here and the row has not moved, and here only if it is unedited
  // and the row is a tombstone.
  lemma MissingRowIsNoDeletion(files: map<Path, Content>, base: map<Path, Base>, rows: map<Path, Row>, plan: Plan, p: Path)
    requires PlanFits(files, base, rows, plan)
    ensures p !in rows ==> p !in PathsOf(plan.download) + PathsOf(plan.deleteToLocal) + PathsOf(plan.conflicts)
    ensures p in Scan(files) && p in base && base[p].sha == Sha(files[p]) ==>
              p !in PathsOf(plan.upload) + PathsOf(plan.deleteToRemote) + PathsOf(plan.conflicts)
    ensures p in PathsOf(plan.deleteToRemote) ==>
              p !in Scan(files) && p in base && (p in rows ==> !rows[p].deleted && rows[p].rev == base[p].rev)
    ensures p in PathsOf(plan.deleteToLocal) ==>
              p in Scan(files) && p in base && base[p].sha == Sha(files[p]) && p in rows && rows[p].deleted
  {
    VerdictIs(files, base, rows, plan, p);
    TableNever(CornerAt(files, base, rows, p));
  }

  // Membership in the five lists, read back as the verdict.
  lemma VerdictIs(files: map<Path, Content>, base: map<Path, Base>, rows: map<Path, Row>, plan: Plan, p: Path)
    requires PlanFits(files, base, rows, plan)
    ensures var v := VerdictAt(files, base, rows, p);
            && (p in PathsOf(plan.upload) <==> v == Upload) && (p in PathsOf(plan.download) <==> v == Download)
            && (p in PathsOf(plan.conflicts) <==> v == SaveBoth)
            && (p in PathsOf(plan.deleteToRemote) <==> v == DeleteToRemote)
            && (p in PathsOf(plan.deleteToLocal) <==> v == DeleteToLocal)
  {
  }

  lemma TableNever(c: Corner)
    ensures c.row.None? ==> Table(c) in {Leave, Upload, DeleteToRemote}
    ensures Unedited(c) ==> Table(c) in {Leave, Download, DeleteToLocal}
    ensures Table(c) == DeleteToRemote ==> c.file.None? && c.base.Some? && !ServerMoved(c)
    ensures Table(c) == DeleteToLocal ==> Unedited(c) && c.row.Some? && c.row.value.deleted
  {
  }
}
