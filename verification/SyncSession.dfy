/**
 The objects behind one synchronisation session (internal/sync/syncserver.go, internal/sync/server.go,
 internal/store/sync.go), each method proved to do exactly what SyncServer says.
 A session here runs alone; module Interleaving adds the project lock and other sessions.
 */
module SyncSessions {
  import opened Options
  import opened Listing
  import opened FileIndex
  import opened SyncServer
  import Paths

  /** The file_index table of one project. */
  class RevisionStore {
    var rows: map<Path, Row>
    ghost var history: map<Path, seq<Version>>

    constructor ()
      ensures rows == map[] && history == map[]
    {
      rows, history := map[], map[];
    }

    method Current(p: Path, fails: bool) returns (cur: Option<Current>)
      ensures cur == if fails then None else Some(CurrentOf(rows, p))
    {
      if fails {
        return None;
      }
      return Some(CurrentOf(rows, p));
    }

    method TotalSize(fails: bool) returns (used: Option<nat>)
      ensures used == if fails then None else Some(Used(rows))
    {
      if fails {
        return None;
      }
      var sum, rest := 0, rows;
      while rest != map[]
        invariant sum + Used(rest) == Used(rows)
        decreases |rest|
      {
        var p :| p in rest;
        UsedSplit(rest, p);
        sum, rest := sum + LiveSize(rest[p]), rest - {p};
      }
      return Some(sum);
    }

    // SELECT without ORDER BY: every row once, in some order.
    method Manifest(fails: bool) returns (entries: Option<seq<Item<Row>>>)
      ensures fails ==> entries == None
      ensures !fails ==> entries.Some? && Lists(entries.value, rows)
    {
      if fails {
        return None;
      }
      var out := Enumerate(rows);
      return Some(out);
    }

    // With `unheard` the row is written, but an error is reported all the same.
    method Commit(e: Item<Row>, author: Author, ghost base: int, fails: bool, unheard: bool) returns (ok: bool)
      modifies this
      ensures ok == !(fails || unheard)
      ensures fails ==> rows == old(rows) && history == old(history)
      ensures !fails ==> rows == old(rows)[e.path := e.val]
      ensures !fails ==> history == old(history)[e.path :=
        (if e.path in old(history) then old(history)[e.path] else []) + [Version(e.val, base, author)]]
    {
      if fails {
        return false;
      }
      rows := rows[e.path := e.val];
      history := history[e.path := (if e.path in history then history[e.path] else []) + [Version(e.val, base, author)]];
      return !unheard;
    }
  }

  /** A project directory: the visible files and, kept apart, the temp files. */
  class DirStore {
    var files: map<Path, Content>
    var temps: map<TempId, Content>

    constructor ()
      ensures files == map[] && temps == map[]
    {
      files, temps := map[], map[];
    }

    method WriteTemp(tmp: TempId, reader: Reader, maxBytes: nat, fails: bool) returns (staging: Staging)
      modifies this`temps
      ensures staging == SyncServer.WriteTemp(maxBytes, old(temps), tmp, reader, fails)
      ensures temps == if staging.Staged? then old(temps)[tmp := staging.content] else old(temps)
    {
      if fails || tmp in temps {
        return Unwritable;
      }
      var n := if |reader.body| <= maxBytes then |reader.body| else maxBytes + 1;
      temps := temps[tmp := reader.body[..n]];
      if n > maxBytes || reader.broken {
        temps := temps - {tmp};
        return if n > maxBytes then Oversized else Unwritable;
      }
      return Staged(temps[tmp]);
    }

    method Promote(rel: Path, tmp: TempId, fails: bool) returns (ok: bool)
      requires tmp in temps
      modifies this
      ensures ok == !fails
      ensures fails ==> files == old(files) && temps == old(temps)
      ensures !fails ==> files == old(files)[rel := old(temps)[tmp]] && temps == old(temps) - {tmp}
    {
      if fails {
        return false;
      }
      files, temps := files[rel := temps[tmp]], temps - {tmp};
      return true;
    }

    method Discard(tmp: TempId)
      modifies this`temps
      ensures temps == old(temps) - {tmp}
    {
      temps := temps - {tmp};
    }

    method Delete(rel: Path, fails: bool) returns (ok: bool)
      modifies this`files
      ensures ok == !fails
      ensures files == if fails then old(files) else old(files) - {rel}
    {
      if fails {
        return false;
      }
      files := files - {rel};
      return true;
    }

    // The scannable files, each once. The tree walk itself is module Walk.
    method ScanDir(fails: bool) returns (entries: Option<seq<Item<Row>>>)
      ensures fails ==> entries == None
      ensures !fails ==> entries.Some? && Lists(entries.value, ScanRows(files))
    {
      if fails {
        return None;
      }
      var out := Enumerate(ScanRows(files));
      return Some(out);
    }
  }

  // The entries of `news` for the paths already visited.
  function Visited(news: map<Path, Version>, paths: set<Path>): map<Path, Version> {
    map p | p in news && p in paths :: news[p]
  }

  // Dealing with one more path commits its version, unless it was dealt with before.
  lemma VisitStep(st: State, news: map<Path, Version>, paths: set<Path>, p: Path)
    ensures CommitAll(st, Visited(news, paths + {p})) ==
            var now := CommitAll(st, Visited(news, paths));
            if p in news && p !in paths then CommitAll(now, map[p := news[p]]) else now
  {
    if p in news && p !in paths {
      CommitAllTwice(st, Visited(news, paths), map[p := news[p]]);
      VisitedGrows(news, paths, p);
    } else {
      assert Visited(news, paths + {p}) == Visited(news, paths);
    }
  }

  lemma VisitedGrows(news: map<Path, Version>, paths: set<Path>, p: Path)
    requires p in news
    ensures Visited(news, paths + {p}) == Visited(news, paths) + map[p := news[p]]
  {
  }

  lemma VisitedAll(news: map<Path, Version>, paths: set<Path>)
    requires news.Keys <= paths
    ensures Visited(news, paths) == news
  {
  }

  lemma CommitNothing(st: State, news: map<Path, Version>)
    ensures CommitAll(st, Visited(news, {})) == st
  {
    assert Visited(news, {}) == map[];
    CommitNone(st);
  }

  // What the reconcile of st commits for p, if its commit does not fail.
  predicate Decided(st: State, news: map<Path, Version>, p: Path, fails: bool) {
    var v := Observe(st.index, Scan(st.disk), p);
    (p in news <==> v.Some? && !fails) && (p in news ==> v == Some(news[p]))
  }

  lemma DecidedMissing(st: State, news: map<Path, Version>, r: Item<Row>, fails: bool)
    requires Decided(st, news, r.path, fails) && r.path !in Scan(st.disk).Keys
    requires r.path in st.index && r.val == st.index[r.path] && !r.val.deleted
    ensures r.path in news <==> !fails
    ensures !fails ==> news[r.path] == Version(Row(0, NoDigest, r.val.rev + 1, true), r.val.rev, Cloud)
  {
  }

  // What the loop over the rows does with one of them.
  lemma RowStep(st: State, news: map<Path, Version>, seen: set<Path>, done: set<Path>, r: Item<Row>, fails: bool)
    requires seen == Scan(st.disk).Keys && seen <= done && (r.path in done ==> r.path in seen)
    requires r.path in st.index && r.val == st.index[r.path] && Decided(st, news, r.path, fails)
    ensures CommitAll(st, Visited(news, done + {r.path})) ==
            var now := CommitAll(st, Visited(news, done));
            if !r.val.deleted && r.path !in seen && !fails then
              CommitAll(now, map[r.path := Version(Row(0, NoDigest, r.val.rev + 1, true), r.val.rev, Cloud)])
            else now
  {
    VisitStep(st, news, done, r.path);
    if !r.val.deleted && r.path !in seen {
      DecidedMissing(st, news, r, fails);
    }
  }

  /** One client's session on the server side. */
  class SyncSession {
    const device: string
    const mode: Mode
    const cfg: Config
    const store: RevisionStore
    const dir: DirStore

    constructor (device: string, mode: Mode, cfg: Config, store: RevisionStore, dir: DirStore)
      ensures this.device == device && this.mode == mode && this.cfg == cfg
      ensures this.store == store && this.dir == dir
    {
      this.device, this.mode, this.cfg, this.store, this.dir := device, mode, cfg, store, dir;
    }

    ghost function Abs(): State
      reads store, dir
    {
      State(store.rows, store.history, dir.files, dir.temps)
    }

    method CommitRow(e: Item<Row>, author: Author, ghost base: int, fails: bool, unheard: bool) returns (ok: bool)
      modifies store
      ensures ok == !(fails || unheard)
      ensures Abs() == if fails then old(Abs()) else CommitAll(old(Abs()), map[e.path := Version(e.val, base, author)])
    {
      CommitOne(Abs(), e.path, Version(e.val, base, author));
      ok := store.Commit(e, author, base, fails, unheard);
    }

    method HandlePut(path: string, base: int, declared: Digest, reader: Reader, tmp: TempId, faults: PutFaults)
      returns (result: Result)
      modifies store, dir
      ensures Outcome(Abs(), result) ==
              Put(cfg, old(Abs()), PutCall(path, base, declared, reader, mode, device, tmp, faults))
    {
      var safe := Paths.SafeRelPath(path);
      if safe.None? {
        return Reject(UnsafePath);
      }
      var rel := safe.value;
      var current := store.Current(rel, faults.current);
      if current.None? {
        return Reject(Internal);
      }
      var cur := current.value;
      if !BaseMatches(cur, base) {
        return Reject(Conflict);
      }
      var staging := dir.WriteTemp(tmp, reader, cfg.maxBytes, faults.temp);
      if staging.Oversized? {
        return Reject(TooLarge);
      }
      if staging.Unwritable? {
        return Reject(Internal);
      }
      result := PromoteStaged(rel, cur, base, declared, staging.content, tmp, faults);
      assert old(dir.temps)[tmp := staging.content] - {tmp} == old(dir.temps);
    }

    // The rest of HandlePut, once the bytes are in a temp file.
    method PromoteStaged(rel: Path, cur: Current, base: int, declared: Digest, content: Content, tmp: TempId,
                         faults: PutFaults)
      returns (result: Result)
      requires tmp in dir.temps && dir.temps[tmp] == content
      modifies store, dir
      ensures var before := old(Abs()).(temps := old(dir.temps) - {tmp});
              Outcome(Abs(), result) == PutStaged(cfg, before, rel, cur, base, declared, content, mode, device, faults)
    {
      if Sha(content) != declared {
        dir.Discard(tmp);
        return Reject(ShaMismatch);
      }
      if mode == Cleanup && |content| >= cur.size {
        dir.Discard(tmp);
        return Reject(ReadonlyMode);
      }
      var used := store.TotalSize(faults.total);
      if used.None? {
        dir.Discard(tmp);
        return Reject(Internal);
      }
      if !GateAllows(cfg.limit, used.value, cur.size, |content|) {
        dir.Discard(tmp);
        return Reject(DiskFull);
      }
      var promoted := dir.Promote(rel, tmp, faults.promote);
      if !promoted {
        dir.Discard(tmp);
        return Reject(Internal);
      }
      result := CommitPut(rel, cur, base, content, faults.commit, faults.unheard);
    }

    // The last step of HandlePut, once the file is in place.
    method CommitPut(rel: Path, cur: Current, base: int, content: Content, fails: bool, unheard: bool)
      returns (result: Result)
      modifies store
      ensures Outcome(Abs(), result) ==
              if fails then Outcome(old(Abs()), Reject(Internal))
              else Outcome(CommitAll(old(Abs()), map[rel := PutVersion(cur, content, base, device)]),
                           Confirmed(cur.rev + 1, unheard))
    {
      var row := Row(|content|, Sha(content), cur.rev + 1, false);
      assert PutVersion(cur, content, base, device) == Version(row, base, Client(device));
      var committed := CommitRow(Item(rel, row), Client(device), base, fails, unheard);
      return if committed then Ok(cur.rev + 1) else Reject(Internal);
    }

    method HandleDelete(path: string, base: int, faults: DeleteFaults) returns (result: Result)
      modifies store, dir
      ensures Outcome(Abs(), result) == SyncServer.Delete(old(Abs()), DeleteCall(path, base, device, faults))
    {
      var safe := Paths.SafeRelPath(path);
      if safe.None? {
        return Reject(UnsafePath);
      }
      var rel := safe.value;
      var current := store.Current(rel, faults.current);
      if current.None? {
        return Reject(Internal);
      }
      var cur := current.value;
      if cur.found && cur.rev != base {
        return Reject(Conflict);
      }
      if !cur.found {
        return Ok(base);
      }
      var removed := dir.Delete(rel, faults.remove);
      if !removed {
        return Reject(Internal);
      }
      result := CommitDelete(rel, cur, DeleteCall(path, base, device, faults));
    }

    // The last step of HandleDelete, once the file is gone.
    method CommitDelete(rel: Path, cur: Current, c: DeleteCall) returns (result: Result)
      requires c.device == device
      modifies store
      ensures Outcome(Abs(), result) ==
              if c.faults.commit then Outcome(old(Abs()), Reject(Internal))
              else Outcome(CommitAll(old(Abs()), map[rel := DeleteVersion(cur, c)]),
                           Confirmed(cur.rev + 1, c.faults.unheard))
    {
      var row := Row(0, NoDigest, cur.rev + 1, true);
      assert DeleteVersion(cur, c) == Version(row, c.base, Client(device));
      var committed := CommitRow(Item(rel, row), Client(device), c.base, c.faults.commit, c.faults.unheard);
      return if committed then Ok(cur.rev + 1) else Reject(Internal);
    }

    // The loop over scanned files: commits what is new or changed and returns the paths seen. What the
    // store answers is ignored, so all that matters about a commit is whether its row is written.
    method ObserveFiles(scanned: seq<Item<Row>>, idx: map<Path, Row>, failed: set<Path>,
                        ghost st: State, ghost news: map<Path, Version>) returns (seen: set<Path>)
      requires Abs() == st && idx == st.index && Lists(scanned, ScanRows(st.disk))
      requires forall p :: Decided(st, news, p, p in failed)
      modifies store
      ensures seen == Scan(st.disk).Keys && Abs() == CommitAll(st, Visited(news, seen))
    {
      DistinctMeaning(scanned);
      CommitNothing(st, news);
      seen := {};
      for i := 0 to |scanned|
        invariant seen == PathsOf(scanned[..i])
        invariant Abs() == CommitAll(st, Visited(news, seen))
      {
        var f := scanned[i];
        PathsGrow(scanned, i);
        VisitStep(st, news, seen, f.path);
        assert Decided(st, news, f.path, f.path in failed) && f.path in ScanRows(st.disk);
        seen := seen + {f.path};
        var cur := CurrentOf(idx, f.path);
        if !(f.path in idx && !idx[f.path].deleted && idx[f.path].sha == f.val.sha) {
          var _ := CommitRow(Item(f.path, Row(f.val.size, f.val.sha, cur.rev + 1, false)), Cloud, cur.rev, f.path in failed, false);
        }
      }
      assert scanned[..|scanned|] == scanned;
    }

    // The loop over the rows read before: live ones that were not seen become tombstones.
    method ObserveRows(remote: seq<Item<Row>>, seen: set<Path>, failed: set<Path>,
                       ghost st: State, ghost news: map<Path, Version>)
      requires Lists(remote, st.index) && seen == Scan(st.disk).Keys
      requires Abs() == CommitAll(st, Visited(news, seen))
      requires forall p :: Decided(st, news, p, p in failed)
      modifies store
      ensures Abs() == CommitAll(st, Visited(news, seen + st.index.Keys))
    {
      DistinctMeaning(remote);
      ghost var done := seen;
      for j := 0 to |remote|
        invariant done == seen + PathsOf(remote[..j])
        invariant Abs() == CommitAll(st, Visited(news, done))
      {
        var r := remote[j];
        PathsGrow(remote, j);
        assert r.path in st.index && r.val == st.index[r.path] && Decided(st, news, r.path, r.path in failed);
        RowStep(st, news, seen, done, r, r.path in failed);
        if !r.val.deleted && r.path !in seen {
          var _ := CommitRow(Item(r.path, Row(0, NoDigest, r.val.rev + 1, true)), Cloud, r.val.rev, r.path in failed, false);
        }
        done := done + {r.path};
      }
      assert remote[..|remote|] == remote;
    }

    method ReconcileCloud(faults: ScanFaults)
      modifies store
      ensures Abs() == Reconcile(old(Abs()), faults)
    {
      var scan := dir.ScanDir(faults.scan);
      if scan.None? {
        return;
      }
      var manifest := store.Manifest(faults.manifest);
      if manifest.None? {
        return;
      }
      ghost var st := Abs();
      ghost var news := Observations(st.index, Scan(st.disk), faults.commits);
      forall p ensures Decided(st, news, p, p in faults.commits) {
        ObservationsAt(st.index, Scan(st.disk), faults.commits, p);
      }
      var seen := ObserveFiles(scan.value, ToMap(manifest.value), faults.commits, st, news);
      ObserveRows(manifest.value, seen, faults.commits, st, news);
      VisitedAll(news, seen + st.index.Keys);
    }

    // Reconciles, then reads every row, tombstones included.
    method HandleManifest(faults: ScanFaults, fails: bool) returns (entries: Option<seq<Item<Row>>>)
      modifies store
      ensures Abs() == Reconcile(old(Abs()), faults)
      ensures fails ==> entries == None
      ensures !fails ==> entries.Some? && Lists(entries.value, Abs().index)
    {
      ReconcileCloud(faults);
      entries := store.Manifest(fails);
    }

    method HandleGet(path: string, fails: bool) returns (file: Fetched)
      ensures file == Get(Abs(), path, fails)
    {
      var safe := Paths.SafeRelPath(path);
      if safe.None? {
        return NotFound;
      }
      var rel := safe.value;
      var current := store.Current(rel, fails);
      if current.None? || !current.value.found || rel !in dir.files {
        return NotFound;
      }
      return File(current.value.rev, current.value.size, dir.files[rel]);
    }
  }
}
