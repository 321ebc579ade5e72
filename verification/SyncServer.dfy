/**
 The server's operations on one project as functions on its state: what HandlePut, HandleDelete,
 reconcileCloud and HandleGet of internal/sync/syncserver.go do when each runs alone.
 Failures of the store and of the file system are parameters.
 */
module SyncServer {
  import opened Options
  import opened Listing
  import opened FileIndex
  import Paths

  datatype Mode = ReadWrite | Cleanup

  datatype Config = Config(maxBytes: nat, limit: int)

  datatype Reason =
    | Conflict | DiskFull | ShaMismatch | UnsafePath | ReadonlyMode | TooLarge | Internal | NoSuchFile

  datatype Result = Ok(rev: int) | Reject(reason: Reason)

  datatype Outcome = Outcome(st: State, result: Result)

  // ---------- Requests ----------

  // A content stream: the bytes it delivers, then end of file or an error.
  datatype Reader = Reader(body: Content, broken: bool)

  // `commit`: the row is not written. `unheard`: it is written, but the store reports an error all the same.
  datatype PutFaults = PutFaults(current: bool, temp: bool, total: bool, promote: bool, commit: bool, unheard: bool)
  datatype DeleteFaults = DeleteFaults(current: bool, remove: bool, commit: bool, unheard: bool)
  datatype ScanFaults = ScanFaults(scan: bool, manifest: bool, commits: set<Path>)

  datatype PutCall = PutCall(
    path: string, base: int, declared: Digest, reader: Reader, mode: Mode, device: string,
    tmp: TempId, faults: PutFaults)
  datatype DeleteCall = DeleteCall(path: string, base: int, device: string, faults: DeleteFaults)

  // ---------- Reading ----------

  // What Store.Current returns for a path.
  datatype Current = Current(rev: nat, size: nat, found: bool)

  function CurrentOf(index: map<Path, Row>, p: Path): Current {
    if p in index then Current(index[p].rev, index[p].size, true) else Current(0, 0, false)
  }

  predicate BaseMatches(cur: Current, base: int) {
    if cur.found then cur.rev == base else base == 0
  }

  datatype Fetched = NotFound | File(rev: nat, size: nat, content: Content)

  // HandleGet: the row's revision and size next to the bytes on disk; no digest.
  function Get(st: State, path: string, fails: bool): Fetched {
    match Paths.SafeRelPath(path)
    case None => NotFound
    case Some(rel) =>
      if fails || rel !in st.index || rel !in st.disk then NotFound
      else File(st.index[rel].rev, st.index[rel].size, st.disk[rel])
  }

  // ---------- Put ----------

  datatype Staging = Staged(content: Content) | Oversized | Unwritable

  // DirStore.WriteTemp: exclusive creation, then at most maxBytes+1 bytes of the stream.
  function WriteTemp(maxBytes: nat, temps: map<TempId, Content>, tmp: TempId, reader: Reader, fails: bool): Staging {
    if fails || tmp in temps then Unwritable
    else if |reader.body| > maxBytes then Oversized
    else if reader.broken then Unwritable
    else Staged(reader.body)
  }

  ghost function Put(cfg: Config, st: State, c: PutCall): Outcome {
    match Paths.SafeRelPath(c.path)
    case None => Outcome(st, Reject(UnsafePath))
    case Some(rel) =>
      var cur := CurrentOf(st.index, rel);
      if c.faults.current then Outcome(st, Reject(Internal))
      else if !BaseMatches(cur, c.base) then Outcome(st, Reject(Conflict))
      else match WriteTemp(cfg.maxBytes, st.temps, c.tmp, c.reader, c.faults.temp)
        case Oversized => Outcome(st, Reject(TooLarge))
        case Unwritable => Outcome(st, Reject(Internal))
        case Staged(content) =>
          PutStaged(cfg, st, rel, cur, c.base, c.declared, content, c.mode, c.device, c.faults)
  }

  // From the digest check to the commit, for bytes already in a temp file.
  ghost function PutStaged(cfg: Config, st: State, rel: Path, cur: Current, base: int, declared: Digest,
                           content: Content, mode: Mode, device: string, faults: PutFaults): Outcome {
    if Sha(content) != declared then Outcome(st, Reject(ShaMismatch))
    else if mode == Cleanup && |content| >= cur.size then Outcome(st, Reject(ReadonlyMode))
    else if faults.total then Outcome(st, Reject(Internal))
    else if !GateAllows(cfg.limit, Used(st.index), cur.size, |content|) then Outcome(st, Reject(DiskFull))
    else if faults.promote then Outcome(st, Reject(Internal))
    else
      var promoted := st.(disk := st.disk[rel := content]);
      if faults.commit then Outcome(promoted, Reject(Internal))
      else Outcome(CommitAll(promoted, map[rel := PutVersion(cur, content, base, device)]),
                   Confirmed(cur.rev + 1, faults.unheard))
  }

  // The answer once the row is written.
  function Confirmed(rev: int, unheard: bool): Result {
    if unheard then Reject(Internal) else Ok(rev)
  }

  function PutVersion(cur: Current, content: Content, base: int, device: string): Version {
    Version(Row(|content|, Sha(content), cur.rev + 1, false), base, Client(device))
  }

  // ---------- Delete ----------

  function Delete(st: State, c: DeleteCall): Outcome {
    match Paths.SafeRelPath(c.path)
    case None => Outcome(st, Reject(UnsafePath))
    case Some(rel) =>
      var cur := CurrentOf(st.index, rel);
      if c.faults.current then Outcome(st, Reject(Internal))
      else if cur.found && cur.rev != c.base then Outcome(st, Reject(Conflict))
      else if !cur.found then Outcome(st, Ok(c.base))
      else if c.faults.remove then Outcome(st, Reject(Internal))
      else
        var removed := st.(disk := st.disk - {rel});
        if c.faults.commit then Outcome(removed, Reject(Internal))
        else Outcome(CommitAll(removed, map[rel := DeleteVersion(cur, c)]), Confirmed(cur.rev + 1, c.faults.unheard))
  }

  function DeleteVersion(cur: Current, c: DeleteCall): Version {
    Version(Row(0, NoDigest, cur.rev + 1, true), c.base, Client(c.device))
  }

  // ---------- Reconcile ----------

  // ScanDir on a flat file map.
  function Scan(disk: map<Path, Content>): map<Path, Content> {
    map p | p in disk && Paths.Scannable(p) :: disk[p]
  }

  // What ScanDir reports for the files it lists: size and digest, no revision.
  function ScanRows(disk: map<Path, Content>): map<Path, Row> {
    map p | p in Scan(disk) :: Row(|disk[p]|, Sha(disk[p]), 0, false)
  }

  // The version reconcileCloud commits for one path, if any.
  function Observe(index: map<Path, Row>, scan: map<Path, Content>, p: Path): Option<Version> {
    var cur := CurrentOf(index, p);
    if p in scan then
      if p in index && !index[p].deleted && index[p].sha == Sha(scan[p]) then None
      else Some(Version(Row(|scan[p]|, Sha(scan[p]), cur.rev + 1, false), cur.rev, Cloud))
    else if p in index && !index[p].deleted then
      Some(Version(Row(0, NoDigest, cur.rev + 1, true), cur.rev, Cloud))
    else None
  }

  // Everything a reconcile commits when the commits of the paths in `failed` fail.
  function Observations(index: map<Path, Row>, scan: map<Path, Content>, failed: set<Path>): map<Path, Version> {
    map p | p in index.Keys + scan.Keys && Observe(index, scan, p).Some? && p !in failed ::
      Observe(index, scan, p).value
  }

  lemma ObservationsAt(index: map<Path, Row>, scan: map<Path, Content>, failed: set<Path>, p: Path)
    ensures var news, v := Observations(index, scan, failed), Observe(index, scan, p);
            (p in news <==> v.Some? && p !in failed) && (p in news ==> v == Some(news[p]))
  {
  }

  function Reconcile(st: State, f: ScanFaults): State {
    if f.scan || f.manifest then st
    else CommitAll(st, Observations(st.index, Scan(st.disk), f.commits))
  }

  // ---------- Runs ----------

  // Anything that happens to a project: client requests, reconciles, and edits made in the container.
  datatype Step =
    | DoPut(put: PutCall)
    | DoDelete(delete: DeleteCall)
    | DoReconcile(faults: ScanFaults)
    | CloudWrite(path: Path, content: Content)
    | CloudRemove(path: Path)

  ghost function Apply(cfg: Config, st: State, step: Step): State {
    match step
    case DoPut(c) => Put(cfg, st, c).st
    case DoDelete(c) => Delete(st, c).st
    case DoReconcile(f) => Reconcile(st, f)
    case CloudWrite(p, content) => st.(disk := st.disk[p := content])
    case CloudRemove(p) => st.(disk := st.disk - {p})
  }

  ghost function Run(cfg: Config, st: State, steps: seq<Step>): State
    decreases |steps|
  {
    if steps == [] then st else Run(cfg, Apply(cfg, st, steps[0]), steps[1..])
  }

  lemma {:induction false} RunConcat(cfg: Config, st: State, a: seq<Step>, b: seq<Step>)
    ensures Run(cfg, st, a + b) == Run(cfg, Run(cfg, st, a), b)
    decreases |a|
  {
    if a == [] {
      assert a + b == b;
    } else {
      assert (a + b)[1..] == a[1..] + b;
      RunConcat(cfg, Apply(cfg, st, a[0]), a[1..], b);
    }
  }
}
