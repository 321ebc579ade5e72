/** What a reconcile pass achieves, and how it repairs a request whose commit failed. */
module Reconciling {
  import opened Options
  import opened Listing
  import opened FileIndex
  import opened SyncServer
  import opened ServerRuns
  import Paths

  const CLEAN_SCAN := ScanFaults(false, false, {})

  // The live rows, by digest.
  function LiveDigests(index: map<Path, Row>): map<Path, Digest> {
    map p | p in index && !index[p].deleted :: index[p].sha
  }

  function Digests(files: map<Path, Content>): map<Path, Digest> {
    map p | p in files :: Sha(files[p])
  }

  // Index and disk agree: the live rows are the scannable files.
  predicate Agrees(st: State) {
    LiveDigests(st.index) == Digests(Scan(st.disk))
  }

  // Index and disk agree about p.
  predicate AgreesAt(st: State, p: Path) {
    && (p in Scan(st.disk) <==> p in st.index && !st.index[p].deleted)
    && (p in Scan(st.disk) ==> st.index[p].sha == Sha(st.disk[p]))
  }

  lemma AgreesEverywhere(st: State)
    ensures Agrees(st) <==> forall p :: AgreesAt(st, p)
  {
    var live, scan := LiveDigests(st.index), Digests(Scan(st.disk));
    if forall p :: AgreesAt(st, p) {
      forall p ensures p in live <==> p in scan {
        assert AgreesAt(st, p);
      }
      forall p | p in live ensures live[p] == scan[p] {
        assert AgreesAt(st, p);
      }
    }
    if Agrees(st) {
      forall p ensures AgreesAt(st, p) {
        assert p in live <==> p in scan;
      }
    }
  }

  // What reconcile decides to commit for p.
  lemma ObserveMeaning(st: State, p: Path)
    ensures var v, rev := Observe(st.index, Scan(st.disk), p), RevAt(st, p);
            if AgreesAt(st, p) then v.None?
            else v == Some(Version(
              if p in Scan(st.disk) then Row(|st.disk[p]|, Sha(st.disk[p]), rev + 1, false) else Row(0, NoDigest, rev + 1, true),
              rev, Cloud))
  {
  }

  // The effect on one row: untouched where index and disk agreed, its commit or the whole pass failed,
  // one revision up everywhere else.
  lemma ReconcileAt(st: State, f: ScanFaults, p: Path)
    ensures var st' := Reconcile(st, f);
            if f.scan || f.manifest || AgreesAt(st, p) || p in f.commits then
              RowAt(st', p) == RowAt(st, p) && History(st', p) == History(st, p)
            else
              RowAt(st', p) == Some(
                if p in Scan(st.disk) then Row(|st.disk[p]|, Sha(st.disk[p]), RevAt(st, p) + 1, false)
                else Row(0, NoDigest, RevAt(st, p) + 1, true))
  {
    ObserveMeaning(st, p);
    ObservationsAt(st.index, Scan(st.disk), f.commits, p);
    CommitAllAt(st, Observations(st.index, Scan(st.disk), f.commits), p);
  }

  lemma AgreeingIsQuiet(st: State)
    requires Agrees(st)
    ensures Reconcile(st, CLEAN_SCAN) == st
  {
    AgreesEverywhere(st);
    assert forall p :: AgreesAt(st, p) ==> Observe(st.index, Scan(st.disk), p).None?;
    assert Observations(st.index, Scan(st.disk), {}) == map[];
    CommitNone(st);
  }

  // An undisturbed reconcile makes the live rows equal the files on disk, leaves rows that already
  // agreed alone and raises the others by one, lists no excluded path, and repeating it commits nothing.
  lemma ReconcileSettles(st: State)
    ensures var st' := Reconcile(st, CLEAN_SCAN);
            && Agrees(st') && st'.disk == st.disk && st'.temps == st.temps
            && (forall p :: RevAt(st', p) == RevAt(st, p) + if AgreesAt(st, p) then 0 else 1)
            && (forall p | p in st.index && AgreesAt(st, p) :: p in st'.index && st'.index[p] == st.index[p])
            && (forall p | p in st'.index && !st'.index[p].deleted :: !Paths.DefaultExcluded(p))
            && Reconcile(st', CLEAN_SCAN) == st'
  {
    var st' := Reconcile(st, CLEAN_SCAN);
    forall p
      ensures AgreesAt(st', p) && RevAt(st', p) == RevAt(st, p) + if AgreesAt(st, p) then 0 else 1
      ensures p in st.index && AgreesAt(st, p) ==> p in st'.index && st'.index[p] == st.index[p]
    {
      ReconcileAt(st, CLEAN_SCAN, p);
    }
    AgreesEverywhere(st');
    AgreeingIsQuiet(st');
  }

  // ---------- Repairing a failed commit ----------

  // A put whose commit failed, then a reconcile: the row is the one the put would have committed
  // exactly when the path is one reconcile looks at and the bytes differ from the live row's.
  lemma LostPutCommitHeals(cfg: Config, st: State, c: PutCall)
    requires Put(cfg, st, c).result.Ok?
    ensures var rel := Paths.SafeRelPath(c.path).value;
            RowAt(Reconcile(Put(cfg, st, LosingCommit(c)).st, CLEAN_SCAN), rel) == RowAt(Put(cfg, st, c).st, rel) <==>
            (Paths.Scannable(rel) && !(rel in st.index && !st.index[rel].deleted && st.index[rel].sha == c.declared))
  {
    var rel := Paths.SafeRelPath(c.path).value;
    WrittenRow(cfg, st, c);
    PutCommitLost(cfg, st, c);
    WrittenFileHeals(st, rel, c.reader.body, Put(cfg, st, LosingCommit(c)).st, Put(cfg, st, c).st);
  }

  lemma WrittenRow(cfg: Config, st: State, c: PutCall)
    requires Put(cfg, st, c).result.Ok?
    ensures var rel, body := Paths.SafeRelPath(c.path).value, c.reader.body;
            c.declared == Sha(body) && RowAt(Put(cfg, st, c).st, rel) == Some(Row(|body|, Sha(body), RevAt(st, rel) + 1, false))
  {
    PutAccepted(cfg, st, c);
  }

  lemma WrittenFileHeals(st: State, rel: Path, body: Content, lost: State, done: State)
    requires lost == st.(disk := st.disk[rel := body])
    requires RowAt(done, rel) == Some(Row(|body|, Sha(body), RevAt(st, rel) + 1, false))
    ensures RowAt(Reconcile(lost, CLEAN_SCAN), rel) == RowAt(done, rel) <==>
            (Paths.Scannable(rel) && !(rel in st.index && !st.index[rel].deleted && st.index[rel].sha == Sha(body)))
  {
    WrittenFileAgrees(st, rel, body);
    ReconcileAt(lost, CLEAN_SCAN, rel);
  }

  // A scan finds nothing new in a file that has just been written exactly if it lists the file and the row
  // is live with its digest, or neither.
  lemma WrittenFileAgrees(st: State, rel: Path, body: Content)
    ensures AgreesAt(st.(disk := st.disk[rel := body]), rel) <==>
            var live := rel in st.index && !st.index[rel].deleted;
            if Paths.Scannable(rel) then live && st.index[rel].sha == Sha(body) else !live
  {
  }

  // Likewise a delete of a known path whose commit failed: repaired exactly when the row was live.
  lemma LostDeleteCommitHeals(st: State, c: DeleteCall)
    requires Delete(st, c).result.Ok? && Paths.SafeRelPath(c.path).value in st.index
    ensures var rel := Paths.SafeRelPath(c.path).value;
            RowAt(Reconcile(Delete(st, LosingDeleteCommit(c)).st, CLEAN_SCAN), rel) == RowAt(Delete(st, c).st, rel) <==> !st.index[rel].deleted
  {
    var rel := Paths.SafeRelPath(c.path).value;
    DeletedRow(st, c);
    DeleteCommitLost(st, c);
    TombstoneIff(st, rel, Delete(st, LosingDeleteCommit(c)).st, Delete(st, c).st);
  }

  lemma TombstoneIff(st: State, rel: Path, lost: State, done: State)
    requires rel in st.index && lost == st.(disk := st.disk - {rel})
    requires RowAt(done, rel) == Some(Row(0, NoDigest, st.index[rel].rev + 1, true))
    ensures RowAt(Reconcile(lost, CLEAN_SCAN), rel) == RowAt(done, rel) <==> !st.index[rel].deleted
  {
    RemovedFileHeals(st, rel);
  }

  lemma DeletedRow(st: State, c: DeleteCall)
    requires Delete(st, c).result.Ok? && Paths.SafeRelPath(c.path).value in st.index
    ensures var rel := Paths.SafeRelPath(c.path).value;
            RowAt(Delete(st, c).st, rel) == Some(Row(0, NoDigest, st.index[rel].rev + 1, true))
  {
    DeleteAccepted(st, c);
  }

  lemma RemovedFileHeals(st: State, rel: Path)
    requires rel in st.index
    ensures RowAt(Reconcile(st.(disk := st.disk - {rel}), CLEAN_SCAN), rel) ==
            Some(if st.index[rel].deleted then st.index[rel] else Row(0, NoDigest, st.index[rel].rev + 1, true))
  {
    ReconcileAt(st.(disk := st.disk - {rel}), CLEAN_SCAN, rel);
  }
}
