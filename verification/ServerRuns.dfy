/** What every run of the server's operations keeps, and what single operations promise. */
module ServerRuns {
  import opened Options
  import opened Listing
  import opened FileIndex
  import opened SyncServer
  import Paths

  // ---------- Commits whose answer is an error ----------

  // The same request, except that an error is reported only for a commit that failed.
  function HeardPut(c: PutCall): PutCall {
    c.(faults := c.faults.(unheard := false))
  }

  function HeardDelete(c: DeleteCall): DeleteCall {
    c.(faults := c.faults.(unheard := false))
  }

  // The same request with a commit that writes its row and says so.
  function SurePut(c: PutCall): PutCall {
    c.(faults := c.faults.(commit := false, unheard := false))
  }

  function SureDelete(c: DeleteCall): DeleteCall {
    c.(faults := c.faults.(commit := false, unheard := false))
  }

  // An error reported for a row that was written does nothing but turn acceptance into a rejection.
  lemma PutUnheard(cfg: Config, st: State, c: PutCall)
    ensures var heard := Put(cfg, st, HeardPut(c));
            Put(cfg, st, c) ==
            Outcome(heard.st, if heard.result.Ok? then Confirmed(heard.result.rev, c.faults.unheard) else heard.result)
  {
  }

  lemma DeleteUnheard(st: State, c: DeleteCall)
    ensures var heard := Delete(st, HeardDelete(c));
            && Delete(st, c).st == heard.st
            && Delete(st, c).result ==
               if heard.st.index != st.index then Confirmed(heard.result.rev, c.faults.unheard) else heard.result
  {
  }

  // ---------- Revisions ----------

  lemma PutKeepsConsistent(cfg: Config, st: State, c: PutCall)
    requires Consistent(st)
    ensures Consistent(Put(cfg, st, c).st) && Extends(st, Put(cfg, st, c).st)
  {
    PutUnheard(cfg, st, c);
    HeardPutKeepsConsistent(cfg, st, HeardPut(c));
  }

  lemma HeardPutKeepsConsistent(cfg: Config, st: State, c: PutCall)
    requires Consistent(st) && !c.faults.unheard
    ensures Consistent(Put(cfg, st, c).st) && Extends(st, Put(cfg, st, c).st)
  {
    if Put(cfg, st, c).result.Ok? {
      var rel, v := PutCommitsOne(cfg, st, c);
      CommitOneKeeps(st, st.(disk := st.disk[rel := c.reader.body]), rel, v);
    } else {
      SameRows(st, Put(cfg, st, c).st);
    }
  }

  // The commit of an accepted put follows the path's last version.
  lemma PutCommitsOne(cfg: Config, st: State, c: PutCall) returns (rel: Path, v: Version)
    requires Put(cfg, st, c).result.Ok?
    ensures Put(cfg, st, c).st == CommitAll(st.(disk := st.disk[rel := c.reader.body]), map[rel := v])
    ensures Follows(st, rel, v)
  {
    rel := Paths.SafeRelPath(c.path).value;
    v := PutVersion(CurrentOf(st.index, rel), c.reader.body, c.base, c.device);
    PutIs(cfg, st, c, rel, v);
    BaseFollows(st, rel, v);
  }

  lemma PutIs(cfg: Config, st: State, c: PutCall, rel: Path, v: Version)
    requires Put(cfg, st, c).result.Ok? && Paths.SafeRelPath(c.path) == Some(rel)
    requires v == PutVersion(CurrentOf(st.index, rel), c.reader.body, c.base, c.device)
    ensures Put(cfg, st, c).st == CommitAll(st.(disk := st.disk[rel := c.reader.body]), map[rel := v])
    ensures BaseMatches(CurrentOf(st.index, rel), v.base)
  {
  }

  lemma BaseFollows(st: State, rel: Path, v: Version)
    requires BaseMatches(CurrentOf(st.index, rel), v.base) && v.row.rev == CurrentOf(st.index, rel).rev + 1 && WellFormed(v.row)
    ensures Follows(st, rel, v)
  {
  }

  lemma DeleteKeepsConsistent(st: State, c: DeleteCall)
    requires Consistent(st)
    ensures Consistent(Delete(st, c).st) && Extends(st, Delete(st, c).st)
  {
    DeleteUnheard(st, c);
    HeardDeleteKeepsConsistent(st, HeardDelete(c));
  }

  lemma HeardDeleteKeepsConsistent(st: State, c: DeleteCall)
    requires Consistent(st) && !c.faults.unheard
    ensures Consistent(Delete(st, c).st) && Extends(st, Delete(st, c).st)
  {
    var rel := Paths.SafeRelPath(c.path);
    if Delete(st, c).result.Ok? && rel.value in st.index {
      CommitOneKeeps(st, st.(disk := st.disk - {rel.value}), rel.value, DeleteVersion(CurrentOf(st.index, rel.value), c));
    } else {
      SameRows(st, Delete(st, c).st);
    }
  }

  lemma ApplyKeepsConsistent(cfg: Config, st: State, step: Step)
    requires Consistent(st)
    ensures Consistent(Apply(cfg, st, step)) && Extends(st, Apply(cfg, st, step))
  {
    match step
    case DoPut(c) => PutKeepsConsistent(cfg, st, c);
    case DoDelete(c) => DeleteKeepsConsistent(st, c);
    case DoReconcile(f) => ReconcileKeepsConsistent(st, f);
    case _ => SameRows(st, Apply(cfg, st, step));
  }

  lemma SameRows(st: State, st': State)
    requires st'.index == st.index && st'.history == st.history
    ensures Consistent(st) ==> Consistent(st')
    ensures Extends(st, st')
  {
    assert forall p :: RowIsLast(st, p) ==> RowIsLast(st', p);
  }

  lemma CommitOneKeeps(st: State, moved: State, p: Path, v: Version)
    requires Consistent(st) && Follows(st, p, v)
    requires moved.index == st.index && moved.history == st.history
    ensures Consistent(CommitAll(moved, map[p := v])) && Extends(st, CommitAll(moved, map[p := v]))
  {
    SameRows(st, moved);
    CommitAllKeepsConsistent(moved, map[p := v]);
    CommitAllExtends(moved, map[p := v]);
    forall q ensures History(st, q) <= History(CommitAll(moved, map[p := v]), q) {
      assert History(moved, q) <= History(CommitAll(moved, map[p := v]), q);
    }
  }

  lemma ReconcileKeepsConsistent(st: State, f: ScanFaults)
    requires Consistent(st)
    ensures Consistent(Reconcile(st, f)) && Extends(st, Reconcile(st, f))
  {
    if f.scan || f.manifest {
      SameRows(st, st);
    } else {
      var news := Observations(st.index, Scan(st.disk), f.commits);
      CommitAllKeepsConsistent(st, news);
      CommitAllExtends(st, news);
    }
  }

  lemma {:induction false} RunKeepsConsistent(cfg: Config, st: State, steps: seq<Step>)
    requires Consistent(st)
    ensures Consistent(Run(cfg, st, steps)) && Extends(st, Run(cfg, st, steps))
    decreases |steps|
  {
    if steps == [] {
      SameRows(st, st);
    } else {
      var mid := Apply(cfg, st, steps[0]);
      ApplyKeepsConsistent(cfg, st, steps[0]);
      RunKeepsConsistent(cfg, mid, steps[1..]);
      var end := Run(cfg, st, steps);
      forall p ensures History(st, p) <= History(end, p) {
        assert History(st, p) <= History(mid, p) <= History(end, p);
      }
    }
  }

  // In every run the commits of a path carry revisions 1, 2, 3, ... without gaps, every commit names
  // exactly its predecessor's revision as base, so no two commits share one, and the row is the last.
  lemma RevisionsAreGapless(cfg: Config, steps: seq<Step>, p: Path)
    ensures var st := Run(cfg, EMPTY, steps);
            var h := History(st, p);
            && (forall k | 0 <= k < |h| :: h[k].row.rev == k + 1 && h[k].base == k)
            && (forall i, j | 0 <= i < j < |h| :: h[i].base != h[j].base)
            && RevAt(st, p) == |h|
            && (p in st.index ==> h != [] && st.index[p] == h[|h| - 1].row)
  {
    assert forall q :: RowIsLast(EMPTY, q);
    RunKeepsConsistent(cfg, EMPTY, steps);
    ConsistentAt(Run(cfg, EMPTY, steps), p);
    assert RowIsLast(Run(cfg, EMPTY, steps), p);
  }

  // What the store answers about a path: it is found exactly if it was ever committed, its revision counts
  // its versions, its size is that of the last version, 0 for a tombstone, and a put's base is accepted
  // exactly if it is that count.
  lemma CurrentMeans(st: State, p: Path, base: int)
    requires Consistent(st)
    ensures var cur, h := CurrentOf(st.index, p), History(st, p);
            && (cur.found <==> h != []) && cur.rev == |h| && (BaseMatches(cur, base) <==> base == |h|)
            && (if h == [] || h[|h| - 1].row.deleted then cur.size == 0
                else h[|h| - 1].row.sha.Sha? && cur.size == |h[|h| - 1].row.sha.content|)
  {
    ConsistentAt(st, p);
    assert RowIsLast(st, p);
  }

  // ---------- Single requests ----------

  // An accepted put directly follows the version its caller based it on, stores exactly the declared
  // bytes under the size limit, and touches neither another path nor any temp file.
  lemma PutAccepted(cfg: Config, st: State, c: PutCall)
    requires Put(cfg, st, c).result.Ok?
    ensures Paths.SafeRelPath(c.path).Some?
    ensures var out, rel, rev := Put(cfg, st, c).st, Paths.SafeRelPath(c.path).value, Put(cfg, st, c).result.rev;
            var row := Row(|c.reader.body|, c.declared, RevAt(st, rel) + 1, false);
            && rev == c.base + 1 == row.rev
            && Sha(c.reader.body) == c.declared && |c.reader.body| <= cfg.maxBytes
            && out.disk == st.disk[rel := c.reader.body] && out.temps == st.temps
            && out.index == st.index[rel := row]
            && out.history == st.history[rel := History(st, rel) + [Version(row, c.base, Client(c.device))]]
  {
    var rel := Paths.SafeRelPath(c.path).value;
    CommitOne(st.(disk := st.disk[rel := c.reader.body]), rel, PutVersion(CurrentOf(st.index, rel), c.reader.body, c.base, c.device));
  }

  // ---------- What is answered ----------

  const NO_PUT_FAULTS := PutFaults(false, false, false, false, false, false)

  // The size of a path's last version.
  function SizeOf(h: seq<Version>): nat {
    if h == [] || h[|h| - 1].row.deleted then 0 else h[|h| - 1].row.size
  }

  // The row an accepted put leaves.
  function NewRow(st: State, rel: Path, c: PutCall): Row {
    Row(|c.reader.body|, Sha(c.reader.body), |History(st, rel)| + 1, false)
  }

  // Shrinking, or fitting under the limit once the new row has replaced the old one.
  ghost predicate HasRoom(cfg: Config, st: State, rel: Path, c: PutCall) {
    |c.reader.body| <= SizeOf(History(st, rel)) || Used(st.index[rel := NewRow(st, rel, c)]) <= cfg.limit
  }

  lemma GateMeans(cfg: Config, st: State, rel: Path, c: PutCall)
    requires Consistent(st)
    ensures CurrentOf(st.index, rel).size == SizeOf(History(st, rel))
    ensures GateAllows(cfg.limit, Used(st.index), CurrentOf(st.index, rel).size, |c.reader.body|) <==> HasRoom(cfg, st, rel, c)
  {
    ConsistentAt(st, rel);
    assert RowIsLast(st, rel);
    UsedUpdate(st.index, rel, NewRow(st, rel, c));
  }

  // The bytes get into a temp file.
  predicate Arrives(cfg: Config, st: State, c: PutCall) {
    !c.faults.temp && c.tmp !in st.temps && |c.reader.body| <= cfg.maxBytes && !c.reader.broken
  }

  // A put is accepted exactly if its path is safe, it is based on the path's last version, its bytes arrive
  // whole, are the declared ones and shrink the file in cleanup mode, there is room, and nothing fails.
  lemma PutAcceptedIff(cfg: Config, st: State, c: PutCall)
    requires Consistent(st)
    ensures var rel := Paths.SafeRelPath(c.path);
            Put(cfg, st, c).result.Ok? <==>
              && rel.Some? && c.base == |History(st, rel.value)|
              && Arrives(cfg, st, c) && c.declared == Sha(c.reader.body)
              && (c.mode == Cleanup ==> |c.reader.body| < SizeOf(History(st, rel.value)))
              && HasRoom(cfg, st, rel.value, c) && c.faults == NO_PUT_FAULTS
  {
    if Paths.SafeRelPath(c.path).Some? {
      var rel := Paths.SafeRelPath(c.path).value;
      CurrentMeans(st, rel, c.base);
      GateMeans(cfg, st, rel, c);
    }
  }

  // And each refusal says the first thing that was wrong.
  lemma PutReasons(cfg: Config, st: State, c: PutCall)
    requires Consistent(st) && Put(cfg, st, c).result.Reject? && Paths.SafeRelPath(c.path).Some?
    ensures var rel, reason := Paths.SafeRelPath(c.path).value, Put(cfg, st, c).result.reason;
            var based := !c.faults.current && c.base == |History(st, rel)|;
            var checked := based && Arrives(cfg, st, c) && c.declared == Sha(c.reader.body);
            var grows := c.mode == Cleanup && |c.reader.body| >= SizeOf(History(st, rel));
            && (reason == Conflict <==> !c.faults.current && c.base != |History(st, rel)|)
            && (reason == TooLarge <==> based && !c.faults.temp && c.tmp !in st.temps && |c.reader.body| > cfg.maxBytes)
            && (reason == ShaMismatch <==> based && Arrives(cfg, st, c) && c.declared != Sha(c.reader.body))
            && (reason == ReadonlyMode <==> checked && grows)
            && (reason == DiskFull <==> checked && !grows && !c.faults.total && !HasRoom(cfg, st, rel, c))
            && reason != UnsafePath && reason != NoSuchFile
  {
    var rel := Paths.SafeRelPath(c.path).value;
    CurrentMeans(st, rel, c.base);
    GateMeans(cfg, st, rel, c);
  }

  // An unsafe path is refused as such, and nothing else is.
  lemma UnsafeIsRefused(cfg: Config, st: State, c: PutCall, d: DeleteCall)
    ensures Put(cfg, st, c).result == Reject(UnsafePath) <==> !Paths.Acceptable(c.path)
    ensures Delete(st, d).result == Reject(UnsafePath) <==> !Paths.Acceptable(d.path)
  {
    Paths.SafeRelPathMeaning(c.path);
    Paths.SafeRelPathMeaning(d.path);
  }

  // A delete of a path that never was changes nothing and answers the caller's own base; any other is
  // accepted exactly if it is based on the last version and nothing fails, and a wrong base is a conflict.
  lemma DeleteAnswers(st: State, c: DeleteCall)
    requires Consistent(st) && Paths.SafeRelPath(c.path).Some?
    ensures var h, out := History(st, Paths.SafeRelPath(c.path).value), Delete(st, c);
            var smooth := c.base == |h| && c.faults == DeleteFaults(false, false, false, false);
            && (out.result.Ok? <==> !c.faults.current && (h == [] || smooth))
            && (out.result == Reject(Conflict) <==> !c.faults.current && h != [] && c.base != |h|)
            && (out.result.Reject? ==> out.result.reason in {Conflict, Internal})
            && (h == [] ==> out.st == st && (out.result.Ok? ==> out.result.rev == c.base))
  {
    CurrentMeans(st, Paths.SafeRelPath(c.path).value, c.base);
  }

  // A get finds what has ever been committed and is there now: the bytes as they are, next to the number
  // and the size of the last version.
  lemma GetMeans(st: State, path: string, fails: bool)
    requires Consistent(st)
    ensures var got, rel := Get(st, path, fails), Paths.SafeRelPath(path);
            && (got.File? <==> !fails && rel.Some? && History(st, rel.value) != [] && rel.value in st.disk)
            && (got.File? ==> var h := History(st, rel.value);
                              got == File(|h|, SizeOf(h), st.disk[rel.value]))
  {
    if Paths.SafeRelPath(path).Some? {
      CurrentMeans(st, Paths.SafeRelPath(path).value, 0);
      ConsistentAt(st, Paths.SafeRelPath(path).value);
      assert RowIsLast(st, Paths.SafeRelPath(path).value);
    }
  }

  // What was put is what a get brings, under every spelling of the path, until something else happens.
  lemma PutThenGet(cfg: Config, st: State, c: PutCall, path: string)
    requires Put(cfg, st, c).result.Ok? && Paths.SafeRelPath(path) == Paths.SafeRelPath(c.path)
    ensures Get(Put(cfg, st, c).st, path, false) == File(c.base + 1, |c.reader.body|, c.reader.body)
  {
    PutAccepted(cfg, st, c);
  }

  // A put that is accepted: the base is the current revision, the bytes are the declared ones, small enough
  // and within the quota, and nothing fails.
  predicate MayPut(cfg: Config, st: State, c: PutCall) {
    && Paths.Canonical(c.path) && BaseMatches(CurrentOf(st.index, c.path), c.base)
    && c.tmp !in st.temps && !c.reader.broken && c.declared == Sha(c.reader.body) && |c.reader.body| <= cfg.maxBytes
    && c.mode == ReadWrite && c.faults == NO_PUT_FAULTS
  }

  lemma MayPutIsAccepted(cfg: Config, st: State, c: PutCall)
    requires MayPut(cfg, st, c) && Used(st.index) + |c.reader.body| <= cfg.limit
    ensures Put(cfg, st, c).result == Ok(RevAt(st, c.path) + 1)
  {
  }

  // A refused put leaves no trace, unless the commit itself reported an error: then the new bytes, already
  // checked against every limit, are in place, and the row is missing or has been written all the same.
  lemma PutRefused(cfg: Config, st: State, c: PutCall)
    requires Put(cfg, st, c).result.Reject?
    ensures var out := Put(cfg, st, c).st;
            out == st ||
              (&& Put(cfg, st, SurePut(c)).result.Ok?
               && Paths.SafeRelPath(c.path).Some? && Sha(c.reader.body) == c.declared && |c.reader.body| <= cfg.maxBytes
               && if c.faults.commit then out == st.(disk := st.disk[Paths.SafeRelPath(c.path).value := c.reader.body])
                  else c.faults.unheard && out == Put(cfg, st, SurePut(c)).st)
  {
    PutUnheard(cfg, st, c);
    if !c.faults.commit && Put(cfg, st, HeardPut(c)).result.Ok? {
      assert HeardPut(c) == SurePut(c);
      PutAccepted(cfg, st, SurePut(c));
    }
  }

  // The same request, except that its commit fails.
  function LosingCommit(c: PutCall): PutCall {
    c.(faults := c.faults.(commit := true))
  }

  function LosingDeleteCommit(c: DeleteCall): DeleteCall {
    c.(faults := c.faults.(commit := true))
  }

  // Losing the commit of a put that would be accepted loses only the row.
  lemma PutCommitLost(cfg: Config, st: State, c: PutCall)
    requires Put(cfg, st, c).result.Ok?
    ensures Put(cfg, st, LosingCommit(c)).st ==
            st.(disk := st.disk[Paths.SafeRelPath(c.path).value := c.reader.body])
  {
  }

  // An accepted delete of a known path leaves a tombstone one revision up and no file.
  lemma DeleteAccepted(st: State, c: DeleteCall)
    requires Delete(st, c).result.Ok? && Paths.SafeRelPath(c.path).value in st.index
    ensures var out, rel := Delete(st, c).st, Paths.SafeRelPath(c.path).value;
            var row := Row(0, NoDigest, st.index[rel].rev + 1, true);
            && Delete(st, c).result.rev == c.base + 1 == row.rev
            && out.disk == st.disk - {rel} && out.temps == st.temps
            && out.index == st.index[rel := row]
            && out.history == st.history[rel := History(st, rel) + [Version(row, c.base, Client(c.device))]]
  {
    var rel := Paths.SafeRelPath(c.path).value;
    CommitOne(st.(disk := st.disk - {rel}), rel, DeleteVersion(CurrentOf(st.index, rel), c));
  }

  lemma DeleteCommitLost(st: State, c: DeleteCall)
    requires Delete(st, c).result.Ok? && Paths.SafeRelPath(c.path).value in st.index
    ensures Delete(st, LosingDeleteCommit(c)).st == st.(disk := st.disk - {Paths.SafeRelPath(c.path).value})
  {
  }
}
