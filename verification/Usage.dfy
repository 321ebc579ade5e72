/** The disk quota over runs, and what cleanup mode can and cannot free. */
module Usage {
  import opened Options
  import opened Listing
  import opened FileIndex
  import opened SyncServer
  import opened ServerRuns
  import Paths

  function Max(a: int, b: int): int {
    if a < b then b else a
  }

  // ---------- One request ----------

  // The gate's projection `used - oldSize + newSize` is exactly the total after the commit.
  lemma PutMovesUsage(cfg: Config, st: State, c: PutCall)
    requires Consistent(st) && Put(cfg, st, c).result.Ok?
    ensures var rel := Paths.SafeRelPath(c.path).value;
            Used(Put(cfg, st, c).st.index) == Used(st.index) - CurrentOf(st.index, rel).size + |c.reader.body|
  {
    var rel := Paths.SafeRelPath(c.path).value;
    ConsistentAt(st, rel);
    PutAccepted(cfg, st, c);
    UsedUpdate(st.index, rel, Put(cfg, st, c).st.index[rel]);
  }

  lemma DeleteNeverRaisesUsage(st: State, c: DeleteCall)
    ensures Used(Delete(st, c).st.index) <= Used(st.index)
  {
    if Delete(st, c).st.index != st.index {
      var rel := Paths.SafeRelPath(c.path).value;
      var v := DeleteVersion(CurrentOf(st.index, rel), c);
      CommitOne(st.(disk := st.disk - {rel}), rel, v);
      UsedUpdate(st.index, rel, v.row);
    }
  }

  // In cleanup mode an accepted put strictly frees space.
  lemma CleanupPutShrinks(cfg: Config, st: State, c: PutCall)
    requires Consistent(st) && c.mode == Cleanup && Put(cfg, st, c).result.Ok?
    ensures Used(Put(cfg, st, c).st.index) < Used(st.index)
  {
    PutMovesUsage(cfg, st, c);
  }

  // ---------- Whole runs ----------

  // The highest total found right after a reconcile during the run; cloud edits pass no gate.
  ghost function Peak(cfg: Config, st: State, steps: seq<Step>): nat
    decreases |steps|
  {
    if steps == [] then 0
    else
      var next := Apply(cfg, st, steps[0]);
      Max(if steps[0].DoReconcile? then Used(next.index) else 0, Peak(cfg, next, steps[1..]))
  }

  lemma {:induction false} UsageBound(cfg: Config, st: State, steps: seq<Step>)
    requires Consistent(st)
    ensures Used(Run(cfg, st, steps).index) <= Max(Max(cfg.limit, Used(st.index)), Peak(cfg, st, steps))
    decreases |steps|
  {
    if steps != [] {
      var next := Apply(cfg, st, steps[0]);
      ApplyKeepsConsistent(cfg, st, steps[0]);
      UsageBound(cfg, next, steps[1..]);
      StepBound(cfg, st, steps[0]);
    }
  }

  lemma StepBound(cfg: Config, st: State, step: Step)
    requires Consistent(st)
    ensures step.DoReconcile? || Used(Apply(cfg, st, step).index) <= Max(cfg.limit, Used(st.index))
  {
    match step
    case DoPut(c) =>
      PutUnheard(cfg, st, c);
      if Put(cfg, st, HeardPut(c)).result.Ok? {
        PutMovesUsage(cfg, st, HeardPut(c));
      } else {
        PutRefused(cfg, st, HeardPut(c));
      }
    case DoDelete(c) => DeleteNeverRaisesUsage(st, c);
    case _ =>
  }

  // From an empty project the total never exceeds the larger of the limit and its peak after a
  // reconcile; with puts, deletes and cloud edits alone it never exceeds the limit.
  lemma QuotaHolds(cfg: Config, steps: seq<Step>)
    ensures Used(Run(cfg, EMPTY, steps).index) <= Max(cfg.limit, Peak(cfg, EMPTY, steps))
    ensures 0 <= cfg.limit && (forall s | s in steps :: !s.DoReconcile?) ==>
              Used(Run(cfg, EMPTY, steps).index) <= cfg.limit
  {
    assert forall q :: RowIsLast(EMPTY, q);
    UsageBound(cfg, EMPTY, steps);
    NoReconcileNoPeak(cfg, EMPTY, steps);
  }

  lemma {:induction false} NoReconcileNoPeak(cfg: Config, st: State, steps: seq<Step>)
    ensures (forall s | s in steps :: !s.DoReconcile?) ==> Peak(cfg, st, steps) == 0
    decreases |steps|
  {
    if steps != [] {
      NoReconcileNoPeak(cfg, Apply(cfg, st, steps[0]), steps[1..]);
    }
  }

  // ---------- What deletes can free ----------

  function Part(index: map<Path, Row>, keep: set<Path>): map<Path, Row> {
    map p | p in index && p in keep :: index[p]
  }

  lemma {:induction false} UsedParts(index: map<Path, Row>, keep: set<Path>)
    ensures Used(index) == Used(Part(index, keep)) + Used(index - keep)
    decreases |index|
  {
    if p :| p in index {
      var rest := index - {p};
      UsedParts(rest, keep);
      UsedSplit(index, p);
      if p in keep {
        UsedSplit(Part(index, keep), p);
        assert Part(index, keep) - {p} == Part(rest, keep);
        assert rest - keep == index - keep;
      } else {
        UsedSplit(index - keep, p);
        assert (index - keep) - {p} == rest - keep;
        assert Part(rest, keep) == Part(index, keep);
      }
    } else {
      assert Part(index, keep) == map[] && index - keep == map[];
    }
  }

  lemma {:induction false} UsedZero(index: map<Path, Row>)
    requires forall p | p in index :: LiveSize(index[p]) == 0
    ensures Used(index) == 0
    decreases |index|
  {
    if p :| p in index {
      UsedSplit(index, p);
      UsedZero(index - {p});
    }
  }

  // Rows no request can name: SafeRelPath maps every spelling to another path. A file the container
  // creates as `a\b` gets such a row.
  function Unreachable(index: map<Path, Row>): map<Path, Row> {
    map p | p in index && !Paths.Canonical(p) :: index[p]
  }

  ghost predicate AllAccepted(cfg: Config, st: State, steps: seq<Step>)
    decreases |steps|
  {
    steps != [] ==>
      && steps[0].DoDelete? && Delete(st, steps[0].delete).result.Ok?
      && AllAccepted(cfg, Apply(cfg, st, steps[0]), steps[1..])
  }

  lemma {:induction false} UnreachableStays(cfg: Config, st: State, steps: seq<Step>)
    requires forall s | s in steps :: s.DoPut? || s.DoDelete?
    ensures Unreachable(Run(cfg, st, steps).index) == Unreachable(st.index)
    decreases |steps|
  {
    if steps != [] {
      UnreachableStep(cfg, st, steps[0]);
      UnreachableStays(cfg, Apply(cfg, st, steps[0]), steps[1..]);
    }
  }

  lemma UnreachableStep(cfg: Config, st: State, step: Step)
    requires step.DoPut? || step.DoDelete?
    ensures Unreachable(Apply(cfg, st, step).index) == Unreachable(st.index)
  {
    var path := if step.DoPut? then step.put.path else step.delete.path;
    if Paths.SafeRelPath(path).Some? {
      var rel := Paths.SafeRelPath(path).value;
      Paths.SafeRelPathIdempotent(path, rel);
      OneRowChanges(cfg, st, step, rel);
      SameUnreachable(st.index, Apply(cfg, st, step).index, rel);
    }
  }

  lemma SameUnreachable(a: map<Path, Row>, b: map<Path, Row>, rel: Path)
    requires Paths.Canonical(rel)
    requires forall p | p != rel :: p in b <==> p in a
    requires forall p | p != rel && p in a :: b[p] == a[p]
    ensures Unreachable(b) == Unreachable(a)
  {
  }

  lemma OneRowChanges(cfg: Config, st: State, step: Step, rel: Path)
    requires step.DoPut? || step.DoDelete?
    requires Paths.SafeRelPath(if step.DoPut? then step.put.path else step.delete.path) == Some(rel)
    ensures forall p | p != rel :: p in Apply(cfg, st, step).index <==> p in st.index
    ensures forall p | p != rel && p in st.index :: Apply(cfg, st, step).index[p] == st.index[p]
  {
    if step.DoPut? {
      PutUnheard(cfg, st, step.put);
      if Put(cfg, st, HeardPut(step.put)).result.Ok? {
        PutAccepted(cfg, st, HeardPut(step.put));
      } else {
        PutRefused(cfg, st, HeardPut(step.put));
      }
    } else if Apply(cfg, st, step).index != st.index {
      CommitOne(st.(disk := st.disk - {rel}), rel, DeleteVersion(CurrentOf(st.index, rel), step.delete));
    }
  }

  ghost function Deletable(index: map<Path, Row>): set<Path> {
    set p | p in index && Paths.Canonical(p) && !index[p].deleted
  }

  // Deleting every reachable live file in turn leaves exactly the unreachable bytes.
  lemma {:induction false} Purge(cfg: Config, st: State) returns (steps: seq<Step>)
    ensures AllAccepted(cfg, st, steps)
    ensures Used(Run(cfg, st, steps).index) == Used(Unreachable(st.index))
    decreases |Deletable(st.index)|
  {
    if p :| p in Deletable(st.index) {
      var c := DeleteCall(p, st.index[p].rev, "", DeleteFaults(false, false, false, false));
      var next := Delete(st, c).st;
      CommitOne(st.(disk := st.disk - {p}), p, DeleteVersion(CurrentOf(st.index, p), c));
      assert Deletable(next.index) == Deletable(st.index) - {p};
      assert Unreachable(next.index) == Unreachable(st.index);
      var rest := Purge(cfg, next);
      steps := [DoDelete(c)] + rest;
      assert steps[1..] == rest;
    } else {
      steps := [];
      var stuck := Unreachable(st.index).Keys;
      UsedParts(st.index, stuck);
      assert Part(st.index, stuck) == Unreachable(st.index);
      forall p | p in st.index - stuck ensures LiveSize((st.index - stuck)[p]) == 0 {
        assert p !in Deletable(st.index);
      }
      UsedZero(st.index - stuck);
    }
  }

  // Accepted deletes can bring the total to a target exactly when the unreachable rows fit in it.
  lemma DeletesCanFree(cfg: Config, st: State, target: nat)
    ensures (exists steps :: AllAccepted(cfg, st, steps) && Used(Run(cfg, st, steps).index) <= target)
              <==> Used(Unreachable(st.index)) <= target
  {
    var purge := Purge(cfg, st);
    forall steps | AllAccepted(cfg, st, steps)
      ensures Used(Unreachable(st.index)) <= Used(Run(cfg, st, steps).index)
    {
      AcceptedAreDeletes(cfg, st, steps);
      UnreachableStays(cfg, st, steps);
      var end := Run(cfg, st, steps).index;
      UsedParts(end, Unreachable(end).Keys);
      assert Part(end, Unreachable(end).Keys) == Unreachable(end);
    }
  }

  lemma {:induction false} AcceptedAreDeletes(cfg: Config, st: State, steps: seq<Step>)
    requires AllAccepted(cfg, st, steps)
    ensures forall s | s in steps :: s.DoDelete?
    decreases |steps|
  {
    if steps != [] {
      AcceptedAreDeletes(cfg, Apply(cfg, st, steps[0]), steps[1..]);
      assert forall s | s in steps :: s == steps[0] || s in steps[1..];
    }
  }
}
