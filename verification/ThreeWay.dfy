/** The three-way comparison of local files, baseline and server rows (internal/sync/manifest.go). */
module ThreeWay {
  import opened Options
  import opened Listing
  import opened FileIndex

  datatype LocalState = Clean | Modified | Gone

  // LocalEntry without its path: the baseline a file was last confirmed at and its present digest.
  datatype Local = Local(size: nat, baseRev: int, baseSha: Digest, curSha: Digest, state: LocalState)

  datatype Clash = Clash(local: Digest, remote: Digest)

  datatype Plan = Plan(
    upload: seq<Item<Local>>,
    download: seq<Item<Row>>,
    conflicts: seq<Item<Clash>>,
    deleteToRemote: seq<Item<Local>>,
    deleteToLocal: seq<Item<Row>>)

  // ---------- BuildLocal ----------

  function ScannedEntry(s: Item<Row>, base: map<Path, Local>): Item<Local> {
    var known := s.path in base;
    Item(s.path, Local(
      s.val.size,
      if known then base[s.path].baseRev else 0,
      if known then base[s.path].baseSha else NoDigest,
      s.val.sha,
      if known && s.val.sha == base[s.path].baseSha then Clean else Modified))
  }

  function ScannedEntries(scanned: seq<Item<Row>>, base: map<Path, Local>): seq<Item<Local>> {
    seq(|scanned|, i requires 0 <= i < |scanned| => ScannedEntry(scanned[i], base))
  }

  function GoneEntry(b: Item<Local>): Item<Local> {
    Item(b.path, Local(0, b.val.baseRev, b.val.baseSha, NoDigest, Gone))
  }

  function GoneEntries(base: seq<Item<Local>>, seen: set<Path>): seq<Item<Local>> {
    if base == [] then []
    else
      var b := base[|base| - 1];
      GoneEntries(base[..|base| - 1], seen) + if b.path !in seen && b.val.state != Gone then [GoneEntry(b)] else []
  }

  function LocalView(scanned: seq<Item<Row>>, base: seq<Item<Local>>): seq<Item<Local>> {
    ScannedEntries(scanned, ToMap(base)) + GoneEntries(base, PathsOf(scanned))
  }

  method BuildLocal(scanned: seq<Item<Row>>, base: seq<Item<Local>>) returns (out: seq<Item<Local>>)
    ensures out == LocalView(scanned, base)
  {
    var bi := ToMap(base);
    var seen: set<Path> := {};
    out := [];
    for i := 0 to |scanned|
      invariant seen == PathsOf(scanned[..i])
      invariant out == ScannedEntries(scanned[..i], bi)
    {
      var s := scanned[i];
      PathsGrow(scanned, i);
      assert ScannedEntries(scanned[..i + 1], bi) == ScannedEntries(scanned[..i], bi) + [ScannedEntry(s, bi)];
      seen := seen + {s.path};
      var e := Local(s.val.size, 0, NoDigest, s.val.sha, Modified);
      if s.path in bi {
        e := e.(baseRev := bi[s.path].baseRev, baseSha := bi[s.path].baseSha);
      }
      if s.path in bi && s.val.sha == bi[s.path].baseSha {
        e := e.(state := Clean);
      }
      out := out + [Item(s.path, e)];
    }
    assert scanned[..|scanned|] == scanned;
    for j := 0 to |base|
      invariant out == ScannedEntries(scanned, bi) + GoneEntries(base[..j], seen)
    {
      var b := base[j];
      assert base[..j + 1][..j] == base[..j];
      if b.path !in seen && b.val.state != Gone {
        out := out + [GoneEntry(b)];
      }
    }
    assert base[..|base|] == base;
  }

  // ---------- Diff ----------

  datatype Verdict = Leave | Upload | Download | SaveBoth | DeleteToRemote | DeleteToLocal

  // What the loop over local entries decides for one of them.
  function Decide(l: Local, r: Option<Row>): Verdict {
    var advanced := r.Some? && (r.value.rev != l.baseRev || r.value.deleted);
    match l.state
    case Clean =>
      if !advanced then Leave else if r.value.deleted then DeleteToLocal else Download
    case Modified =>
      if !advanced then Upload else if r.value.sha == l.curSha then Leave else SaveBoth
    case Gone =>
      if !advanced then DeleteToRemote else if !r.value.deleted then SaveBoth else Leave
  }

  function At<V>(m: map<Path, V>, p: Path): Option<V> {
    if p in m then Some(m[p]) else None
  }

  lemma SameMap<V>(a: map<Path, V>, b: map<Path, V>)
    requires forall p :: At(a, p) == At(b, p)
    ensures a == b
  {
    forall p ensures p in a <==> p in b {
      assert At(a, p) == At(b, p);
    }
    forall p | p in a ensures a[p] == b[p] {
      assert At(a, p) == At(b, p);
    }
  }

  // One round of the loop over local entries.
  function Extend(plan: Plan, l: Item<Local>, rows: map<Path, Row>): Plan {
    match Decide(l.val, At(rows, l.path))
    case Leave => plan
    case Upload => plan.(upload := plan.upload + [l])
    case DeleteToRemote => plan.(deleteToRemote := plan.deleteToRemote + [l])
    case Download => plan.(download := plan.download + [Item(l.path, rows[l.path])])
    case DeleteToLocal => plan.(deleteToLocal := plan.deleteToLocal + [Item(l.path, rows[l.path])])
    case SaveBoth =>
      var mine := if l.val.state == Gone then NoDigest else l.val.curSha;
      plan.(conflicts := plan.conflicts + [Item(l.path, Clash(mine, rows[l.path].sha))])
  }

  function LocalPlan(local: seq<Item<Local>>, rows: map<Path, Row>): Plan {
    if local == [] then Plan([], [], [], [], [])
    else Extend(LocalPlan(local[..|local| - 1], rows), local[|local| - 1], rows)
  }

  // Live rows without a local entry.
  function Unseen(local: seq<Item<Local>>, rows: map<Path, Row>): map<Path, Row> {
    map p | p in rows && p !in PathsOf(local) && !rows[p].deleted :: rows[p]
  }

  // The plan Diff returns for these local entries and rows, up to the order of the unseen downloads.
  ghost predicate IsDiff(local: seq<Item<Local>>, rows: map<Path, Row>, plan: Plan) {
    var known := LocalPlan(local, rows);
    exists extra :: Lists(extra, Unseen(local, rows)) && plan == known.(download := known.download + extra)
  }

  method Diff(local: seq<Item<Local>>, remote: seq<Item<Row>>) returns (plan: Plan)
    ensures IsDiff(local, ToMap(remote), plan)
  {
    var ri := ToMap(remote);
    var seen: set<Path> := {};
    plan := Plan([], [], [], [], []);
    for i := 0 to |local|
      invariant seen == PathsOf(local[..i])
      invariant plan == LocalPlan(local[..i], ri)
    {
      var l := local[i];
      PathsGrow(local, i);
      seen := seen + {l.path};
      assert local[..i + 1][..i] == local[..i];
      var found := l.path in ri;
      var advanced := found && (ri[l.path].rev != l.val.baseRev || ri[l.path].deleted);
      match l.val.state {
        case Clean =>
          if advanced {
            if ri[l.path].deleted {
              plan := plan.(deleteToLocal := plan.deleteToLocal + [Item(l.path, ri[l.path])]);
            } else {
              plan := plan.(download := plan.download + [Item(l.path, ri[l.path])]);
            }
          }
        case Modified =>
          if !found || !advanced {
            plan := plan.(upload := plan.upload + [l]);
          } else if ri[l.path].sha == l.val.curSha {
          } else {
            plan := plan.(conflicts := plan.conflicts + [Item(l.path, Clash(l.val.curSha, ri[l.path].sha))]);
          }
        case Gone =>
          if !found || !advanced {
            plan := plan.(deleteToRemote := plan.deleteToRemote + [l]);
          } else if !ri[l.path].deleted {
            plan := plan.(conflicts := plan.conflicts + [Item(l.path, Clash(NoDigest, ri[l.path].sha))]);
          }
      }
    }
    assert local[..|local|] == local;
    var unseen := map p | p in ri && p !in seen && !ri[p].deleted :: ri[p];
    var more := Enumerate(unseen);
    assert unseen == Unseen(local, ri);
    plan := plan.(download := plan.download + more);
  }
}
