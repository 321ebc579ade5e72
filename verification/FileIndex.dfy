/**
 The rows of file_index, the versions they went through, the logical size they add up to
 and the quota gate (internal/store/sync.go, internal/storage/accounting.go).
 */
module FileIndex {
  import opened Options
  import opened Listing

  newtype Byte = b: int | 0 <= b < 256
  type Content = seq<Byte>
  type TempId = string

  // SHA-256 in hexadecimal: "" is NoDigest; digests of contents are never empty and never collide.
  datatype Digest = NoDigest | Sha(content: Content)

  datatype Row = Row(size: nat, sha: Digest, rev: nat, deleted: bool)

  datatype Author = Client(device: string) | Cloud

  // One committed row, with the base revision its writer named and the writer.
  datatype Version = Version(row: Row, base: int, author: Author)

  /** The server's view of one project. `history` records every commit; the program keeps only the last. */
  datatype State = State(
    index: map<Path, Row>,
    history: map<Path, seq<Version>>,
    disk: map<Path, Content>,
    temps: map<TempId, Content>)

  const EMPTY := State(map[], map[], map[], map[])

  function RevAt(st: State, p: Path): nat {
    if p in st.index then st.index[p].rev else 0
  }

  function RowAt(st: State, p: Path): Option<Row> {
    if p in st.index then Some(st.index[p]) else None
  }

  function History(st: State, p: Path): seq<Version> {
    if p in st.history then st.history[p] else []
  }

  // Store.Commit, once for every entry of `news`: upsert the row, remember the version.
  function CommitAll(st: State, news: map<Path, Version>): State {
    st.(index := st.index + Rows(news), history := st.history + Appended(st, news))
  }

  function Rows(news: map<Path, Version>): map<Path, Row> {
    map p | p in news :: news[p].row
  }

  function Appended(st: State, news: map<Path, Version>): map<Path, seq<Version>> {
    map p | p in news :: History(st, p) + [news[p]]
  }

  lemma CommitAllAt(st: State, news: map<Path, Version>, p: Path)
    ensures var st' := CommitAll(st, news);
            if p in news then p in st'.index && st'.index[p] == news[p].row && p in st'.history && st'.history[p] == History(st, p) + [news[p]]
            else (p in st'.index <==> p in st.index) && (p in st.index ==> st'.index[p] == st.index[p])
                 && (p in st'.history <==> p in st.history) && History(st', p) == History(st, p)
  {
  }

  lemma CommitNone(st: State)
    ensures CommitAll(st, map[]) == st
  {
    assert st.index + Rows(map[]) == st.index && st.history + Appended(st, map[]) == st.history;
  }

  lemma CommitOne(st: State, p: Path, v: Version)
    ensures CommitAll(st, map[p := v]).index == st.index[p := v.row]
    ensures CommitAll(st, map[p := v]).history == st.history[p := History(st, p) + [v]]
  {
    RowsOne(p, v);
    AppendedOne(st, p, v);
    Merged(st.index, p, v.row);
    Merged(st.history, p, History(st, p) + [v]);
  }

  lemma RowsOne(p: Path, v: Version)
    ensures Rows(map[p := v]) == map[p := v.row]
  {
  }

  lemma AppendedOne(st: State, p: Path, v: Version)
    ensures Appended(st, map[p := v]) == map[p := History(st, p) + [v]]
  {
  }

  lemma Merged<V>(m: map<Path, V>, p: Path, v: V)
    ensures m + map[p := v] == m[p := v]
  {
  }

  // Some version of p carries revision `rev`, and its digest is `sha`.
  predicate Committed(st: State, p: Path, rev: int, sha: Digest) {
    1 <= rev <= |History(st, p)| && History(st, p)[rev - 1].row.sha == sha
  }

  // ---------- The invariant ----------

  predicate WellFormed(row: Row) {
    if row.deleted then row.size == 0 && row.sha == NoDigest
    else row.sha.Sha? && row.size == |row.sha.content|
  }

  // v is what may follow the current row of p: base is the predecessor, revision one more.
  predicate Follows(st: State, p: Path, v: Version) {
    v.base == RevAt(st, p) && v.row.rev == RevAt(st, p) + 1 && WellFormed(v.row)
  }

  predicate Chained(h: seq<Version>) {
    forall k | 0 <= k < |h| :: h[k].row.rev == k + 1 && h[k].base == k && WellFormed(h[k].row)
  }

  // The row of p is the last of its gapless chain of versions.
  predicate RowIsLast(st: State, p: Path) {
    var h := History(st, p);
    && Chained(h)
    && (p in st.history <==> p in st.index)
    && (p in st.index <==> h != [])
    && (h != [] ==> h[|h| - 1].row == st.index[p])
  }

  ghost predicate Consistent(st: State) {
    forall p :: RowIsLast(st, p)
  }

  lemma ConsistentAt(st: State, p: Path)
    requires Consistent(st)
    ensures Chained(History(st, p)) && |History(st, p)| == RevAt(st, p)
    ensures p in st.index ==> Committed(st, p, st.index[p].rev, st.index[p].sha) && WellFormed(st.index[p])
  {
    assert RowIsLast(st, p);
  }

  lemma CommitAllKeepsConsistent(st: State, news: map<Path, Version>)
    requires Consistent(st) && forall p | p in news :: Follows(st, p, news[p])
    ensures Consistent(CommitAll(st, news))
  {
    forall p ensures RowIsLast(CommitAll(st, news), p) {
      ConsistentAt(st, p);
      assert RowIsLast(st, p);
      CommitAllAt(st, news, p);
    }
  }

  // History only grows.
  ghost predicate Extends(st: State, st': State) {
    forall p :: History(st, p) <= History(st', p)
  }

  lemma CommitAllExtends(st: State, news: map<Path, Version>)
    ensures Extends(st, CommitAll(st, news))
  {
    forall p ensures History(st, p) <= History(CommitAll(st, news), p) {
      CommitAllAt(st, news, p);
    }
  }

  // Committing in two disjoint batches is committing once.
  lemma CommitAllTwice(st: State, a: map<Path, Version>, b: map<Path, Version>)
    requires a.Keys !! b.Keys
    ensures CommitAll(CommitAll(st, a), b) == CommitAll(st, a + b)
  {
    RowsTwice(a, b);
    AppendedTwice(st, a, b);
    var mid := CommitAll(st, a);
    MergeAssociative(st.index, Rows(a), Rows(b));
    MergeAssociative(st.history, Appended(st, a), Appended(mid, b));
  }

  lemma MergeAssociative<V>(x: map<Path, V>, y: map<Path, V>, z: map<Path, V>)
    ensures (x + y) + z == x + (y + z)
  {
    forall p | p in x.Keys + y.Keys + z.Keys ensures ((x + y) + z)[p] == (x + (y + z))[p] {
      assert p in y + z <==> p in y || p in z;
    }
  }

  lemma RowsTwice(a: map<Path, Version>, b: map<Path, Version>)
    ensures Rows(a + b) == Rows(a) + Rows(b)
  {
  }

  lemma AppendedTwice(st: State, a: map<Path, Version>, b: map<Path, Version>)
    requires a.Keys !! b.Keys
    ensures Appended(st, a + b) == Appended(st, a) + Appended(CommitAll(st, a), b)
  {
    forall p | p in b ensures History(CommitAll(st, a), p) == History(st, p) {
      CommitAllAt(st, a, p);
    }
  }

  // ---------- Logical size ----------

  function LiveSize(row: Row): nat {
    if row.deleted then 0 else row.size
  }

  // SELECT SUM(size_bytes) ... WHERE NOT deleted
  ghost function Used(index: map<Path, Row>): nat {
    if index == map[] then 0
    else
      var p :| p in index;
      LiveSize(index[p]) + Used(index - {p})
  }

  lemma {:induction false} UsedSplit(index: map<Path, Row>, p: Path)
    requires p in index
    ensures Used(index) == LiveSize(index[p]) + Used(index - {p})
    decreases |index|
  {
    var q :| q in index && Used(index) == LiveSize(index[q]) + Used(index - {q});
    if p != q {
      UsedSplit(index - {q}, p);
      UsedSplit(index - {p}, q);
      assert index - {q} - {p} == index - {p} - {q};
    }
  }

  function SizeAt(index: map<Path, Row>, p: Path): nat {
    if p in index then LiveSize(index[p]) else 0
  }

  // Replacing one row moves the total by exactly the difference of the two sizes.
  lemma UsedUpdate(index: map<Path, Row>, p: Path, row: Row)
    ensures Used(index[p := row]) == Used(index) - SizeAt(index, p) + LiveSize(row)
  {
    UsedSplit(index[p := row], p);
    if p in index {
      UsedSplit(index, p);
      assert index[p := row] - {p} == index - {p};
    } else {
      assert index[p := row] - {p} == index;
    }
  }

  // Gate.Allow
  predicate GateAllows(limit: int, used: int, oldSize: int, newSize: int) {
    newSize <= oldSize || used - oldSize + newSize <= limit
  }
}
