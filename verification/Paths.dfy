/** Canonical relative paths and the exclusion rules (internal/sync/paths.go). */
module Paths {
  import opened Options

  // ---------- Segments ----------

  // strings.Split(s, "/")
  function Split(s: string): (segs: seq<string>)
    ensures segs != []
  {
    if s == "" then [""]
    else
      var rest := Split(s[1..]);
      if s[0] == '/' then [""] + rest else [[s[0]] + rest[0]] + rest[1..]
  }

  // strings.Join(segs, "/")
  function Join(segs: seq<string>): string {
    if segs == [] then ""
    else if |segs| == 1 then segs[0]
    else segs[0] + "/" + Join(segs[1..])
  }

  // The segments that carry meaning: everything but "" and ".".
  function Kept(segs: seq<string>): seq<string> {
    if segs == [] then []
    else if segs[0] == "" || segs[0] == "." then Kept(segs[1..])
    else [segs[0]] + Kept(segs[1..])
  }

  // ---------- path.Clean ----------

  // The segment stack of Go's lexical path.Clean, for rooted and relative paths alike.
  function Resolve(rooted: bool, segs: seq<string>, out: seq<string>): seq<string> {
    if segs == [] then out
    else if segs[0] == "" || segs[0] == "." then Resolve(rooted, segs[1..], out)
    else if segs[0] != ".." then Resolve(rooted, segs[1..], out + [segs[0]])
    else if out != [] && out[|out| - 1] != ".." then Resolve(rooted, segs[1..], out[..|out| - 1])
    else if rooted then Resolve(rooted, segs[1..], out)
    else Resolve(rooted, segs[1..], out + [".."])
  }

  function Clean(p: string): string {
    var rooted := "/" <= p;
    var out := Resolve(rooted, Split(p), []);
    if rooted then "/" + Join(out) else if out == [] then "." else Join(out)
  }

  // ---------- SafeRelPath ----------

  // strings.ReplaceAll(p, "\\", "/")
  function Slashed(p: string): string {
    seq(|p|, i requires 0 <= i < |p| => if p[i] == '\\' then '/' else p[i])
  }

  function SafeRelPath(path: string): Option<string> {
    var p := Slashed(path);
    if p == "" || "/" <= p || '\0' in p then None
    else if ".." in Split(p) then None
    else
      var clean := Clean(p);
      if clean == "." || "../" <= clean then None else Some(clean)
  }

  // The segments of a path between separators of either kind.
  function Segments(path: string): (segs: seq<string>)
    ensures segs != []
  {
    if path == "" then [""]
    else
      var rest := Segments(path[1..]);
      if path[0] == '/' || path[0] == '\\' then [""] + rest else [[path[0]] + rest[0]] + rest[1..]
  }

  // The paths SafeRelPath lets through, said without path.Clean and without rewriting separators.
  predicate Acceptable(path: string) {
    && (path != "" ==> path[0] != '/' && path[0] != '\\')
    && '\0' !in path
    && ".." !in Segments(path)
    && Kept(Segments(path)) != []
  }

  // A name already in the form SafeRelPath returns.
  predicate Canonical(p: string) {
    SafeRelPath(p) == Some(p)
  }

  // ---------- Lemmas about segments ----------

  lemma {:induction false} SplitChars(s: string)
    ensures forall seg | seg in Split(s) :: '/' !in seg && forall c | c in seg :: c in s
  {
    if s != "" {
      SplitChars(s[1..]);
      var rest := Split(s[1..]);
      assert rest[0] in rest;
      forall seg | seg in Split(s)
        ensures '/' !in seg && forall c | c in seg :: c in s
      {
        if s[0] != '/' && seg == [s[0]] + rest[0] {
          assert forall c | c in seg :: c == s[0] || c in rest[0];
        } else {
          assert seg == "" || seg in rest;
        }
      }
    }
  }

  lemma {:induction false} SplitOfPlain(s: string)
    requires '/' !in s
    ensures Split(s) == [s]
  {
    if s != "" {
      SplitOfPlain(s[1..]);
      assert [s[0]] + s[1..] == s;
    }
  }

  lemma {:induction false} SplitAtSlash(head: string, tail: string)
    requires '/' !in head
    ensures Split(head + "/" + tail) == [head] + Split(tail)
  {
    var s := head + "/" + tail;
    if head == "" {
      assert s[1..] == tail;
    } else {
      assert s[1..] == head[1..] + "/" + tail;
      SplitAtSlash(head[1..], tail);
      assert [head[0]] + head[1..] == head;
    }
  }

  lemma {:induction false} SplitJoin(segs: seq<string>)
    requires segs != [] && forall seg | seg in segs :: '/' !in seg
    ensures Split(Join(segs)) == segs
  {
    if |segs| == 1 {
      SplitOfPlain(segs[0]);
    } else {
      SplitAtSlash(segs[0], Join(segs[1..]));
      SplitJoin(segs[1..]);
    }
  }

  lemma {:induction false} JoinChars(segs: seq<string>, c: char)
    requires c in Join(segs)
    ensures c == '/' || exists seg :: seg in segs && c in seg
  {
    if |segs| > 1 && c !in segs[0] && c != '/' {
      JoinChars(segs[1..], c);
    } else if c != '/' {
      assert c in segs[0] && segs[0] in segs;
    }
  }

  lemma {:induction false} KeptSegments(segs: seq<string>)
    ensures forall seg | seg in Kept(segs) :: seg in segs && seg != "" && seg != "."
    ensures (forall seg | seg in segs :: seg != "" && seg != ".") ==> Kept(segs) == segs
  {
    if segs != [] {
      KeptSegments(segs[1..]);
      assert [segs[0]] + segs[1..] == segs;
      assert segs[0] in segs && forall seg | seg in segs[1..] :: seg in segs;
    }
  }

  // Without ".." segments the stack only ever grows.
  lemma {:induction false} ResolvePlain(rooted: bool, segs: seq<string>, out: seq<string>)
    requires ".." !in segs
    ensures Resolve(rooted, segs, out) == out + Kept(segs)
  {
    if segs != [] {
      var grown := if segs[0] == "" || segs[0] == "." then out else out + [segs[0]];
      ResolvePlain(rooted, segs[1..], grown);
    }
  }

  // ---------- What SafeRelPath promises ----------

  lemma {:induction false} FirstChar(segs: seq<string>)
    requires segs != [] && segs[0] != ""
    ensures Join(segs) != "" && Join(segs)[0] == segs[0][0]
  {
  }

  lemma {:induction false} SegmentsOfSlashed(path: string)
    ensures Split(Slashed(path)) == Segments(path)
  {
    if path != "" {
      assert Slashed(path)[1..] == Slashed(path[1..]);
      SegmentsOfSlashed(path[1..]);
    }
  }

  // The accepted paths and their canonical forms, with path.Clean gone.
  lemma {:induction false} SafeRelPathMeaning(path: string)
    ensures SafeRelPath(path).Some? <==> Acceptable(path)
    ensures Acceptable(path) ==> SafeRelPath(path) == Some(Join(Kept(Segments(path))))
  {
    var p := Slashed(path);
    SegmentsOfSlashed(path);
    assert '\0' in path <==> '\0' in p by {
      SlashedKeeps(path, '\0');
    }
    var kept := Kept(Split(p));
    if ".." !in Split(p) && !("/" <= p) {
      ResolvePlain(false, Split(p), []);
      KeptSegments(Split(p));
      if kept != [] {
        assert [] + kept == kept;
        CleanIsInside(p);
      }
    }
    if p == "" {
      assert Kept(Split(p)) == [];
    }
  }

  lemma SlashedKeeps(p: string, c: char)
    requires c != '/' && c != '\\'
    ensures c in Slashed(p) <==> c in p
  {
    forall i | 0 <= i < |p| ensures Slashed(p)[i] == c <==> p[i] == c {
    }
  }

  // Both separators mean the same, wherever they stand.
  lemma SeparatorsAreOne(a: string, b: string)
    ensures SafeRelPath(a + "\\" + b) == SafeRelPath(a + "/" + b)
  {
    assert Slashed(a + "\\" + b) == Slashed(a + "/" + b);
  }

  // Once ".." segments are refused, path.Clean can neither climb out nor return ".":
  // the final "../" test of SafeRelPath never fires.
  lemma {:induction false} CleanIsInside(p: string)
    requires !("/" <= p) && ".." !in Split(p)
    ensures !("../" <= Clean(p))
    ensures Clean(p) == "." <==> Kept(Split(p)) == []
  {
    var kept := Kept(Split(p));
    ResolvePlain(false, Split(p), []);
    assert [] + kept == kept;
    KeptSegments(Split(p));
    SplitChars(p);
    if kept != [] {
      SplitJoin(kept);
      var c := Join(kept);
      assert kept[0] in kept;
      if "../" <= c {
        assert c == ".." + "/" + c[3..];
        SplitAtSlash("..", c[3..]);
        assert false;
      }
      if c == "." {
        SplitOfPlain(c);
        assert false;
      }
    }
  }

  lemma {:induction false} SlashedFixed(p: string)
    ensures '\\' !in Slashed(p)
    ensures '\\' !in p ==> Slashed(p) == p
  {
  }

  // Results are clean: no empty, "." or ".." segment, no backslash, no leading slash, no NUL.
  lemma {:induction false} SafeRelPathClean(path: string, rel: string)
    requires SafeRelPath(path) == Some(rel)
    ensures rel != "" && !("/" <= rel) && '\\' !in rel && '\0' !in rel
    ensures forall seg | seg in Split(rel) :: seg != "" && seg != "." && seg != ".."
    ensures Split(rel) == Kept(Segments(path))
  {
    var p := Slashed(path);
    var kept := Kept(Split(p));
    SafeRelPathMeaning(path);
    SegmentsOfSlashed(path);
    SlashedFixed(path);
    SplitChars(p);
    KeptSegments(Split(p));
    SplitJoin(kept);
    assert kept[0] in kept;
    FirstChar(kept);
    if c: char :| c in rel && (c == '\\' || c == '\0') {
      JoinChars(kept, c);
      assert false;
    }
  }

  lemma {:induction false} SafeRelPathIdempotent(path: string, rel: string)
    requires SafeRelPath(path) == Some(rel)
    ensures Canonical(rel)
  {
    SafeRelPathClean(path, rel);
    SlashedFixed(rel);
    SegmentsOfSlashed(rel);
    KeptSegments(Split(rel));
    SafeRelPathMeaning(rel);
    SafeRelPathMeaning(path);
  }

  // Two accepted spellings name the same file exactly when they agree on the segments that matter.
  lemma {:induction false} SafeRelPathInjective(a: string, b: string)
    requires Acceptable(a) && Acceptable(b)
    ensures SafeRelPath(a) == SafeRelPath(b) <==> Kept(Segments(a)) == Kept(Segments(b))
  {
    SafeRelPathMeaning(a);
    SafeRelPathMeaning(b);
    SafeRelPathClean(a, SafeRelPath(a).value);
    SafeRelPathClean(b, SafeRelPath(b).value);
  }

  // ---------- Exclusion ----------

  const SECRETS: seq<string> := [
    ".env", ".cclaude/", ".ssh/", ".aws/", ".claude/", ".config/gcloud/",
    ".azure/", ".kube/", ".npmrc", ".pypirc", ".netrc", ".git-credentials"
  ]

  const TREES: seq<string> := [
    ".git/", ".DS_Store",
    "node_modules/", "vendor/",
    "target/", "build/", "dist/", "out/"
  ]

  const CACHES: seq<string> := [
    ".gradle/",
    "__pycache__/", ".venv/", "venv/", ".pytest_cache/", ".mypy_cache/", ".tox/"
  ]

  const EXCLUDED_PREFIXES: seq<string> := SECRETS + TREES + CACHES

  const TEMP_PREFIX := ".cclaude.tmp."

  // strings.TrimSuffix(pre, "/")
  function TrimSlash(pre: string): string {
    if pre != "" && pre[|pre| - 1] == '/' then pre[..|pre| - 1] else pre
  }

  predicate DefaultExcluded(p: string) {
    exists pre | pre in EXCLUDED_PREFIXES :: p == TrimSlash(pre) || pre <= p
  }

  // filepath.Base, for a name that does not end in a slash
  function Base(p: string): string {
    var segs := Split(p);
    segs[|segs| - 1]
  }

  // The files both walks list (internal/sync/client.go:57, internal/sync/server.go:140).
  predicate Scannable(p: string) {
    !DefaultExcluded(p) && !(TEMP_PREFIX <= Base(p))
  }

  // What the prefixes amount to: directories with all that is below them, and files by the beginning of
  // their path.
  const EXCLUDED_DIRS: set<string> := {
    ".cclaude", ".ssh", ".aws", ".claude", ".config/gcloud", ".azure", ".kube",
    ".git", "node_modules", "vendor", "target", "build", "dist", "out",
    ".gradle", "__pycache__", ".venv", "venv", ".pytest_cache", ".mypy_cache", ".tox"
  }

  const EXCLUDED_FILES: set<string> := {".env", ".npmrc", ".pypirc", ".netrc", ".git-credentials", ".DS_Store"}

  const FIRST_CHARS := ".nvtbdo_"

  // No entry starts with "/" or ends in "//", and a dot only comes first.
  predicate Usual(pre: string) {
    && |pre| >= 2 && pre[0] in FIRST_CHARS && pre[0] != '/' && pre[|pre| - 2] != '/'
    && forall i | 0 < i < |pre| :: pre[i] != '.'
  }

  lemma SecretsAreUsual(i: nat)
    requires i < |SECRETS|
    ensures Usual(SECRETS[i])
  {
    assert i < 4 || 4 <= i < 8 || 8 <= i;
  }

  lemma TreesAreUsual(i: nat)
    requires i < |TREES|
    ensures Usual(TREES[i])
  {
    assert i < 4 || 4 <= i;
  }

  lemma CachesAreUsual(i: nat)
    requires i < |CACHES|
    ensures Usual(CACHES[i])
  {
    assert i < 4 || 4 <= i;
  }

  lemma PrefixesAreUsual()
    ensures forall pre | pre in EXCLUDED_PREFIXES :: Usual(pre)
  {
    forall pre | pre in EXCLUDED_PREFIXES ensures Usual(pre) {
      if i :| 0 <= i < |SECRETS| && SECRETS[i] == pre {
        SecretsAreUsual(i);
      } else if i :| 0 <= i < |TREES| && TREES[i] == pre {
        TreesAreUsual(i);
      } else {
        var i :| 0 <= i < |CACHES| && CACHES[i] == pre;
        CachesAreUsual(i);
      }
    }
  }

  lemma {:induction false} SplitConcat(a: string, b: string)
    ensures Split(a + "/" + b) == Split(a) + Split(b)
  {
    var s := a + "/" + b;
    if a == "" {
      assert s[1..] == b;
    } else {
      assert s[1..] == a[1..] + "/" + b;
      SplitConcat(a[1..], b);
    }
  }

  lemma {:induction false} JoinSplit(s: string)
    ensures Join(Split(s)) == s
  {
    if s != "" {
      JoinSplit(s[1..]);
      var rest := Split(s[1..]);
      if s[0] == '/' {
        assert ([""] + rest)[1..] == rest;
      } else {
        assert ([[s[0]] + rest[0]] + rest[1..])[1..] == rest[1..];
      }
    }
  }

  lemma {:induction false} JoinConcat(a: seq<string>, b: seq<string>)
    requires a != [] && b != []
    ensures Join(a + b) == Join(a) + "/" + Join(b)
  {
    assert (a + b)[1..] == a[1..] + b;
    if |a| == 1 {
      assert a[1..] + b == b;
    } else {
      JoinConcat(a[1..], b);
    }
  }

  // A path is at or below a directory exactly if its segments begin with those of the directory.
  lemma SegmentsBelow(dir: string, p: string)
    ensures Split(dir) <= Split(p) <==> p == dir || dir + "/" <= p
  {
    if dir + "/" <= p {
      assert p == dir + "/" + p[|dir| + 1..];
      SplitConcat(dir, p[|dir| + 1..]);
    }
    if Split(dir) <= Split(p) {
      var rest := Split(p)[|Split(dir)|..];
      assert Split(p) == Split(dir) + rest;
      JoinSplit(dir);
      JoinSplit(p);
      if rest != [] {
        JoinConcat(Split(dir), rest);
      } else {
        assert Split(p) == Split(dir);
      }
    }
  }

  // A prefix of the list is a directory with its slash, or the beginning of a file's path.
  predicate Means(pre: string) {
    pre in EXCLUDED_FILES || exists dir :: dir in EXCLUDED_DIRS && pre == dir + "/"
  }

  lemma SecretDirs()
    ensures && ".cclaude" + "/" == ".cclaude/" && ".ssh" + "/" == ".ssh/" && ".aws" + "/" == ".aws/"
            && ".claude" + "/" == ".claude/" && ".config/gcloud" + "/" == ".config/gcloud/" && ".azure" + "/" == ".azure/"
            && ".kube" + "/" == ".kube/"
  {
  }

  lemma TreeDirs()
    ensures && ".git" + "/" == ".git/" && "node_modules" + "/" == "node_modules/" && "vendor" + "/" == "vendor/"
            && "target" + "/" == "target/" && "build" + "/" == "build/" && "dist" + "/" == "dist/"
            && "out" + "/" == "out/"
  {
  }

  lemma CacheDirs()
    ensures && ".gradle" + "/" == ".gradle/" && "__pycache__" + "/" == "__pycache__/" && ".venv" + "/" == ".venv/"
            && "venv" + "/" == "venv/" && ".pytest_cache" + "/" == ".pytest_cache/" && ".mypy_cache" + "/" == ".mypy_cache/"
            && ".tox" + "/" == ".tox/"
  {
  }

  lemma SecretsMean(i: nat)
    requires i < |SECRETS|
    ensures Means(SECRETS[i])
  {
    SecretDirs();
    assert i < 4 || 4 <= i < 8 || 8 <= i;
  }

  lemma TreesMean(i: nat)
    requires i < |TREES|
    ensures Means(TREES[i])
  {
    TreeDirs();
    assert i < 4 || 4 <= i;
  }

  lemma CachesMean(i: nat)
    requires i < |CACHES|
    ensures Means(CACHES[i])
  {
    CacheDirs();
    assert i < 4 || 4 <= i;
  }

  lemma FilesAreListed(name: string)
    requires name in EXCLUDED_FILES
    ensures name in EXCLUDED_PREFIXES && name[|name| - 1] != '/'
  {
    assert SECRETS[0] == ".env" && SECRETS[8] == ".npmrc" && SECRETS[9] == ".pypirc" && SECRETS[10] == ".netrc";
    assert SECRETS[11] == ".git-credentials" && TREES[1] == ".DS_Store";
  }

  lemma DirsAreListed(dir: string)
    requires dir in EXCLUDED_DIRS
    ensures dir + "/" in EXCLUDED_PREFIXES
  {
    SecretDirs();
    TreeDirs();
    CacheDirs();
  }

  // What is excluded: the listed directories and all below them, whatever else starts like them, and the
  // files whose path begins like a listed one.
  lemma ExclusionMeaning(p: string)
    ensures DefaultExcluded(p) <==>
            || (exists dir :: dir in EXCLUDED_DIRS && Split(dir) <= Split(p))
            || (exists name :: name in EXCLUDED_FILES && name <= p)
  {
    if pre :| pre in EXCLUDED_PREFIXES && (p == TrimSlash(pre) || pre <= p) {
      if i :| 0 <= i < |SECRETS| && SECRETS[i] == pre {
        SecretsMean(i);
      } else if i :| 0 <= i < |TREES| && TREES[i] == pre {
        TreesMean(i);
      } else {
        var i :| 0 <= i < |CACHES| && CACHES[i] == pre;
        CachesMean(i);
      }
      PrefixIsBelow(pre, p);
    }
    if dir :| dir in EXCLUDED_DIRS && Split(dir) <= Split(p) {
      DirsAreListed(dir);
      SegmentsBelow(dir, p);
      assert TrimSlash(dir + "/") == dir;
    }
    if name :| name in EXCLUDED_FILES && name <= p {
      FilesAreListed(name);
    }
  }

  lemma PrefixIsBelow(pre: string, p: string)
    requires Means(pre) && (p == TrimSlash(pre) || pre <= p)
    ensures || (exists dir :: dir in EXCLUDED_DIRS && Split(dir) <= Split(p))
            || (exists name :: name in EXCLUDED_FILES && name <= p)
  {
    if pre in EXCLUDED_FILES {
      FilesAreListed(pre);
      assert pre <= p;
    } else {
      var dir :| dir in EXCLUDED_DIRS && pre == dir + "/";
      assert TrimSlash(pre) == dir;
      SegmentsBelow(dir, p);
    }
  }

  // Excluding a directory excludes everything below it.
  lemma {:induction false} ExclusionIsDownwardClosed(dir: string, below: string)
    requires DefaultExcluded(dir + "/")
    ensures DefaultExcluded(dir + "/" + below)
  {
    PrefixesAreUsual();
    var pre :| pre in EXCLUDED_PREFIXES && (dir + "/" == TrimSlash(pre) || pre <= dir + "/");
    assert (dir + "/")[|dir|] == '/';
    assert pre <= dir + "/" <= dir + "/" + below;
  }

  lemma {:induction false} AbsoluteIsNotExcluded(p: string)
    requires "/" <= p
    ensures !DefaultExcluded(p)
  {
    PrefixesAreUsual();
  }

  // ---------- Plain names ----------

  // A name without separators that starts like no excluded prefix.
  predicate Plain(p: string) {
    p != "" && p[0] !in FIRST_CHARS && '/' !in p && '\\' !in p && '\0' !in p
  }

  lemma PlainName(p: string)
    requires Plain(p)
    ensures Canonical(p) && Scannable(p)
  {
    SlashedFixed(p);
    SegmentsOfSlashed(p);
    SplitOfPlain(p);
    KeptOne(p);
    SafeRelPathMeaning(p);
    StartsLikeNone(p);
  }

  lemma KeptOne(p: string)
    requires p != "" && p != "."
    ensures Kept([p]) == [p]
  {
    assert [p][1..] == [];
  }

  lemma StartsLikeNone(p: string)
    requires p != "" && p[0] !in FIRST_CHARS
    ensures !DefaultExcluded(p)
  {
    PrefixesAreUsual();
    if pre :| pre in EXCLUDED_PREFIXES && (p == TrimSlash(pre) || pre <= p) {
      StartsOtherwise(p, pre);
    }
  }

  lemma StartsOtherwise(p: string, pre: string)
    requires p != "" && p[0] !in FIRST_CHARS && |pre| > 1 && pre[0] in FIRST_CHARS
    ensures p != TrimSlash(pre) && !(pre <= p)
  {
    assert TrimSlash(pre)[0] == pre[0];
  }

  // Some plain name is not in use.
  lemma {:induction false} FreshName(used: set<string>, n: nat) returns (p: string)
    ensures Plain(p) && p !in used && |p| > n
    decreases |used|
  {
    p := seq(n + 1, _ => 'a');
    if p in used {
      p := FreshName(used - {p}, n + 1);
    }
  }
}
