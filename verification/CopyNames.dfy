/** The names of conflict copies and temp files: both sides spell them alike, and a scan covers all but one kind. */
module CopyNames {
  import opened Listing
  import opened ThreeWay
  import opened ClientRound
  import opened CalmRound
  import opened Convergence
  import opened Sequences
  import Paths

  // Segments with something appended to the last.
  function Extended(segs: seq<string>, x: string): seq<string>
    requires segs != []
  {
    segs[..|segs| - 1] + [segs[|segs| - 1] + x]
  }

  lemma {:induction false} SplitExtended(p: string, x: string)
    requires '/' !in x
    ensures Paths.Split(p + x) == Extended(Paths.Split(p), x)
  {
    if p == "" {
      assert p + x == x;
      Paths.SplitOfPlain(x);
    } else {
      assert (p + x)[1..] == p[1..] + x;
      SplitExtended(p[1..], x);
      HeadKept(p[0], Paths.Split(p[1..]), x);
    }
  }

  lemma HeadKept(c: char, segs: seq<string>, x: string)
    requires segs != []
    ensures [""] + Extended(segs, x) == Extended([""] + segs, x)
    ensures [[c] + Extended(segs, x)[0]] + Extended(segs, x)[1..] == Extended([[c] + segs[0]] + segs[1..], x)
  {
    if |segs| == 1 {
      Associative([c], segs[0], x);
    }
  }

  lemma {:induction false} JoinExtended(segs: seq<string>, x: string)
    requires segs != []
    ensures Paths.Join(Extended(segs, x)) == Paths.Join(segs) + x
  {
    if |segs| > 1 {
      JoinExtended(segs[1..], x);
      assert Extended(segs, x)[1..] == Extended(segs[1..], x);
    }
  }

  // What may be appended to a name without changing its directory.
  predicate IsSuffix(x: string) {
    |x| > 2 && '/' !in x && '\\' !in x && '\0' !in x
  }

  lemma ExtendedIsCanonical(p: string, x: string)
    requires Paths.Canonical(p) && IsSuffix(x)
    ensures Paths.Canonical(p + x)
  {
    var segs := Paths.Split(p);
    Paths.SafeRelPathClean(p, p);
    Paths.SafeRelPathMeaning(p);
    Paths.SegmentsOfSlashed(p);
    Paths.SegmentsOfSlashed(p + x);
    Paths.SlashedFixed(p);
    Paths.SlashedFixed(p + x);
    SplitExtended(p, x);
    JoinExtended(segs, x);
    forall seg | seg in Extended(segs, x) ensures seg != "" && seg != "." && seg != ".." {
      assert seg in segs || |seg| > 2;
    }
    Paths.KeptSegments(Extended(segs, x));
    Paths.SafeRelPathMeaning(p + x);
  }

  // A suffix that starts with a dot takes a name into no excluded prefix.
  lemma ExtendedIsIncluded(p: string, x: string)
    requires p != "" && !Paths.DefaultExcluded(p) && x != "" && x[0] == '.'
    ensures !Paths.DefaultExcluded(p + x)
  {
    Paths.PrefixesAreUsual();
    if pre :| pre in Paths.EXCLUDED_PREFIXES && (p + x == Paths.TrimSlash(pre) || pre <= p + x) {
      DotInside(p, x, pre);
    }
  }

  lemma DotInside(p: string, x: string, pre: string)
    requires p != "" && x != "" && x[0] == '.' && !(pre <= p)
    requires p + x == Paths.TrimSlash(pre) || pre <= p + x
    ensures |p| < |pre| && pre[|p|] == '.'
  {
    assert (p + x)[|p|] == '.';
    assert pre <= p + x && |pre| <= |p| ==> pre <= p;
  }

  const COPY := ".conflict-remote-"

  // The name a temp file has before the last dot of its prefix.
  const TEMP_STEM := ".cclaude.tmp"

  lemma TempMeets(b: string, x: string)
    requires b != "" && !(Paths.TEMP_PREFIX <= b) && |x| > 2 && x[0] == '.' && x[1] == 'c'
    ensures Paths.TEMP_PREFIX <= b + x <==> b == TEMP_STEM
  {
    var name := b + x;
    if Paths.TEMP_PREFIX <= name {
      assert name[|b|] == '.' && name[|b| + 1] == 'c';
      assert |b| < |Paths.TEMP_PREFIX|;
      assert |b| == 8 || |b| == 12;
      assert b == Paths.TEMP_PREFIX[..|b|];
    }
    if b == TEMP_STEM {
      assert name[..13] == Paths.TEMP_PREFIX;
    }
  }

  lemma BaseExtended(p: string, x: string)
    requires Paths.Canonical(p) && '/' !in x
    ensures p != "" && Paths.Base(p) != "" && Paths.Base(p + x) == Paths.Base(p) + x
  {
    Paths.SafeRelPathClean(p, p);
    SplitExtended(p, x);
    assert Paths.Base(p) in Paths.Split(p);
  }

  // A conflict copy of a scanned file is scanned too, unless the file is called ".cclaude.tmp": the copy
  // then looks like a temp file.
  lemma CopyIsScannedIff(p: Path, stamp: string)
    requires Paths.Canonical(p) && Paths.Scannable(p) && '/' !in stamp && '\\' !in stamp && '\0' !in stamp
    ensures Paths.Canonical(ConflictName(p, stamp))
    ensures Paths.Scannable(ConflictName(p, stamp)) <==> Paths.Base(p) != TEMP_STEM
  {
    SuffixIs(p, stamp);
    SuffixIsScannedIff(p, COPY + stamp);
  }

  // A temp file that a failing rename leaves behind is synced like any other, with the same exception.
  lemma TempIsScannedIff(target: Path)
    requires Paths.Canonical(target) && Paths.Scannable(target)
    ensures Paths.Canonical(TempOf(target))
    ensures Paths.Scannable(TempOf(target)) <==> Paths.Base(target) != TEMP_STEM
  {
    SuffixIsScannedIff(target, ".cclaude.dl.tmp");
  }

  lemma SuffixIsScannedIff(p: Path, x: string)
    requires Paths.Canonical(p) && Paths.Scannable(p) && IsSuffix(x) && x[0] == '.' && x[1] == 'c'
    ensures Paths.Canonical(p + x) && (Paths.Scannable(p + x) <==> Paths.Base(p) != TEMP_STEM)
  {
    BaseExtended(p, x);
    ExtendedIsCanonical(p, x);
    ExtendedIsIncluded(p, x);
    TempMeets(Paths.Base(p), x);
  }

  lemma SuffixIs(p: Path, stamp: string)
    requires '/' !in stamp && '\\' !in stamp && '\0' !in stamp
    ensures var x := COPY + stamp; IsSuffix(x) && x[0] == '.' && x[1] == 'c' && ConflictName(p, stamp) == p + (COPY + stamp)
  {
  }

  // Timestamps without separators, of the usual form, and unused as conflict names: the names are clean.
  ghost predicate FreshStamps(at: Path -> string, l: Round) {
    forall p | LVerdict(l, p) == SaveBoth ::
      && IsStamp(at(p)) && '/' !in at(p) && '\\' !in at(p) && '\0' !in at(p)
      && Paths.Base(p) != TEMP_STEM && Blank(SliceAt(l, ConflictName(p, at(p))))
  }

  lemma FreshStampsAreClean(at: Path -> string, l: Round)
    requires Listed(l) && FreshStamps(at, l)
    ensures CleanNames(at, l)
  {
    forall p | LVerdict(l, p) == SaveBoth
      ensures Paths.Canonical(ConflictName(p, at(p))) && Paths.Scannable(ConflictName(p, at(p)))
    {
      PointFacts(l, p);
      VerdictFacts(p, LCorner(l, p), At(l.st.disk, p));
      CopyIsScannedIff(p, at(p));
    }
  }
}
