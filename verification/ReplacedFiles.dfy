/** When a file that replaces another one is sure to be read in full, judged by sizes and saved cursors alone. */
module ReplacedFiles {
  import opened Lines
  import opened Collecting
  import opened CollectorRuns
  import opened Sequences

  // What can be seen from outside: the file grows by so many bytes, a scan does or does not save its cursor.
  datatype Sight = GrowBy(n: nat) | Attempt(saves: bool)

  // Does this scan get as far as saving its cursor?
  predicate Saves(codec: Codec, t: Track, f: Faults) {
    !f.load && (f.save ==> f.saveKeeps) && Scan(codec, t.cursor, t.file, f.(save := false)).ok
  }

  predicate Seen(codec: Codec, t: Track, h: Happening, s: Sight) {
    match s
    case GrowBy(n) => h.Grow? && |h.more| == n
    case Attempt(saves) => h.ScanFile? && Saves(codec, t, h.faults) == saves
  }

  ghost predicate Fits(codec: Codec, t: Track, hs: seq<Happening>, sights: seq<Sight>) {
    && |hs| == |sights|
    && forall i | 0 <= i < |hs| :: Seen(codec, PlayOn(codec, t, hs[..i]), hs[i], sights[i])
  }

  function SizeAfter(n: nat, sights: seq<Sight>): nat {
    if sights == [] then n
    else
      var last := sights[|sights| - 1];
      SizeAfter(n, sights[..|sights| - 1]) + if last.GrowBy? then last.n else 0
  }

  // Some cursor is saved while the file is still shorter than `end`.
  ghost predicate TimelySave(n: nat, sights: seq<Sight>, end: nat) {
    exists i | 0 <= i < |sights| :: sights[i] == Attempt(true) && SizeAfter(n, sights[..i]) < end
  }

  // The file has just been replaced while the cursor was this one.
  function Replaced(codec: Codec, cur: Cursor, file: string): Track {
    Step(codec, NEW.(cursor := cur), Replace(file))
  }

  // Once a scan without failures has followed, all events of the file are in.
  ghost predicate AllInserted(codec: Codec, t: Track) {
    forall e | e in EventsOf(codec, Complete(t.file)) :: e in Scanning(codec, t, NO_FAULTS).log
  }

  function End(cur: Cursor): nat {
    cur.offset + |cur.partial|
  }

  // ---------- Read in full ----------

  lemma {:induction false} SizeIs(codec: Codec, t: Track, hs: seq<Happening>, sights: seq<Sight>)
    requires Fits(codec, t, hs, sights)
    ensures Quiet(hs) && |PlayOn(codec, t, hs).file| == SizeAfter(|t.file|, sights)
  {
    if hs != [] {
      var init := hs[..|hs| - 1];
      FitsBefore(codec, t, hs, sights, |hs| - 1);
      SizeIs(codec, t, init, sights[..|hs| - 1]);
      UnSnoc(hs);
      assert Seen(codec, PlayOn(codec, t, init), hs[|hs| - 1], sights[|hs| - 1]);
    }
  }

  lemma FitsBefore(codec: Codec, t: Track, hs: seq<Happening>, sights: seq<Sight>, i: nat)
    requires Fits(codec, t, hs, sights) && i <= |hs|
    ensures Fits(codec, t, hs[..i], sights[..i])
  {
    forall k | 0 <= k < i ensures Seen(codec, PlayOn(codec, t, hs[..i][..k]), hs[..i][k], sights[..i][k]) {
      assert hs[..i][..k] == hs[..k];
    }
  }

  // A saved cursor of a file found shorter is another one: it is not beyond the file's end.
  lemma SavedIsAnother(codec: Codec, t: Track, f: Faults)
    requires Shorter(t.file, t.cursor) && Saves(codec, t, f)
    ensures Scan(codec, t.cursor, t.file, f).cursor != t.cursor
  {
    var unread := Unread(START, t.file, f);
    ScanIs(codec, t.cursor, t.file, f, START, unread);
    ScanIs(codec, t.cursor, t.file, f.(save := false), START, unread);
    NextWithin(START, START.partial + unread, Breaks(t.file, f), |t.file|);
  }

  // From a save in time on, the cursor belongs to the new contents.
  lemma TimelyFollows(codec: Codec, t: Track, hs: seq<Happening>, sights: seq<Sight>, i: nat)
    requires t.phase.Stale? && Fits(codec, t, hs, sights) && i < |hs|
    requires sights[i] == Attempt(true) && SizeAfter(|t.file|, sights[..i]) < End(t.cursor)
    ensures PlayOn(codec, t, hs).phase.Following?
  {
    var init := hs[..i];
    var now := PlayOn(codec, t, init);
    SinceThen(codec, t, hs, sights, i);
    assert Seen(codec, now, hs[i], sights[i]);
    SaveFollows(codec, t, SavedInTime(codec, t, init), now, hs[i].faults);
    OneMoreHappens(codec, t, hs, i);
    SizeIs(codec, t, hs, sights);
    StillFollowing(codec, t, hs, i + 1);
  }

  lemma SinceThen(codec: Codec, t: Track, hs: seq<Happening>, sights: seq<Sight>, i: nat)
    requires t.phase.Stale? && Fits(codec, t, hs, sights) && i <= |hs|
    ensures Since(t, SavedInTime(codec, t, hs[..i]), PlayOn(codec, t, hs[..i]))
    ensures |PlayOn(codec, t, hs[..i]).file| == SizeAfter(|t.file|, sights[..i])
  {
    FitsBefore(codec, t, hs, sights, i);
    SizeIs(codec, t, hs[..i], sights[..i]);
    CaughtIff(codec, t, hs[..i]);
  }

  lemma OneMoreHappens(codec: Codec, t: Track, hs: seq<Happening>, i: nat)
    requires i < |hs|
    ensures PlayOn(codec, t, hs[..i + 1]) == Step(codec, PlayOn(codec, t, hs[..i]), hs[i])
  {
    assert hs[..i + 1][..i] == hs[..i];
  }

  lemma SaveFollows(codec: Codec, t: Track, saved: bool, now: Track, f: Faults)
    requires t.phase.Stale? && Since(t, saved, now) && Shorter(now.file, t.cursor) && Saves(codec, now, f)
    ensures Scanning(codec, now, f).phase.Following?
  {
    if !saved {
      SavedIsAnother(codec, now, f);
    }
  }

  lemma {:induction false} StillFollowing(codec: Codec, t: Track, hs: seq<Happening>, i: nat)
    requires Quiet(hs) && i <= |hs| && PlayOn(codec, t, hs[..i]).phase.Following?
    ensures PlayOn(codec, t, hs).phase.Following?
    decreases |hs|
  {
    if i == |hs| {
      assert hs[..i] == hs;
    } else {
      var init := hs[..|hs| - 1];
      assert hs[|hs| - 1] in hs && forall h | h in init :: h in hs;
      assert init[..i] == hs[..i];
      StillFollowing(codec, t, init, i);
    }
  }

  lemma CaughtIsInserted(codec: Codec, t: Track, i: nat, j: nat)
    requires Caught(t) && Inv(codec, t, i, j)
    ensures AllInserted(codec, t)
  {
    var i', j' := i, j;
    if t.phase.Following? {
      i', j' := FollowingScan(codec, t, NO_FAULTS, i, j);
    } else {
      i', j' := StaleScan(codec, t, NO_FAULTS, j);
    }
    AllLines(codec, Complete(t.file));
  }

  lemma SureToBeInserted(codec: Codec, cur: Cursor, file: string, hs: seq<Happening>, sights: seq<Sight>)
    requires '\n' !in cur.partial && Fits(codec, Replaced(codec, cur, file), hs, sights)
    requires SureToReadAll(cur, SizeAfter(|file|, sights)) || TimelySave(|file|, sights, End(cur))
    ensures AllInserted(codec, PlayOn(codec, Replaced(codec, cur, file), hs))
  {
    var t := Replaced(codec, cur, file);
    var end := PlayOn(codec, t, hs);
    SizeIs(codec, t, hs, sights);
    ReplaceKeepsInv(codec, NEW.(cursor := cur), file, 0);
    var i, j := PlayOnKeepsInv(codec, t, hs, 0, 0);
    if cur == START {
      StillFollowing(codec, t, hs, 0);
      CaughtIsInserted(codec, end, i, j);
    } else if |end.file| < End(cur) || TimelySave(|file|, sights, End(cur)) {
      CaughtIff(codec, t, hs);
      if k :| 0 <= k < |sights| && sights[k] == Attempt(true) && SizeAfter(|file|, sights[..k]) < End(cur) {
        TimelyFollows(codec, t, hs, sights, k);
      }
      CaughtIsInserted(codec, end, i, j);
    } else {
      TooShortForEvents(codec, end.file);
    }
  }

  // ---------- Missed ----------

  const NOT_LOADED := NO_FAULTS.(load := true)

  // The first n bytes of a file whose only event is its first line.
  function Text(x: char, n: nat): string {
    if n == 0 then "" else [x] + Newlines(n - 1)
  }

  function Happened(x: char, n: nat, sights: seq<Sight>): seq<Happening> {
    if sights == [] then []
    else
      var init, last := sights[..|sights| - 1], sights[|sights| - 1];
      Happened(x, n, init) + [HappensAt(x, SizeAfter(n, init), last)]
  }

  function HappensAt(x: char, n: nat, s: Sight): Happening {
    match s
    case GrowBy(k) => Grow(Text(x, n + k)[n..])
    case Attempt(saves) => ScanFile(if saves then NO_FAULTS else NOT_LOADED)
  }

  // Nothing of the file has been inserted, and the cursor is beyond its first line.
  predicate Beyond(x: char, cur: Cursor, n: nat, t: Track) {
    && t.file == Text(x, n) && t.log == [] && t.cursor.partial in {cur.partial, ""}
    && (t.cursor == cur || End(cur) <= End(t.cursor) <= n)
  }

  lemma TextGrows(x: char, n: nat, k: nat)
    ensures |Text(x, n)| == n && Text(x, n) + Text(x, n + k)[n..] == Text(x, n + k)
  {
  }

  // A scan from there inserts nothing and stays beyond.
  lemma ScanBeyond(x: char, cur: Cursor, n: nat, t: Track)
    requires Beyond(x, cur, n, t) && !IsSpace(x) && '\n' !in cur.partial && 1 <= End(cur) <= n
    requires TrimLeft(TrimRight(cur.partial + "\n")) != [x]
    ensures Beyond(x, cur, n, Scanning(OnlyLine(x), t, NO_FAULTS)) && Saves(OnlyLine(x), t, NO_FAULTS)
    ensures Scan(OnlyLine(x), t.cursor, t.file, NO_FAULTS).events == []
  {
    TrimLine(x);
    assert "" + "\n" == "\n";
    ScansOn(x, t.cursor, n);
    EmptyIsUnit(t.log);
  }

  lemma ScansOn(x: char, cur: Cursor, n: nat)
    requires !IsSpace(x) && '\n' !in cur.partial && 1 <= End(cur) <= n
    requires TrimLeft(TrimRight(cur.partial + "\n")) != [x]
    ensures var s := Scan(OnlyLine(x), cur, Text(x, n), NO_FAULTS);
            s.events == [] && s.ok && End(s.cursor) == n && s.cursor.partial in {cur.partial, ""}
  {
    MissesFirst(cur, x, n);
    GoesOn(OnlyLine(x), cur, Text(x, n));
    assert Text(x, n)[End(cur)..] == Newlines(n - End(cur));
    NextAfterNewlines(cur, n - End(cur));
  }

  lemma GoesOn(codec: Codec, cur: Cursor, file: string)
    requires End(cur) <= |file|
    ensures var s := Scan(codec, cur, file, NO_FAULTS);
            s.ok && s.cursor == NextCursor(cur, cur.partial + file[End(cur)..], false)
  {
    ScanIs(codec, cur, file, NO_FAULTS, cur, file[End(cur)..]);
    FeedAll(codec, Complete(cur.partial + file[End(cur)..]), false);
  }

  lemma NextAfterNewlines(cur: Cursor, k: nat)
    requires '\n' !in cur.partial
    ensures var next := NextCursor(cur, cur.partial + Newlines(k), false);
            End(next) == End(cur) + k && next.partial in {cur.partial, ""}
  {
    RestOfNewlines(cur.partial, k);
    RestHasNoNewline(cur.partial + Newlines(k));
  }

  lemma RestOfNewlines(partial: string, n: nat)
    requires '\n' !in partial
    ensures Rest(partial + Newlines(n)) == if n == 0 then partial else ""
  {
    var s := partial + Newlines(n);
    RestHasNoNewline(s);
    LastIsAfter(s, Total(Complete(s)));
    if n == 0 {
      assert s == partial;
    }
  }

  lemma LastIsAfter(s: string, k: nat)
    requires k <= |s|
    ensures k < |s| ==> s[|s| - 1] in s[k..]
  {
    assert k < |s| ==> s[k..][|s| - 1 - k] == s[|s| - 1];
  }

  ghost predicate GoesBeyond(x: char, cur: Cursor, n: nat, t: Track, hs: seq<Happening>, sights: seq<Sight>) {
    Fits(OnlyLine(x), t, hs, sights) && Beyond(x, cur, SizeAfter(n, sights), PlayOn(OnlyLine(x), t, hs))
  }

  lemma {:induction false} StaysBeyond(x: char, cur: Cursor, n: nat, sights: seq<Sight>)
    requires !IsSpace(x) && '\n' !in cur.partial && cur != START && !TimelySave(n, sights, End(cur))
    requires TrimLeft(TrimRight(cur.partial + "\n")) != [x]
    ensures GoesBeyond(x, cur, n, Replaced(OnlyLine(x), cur, Text(x, n)), Happened(x, n, sights), sights)
    decreases |sights|
  {
    var t := Replaced(OnlyLine(x), cur, Text(x, n));
    if sights != [] {
      var init, last := sights[..|sights| - 1], sights[|sights| - 1];
      UnSnoc(sights);
      NoTimelySaveBefore(n, sights, End(cur));
      StaysBeyond(x, cur, n, init);
      BeyondOnceMore(x, cur, n, t, Happened(x, n, init), init, last);
    }
  }

  lemma BeyondOnceMore(x: char, cur: Cursor, n: nat, t: Track, hs: seq<Happening>, sights: seq<Sight>, s: Sight)
    requires !IsSpace(x) && '\n' !in cur.partial && cur != START && TrimLeft(TrimRight(cur.partial + "\n")) != [x]
    requires GoesBeyond(x, cur, n, t, hs, sights) && (s == Attempt(true) ==> End(cur) <= SizeAfter(n, sights))
    ensures GoesBeyond(x, cur, n, t, hs + [HappensAt(x, SizeAfter(n, sights), s)], sights + [s])
  {
    var h := HappensAt(x, SizeAfter(n, sights), s);
    OneMoreSight(x, cur, SizeAfter(n, sights), PlayOn(OnlyLine(x), t, hs), s, h);
    FitsMore(OnlyLine(x), t, hs, sights, h, s);
  }

  lemma NoTimelySaveBefore(n: nat, sights: seq<Sight>, end: nat)
    requires sights != [] && !TimelySave(n, sights, end)
    ensures var init, last := sights[..|sights| - 1], sights[|sights| - 1];
            !TimelySave(n, init, end) && (last == Attempt(true) ==> end <= SizeAfter(n, init))
  {
    var init := sights[..|sights| - 1];
    if i :| 0 <= i < |init| && init[i] == Attempt(true) && SizeAfter(n, init[..i]) < end {
      assert sights[..i] == init[..i] && sights[i] == init[i];
    }
  }

  lemma FitsMore(codec: Codec, t: Track, hs: seq<Happening>, sights: seq<Sight>, h: Happening, s: Sight)
    requires Fits(codec, t, hs, sights) && Seen(codec, PlayOn(codec, t, hs), h, s)
    ensures Fits(codec, t, hs + [h], sights + [s])
    ensures PlayOn(codec, t, hs + [h]) == Step(codec, PlayOn(codec, t, hs), h)
  {
    var more := hs + [h];
    SnocInit(hs, h);
    forall i | 0 <= i < |more| ensures Seen(codec, PlayOn(codec, t, more[..i]), more[i], (sights + [s])[i]) {
      assert more[..i] == hs[..i];
      if i == |hs| {
        assert hs[..i] == hs;
      }
    }
  }

  lemma OneMoreSight(x: char, cur: Cursor, n: nat, t: Track, s: Sight, h: Happening)
    requires Beyond(x, cur, n, t) && !IsSpace(x) && '\n' !in cur.partial && cur != START
    requires TrimLeft(TrimRight(cur.partial + "\n")) != [x] && (s == Attempt(true) ==> End(cur) <= n)
    requires h == HappensAt(x, n, s)
    ensures Seen(OnlyLine(x), t, h, s)
    ensures Beyond(x, cur, n + if s.GrowBy? then s.n else 0, Step(OnlyLine(x), t, h))
  {
    match s
    case GrowBy(k) => TextGrows(x, n, k);
    case Attempt(saves) =>
      if saves {
        ScanBeyond(x, cur, n, t);
      }
  }

  lemma SomeAreMissed(cur: Cursor, n: nat, sights: seq<Sight>)
    returns (codec: Codec, file: string, hs: seq<Happening>)
    requires '\n' !in cur.partial && !SureToReadAll(cur, SizeAfter(n, sights)) && !TimelySave(n, sights, End(cur))
    ensures |file| == n && Fits(codec, Replaced(codec, cur, file), hs, sights)
    ensures !AllInserted(codec, PlayOn(codec, Replaced(codec, cur, file), hs))
  {
    var x := OtherChar(TrimLeft(TrimRight(cur.partial + "\n")));
    codec, file, hs := OnlyLine(x), Text(x, n), Happened(x, n, sights);
    TextGrows(x, n, 0);
    StaysBeyond(x, cur, n, sights);
    MissedBeyond(x, cur, SizeAfter(n, sights), PlayOn(codec, Replaced(codec, cur, file), hs));
  }

  lemma MissedBeyond(x: char, cur: Cursor, n: nat, t: Track)
    requires Beyond(x, cur, n, t) && !IsSpace(x) && '\n' !in cur.partial && 1 <= End(cur) <= n && n > 1
    requires TrimLeft(TrimRight(cur.partial + "\n")) != [x]
    ensures !AllInserted(OnlyLine(x), t)
  {
    ScanBeyond(x, cur, n, t);
    FirstIsEvent(x, n - 1);
    assert EVENT in EventsOf(OnlyLine(x), Complete(t.file)) && EVENT !in Scanning(OnlyLine(x), t, NO_FAULTS).log;
  }

  // For every course of sizes and of scans that save their cursor or do not: whatever the file holds and
  // whatever goes wrong, all events of the new contents are inserted, exactly if a cursor is saved while the
  // file is still shorter than the old one, it is shorter in the end, there was no old cursor to go on from,
  // or no line could be an event.
  lemma InsertedForSureIff(cur: Cursor, n: nat, sights: seq<Sight>)
    requires '\n' !in cur.partial
    ensures (forall codec, file, hs | |file| == n && Fits(codec, Replaced(codec, cur, file), hs, sights) ::
               AllInserted(codec, PlayOn(codec, Replaced(codec, cur, file), hs)))
            <==> SureToReadAll(cur, SizeAfter(n, sights)) || TimelySave(n, sights, End(cur))
  {
    if SureToReadAll(cur, SizeAfter(n, sights)) || TimelySave(n, sights, End(cur)) {
      forall codec, file, hs | |file| == n && Fits(codec, Replaced(codec, cur, file), hs, sights)
        ensures AllInserted(codec, PlayOn(codec, Replaced(codec, cur, file), hs))
      {
        SureToBeInserted(codec, cur, file, hs, sights);
      }
    } else {
      var codec, file, hs := SomeAreMissed(cur, n, sights);
    }
  }
}
