/** What the collector guarantees over whole runs: growth at any byte, failures anywhere, lost cursors. */
module CollectorRuns {
  import opened Options
  import opened Lines
  import opened Sequences
  import opened Collecting

  // ---------- The sink only sees the set of events ----------

  // The order of inserts and how often an event is repeated make no difference.
  lemma MergeIsOfASet(a: seq<Event>, b: seq<Event>, w: Weights)
    requires forall e :: e in a <==> e in b
    ensures Merge(a, w) == Merge(b, w)
  {
    var x, y := Merge(a, w), Merge(b, w);
    forall id
      ensures id in x <==> id in y
      ensures id in x && id in y ==> x[id] == y[id]
    {
      MergeHolds(a, w, id);
      MergeHolds(b, w, id);
      assert Covers(a, id) <==> Covers(b, id);
      if id in x && id in y {
        SameTotals(x[id], y[id], a, b, id, w);
      }
    }
  }

  lemma SameTotals(x: Totals, y: Totals, a: seq<Event>, b: seq<Event>, id: string, w: Weights)
    requires (forall e :: e in a <==> e in b) && Covers(a, id)
    requires RowIs(map[id := x], a, id, w) && RowIs(map[id := y], b, id, w)
    ensures x == y
  {
  }

  // ---------- Feeding ----------

  lemma {:induction false} FeedAll(codec: Codec, lines: seq<string>, keeps: bool)
    ensures Feed(codec, lines, None, keeps) == Fed(EventsOf(codec, lines), BadIn(codec, lines), true)
  {
    if lines != [] {
      FeedAll(codec, lines[1..], keeps);
    }
  }

  // Whatever fails, the sink has seen the events of the first k lines, all of them if nothing failed.
  lemma {:induction false} FeedSome(codec: Codec, lines: seq<string>, sink: Option<nat>, keeps: bool) returns (k: nat)
    ensures k <= |lines| && Feed(codec, lines, sink, keeps).events == EventsOf(codec, lines[..k])
    ensures Feed(codec, lines, sink, keeps).bad == BadIn(codec, lines[..k])
    ensures Feed(codec, lines, sink, keeps).done ==> k == |lines|
  {
    if lines == [] {
      k := 0;
    } else {
      var p := ParseLine(codec, lines[0]);
      if p.Counts? && sink == Some(0) {
        k := if keeps then 1 else 0;
        assert lines[..1] == [lines[0]] && [lines[0]][1..] == [];
      } else {
        var m := FeedSome(codec, lines[1..], Left(p, sink), keeps);
        k := m + 1;
        assert lines[..k][1..] == lines[1..][..m];
      }
    }
  }

  // ---------- Runs of one file ----------

  // Does the saved cursor belong to the present contents of the file? After a replacement it is stale
  // until a scan finds the file shorter and saves a new one, and lost once a scan has gone on from it.
  datatype Phase = Following | Stale | Lost

  // A file, its saved cursor, the events inserted from the lines of its present contents, all other events
  // inserted (from other files, earlier contents, or lines read across a replacement), and all inserts in order.
  datatype Track = Track(
    file: string, cursor: Cursor, own: seq<Event>, others: seq<Event>, log: seq<Event>, phase: Phase)

  datatype Happening =
    | Grow(more: string)
    | Replace(file: string)
    | ScanFile(faults: Faults)
    | LoseCursor
    | Others(events: seq<Event>)

  const NEW := Track("", START, [], [], [], Following)

  // What Scan checks before it resumes (collector.go:157-158).
  predicate Shorter(file: string, cur: Cursor) {
    |file| < cur.offset + |cur.partial|
  }

  // Will a scan read the lines of the present contents?
  predicate Caught(t: Track) {
    t.phase.Following? || (t.phase.Stale? && Shorter(t.file, t.cursor))
  }

  function Scanning(codec: Codec, t: Track, f: Faults): Track {
    var s := Scan(codec, t.cursor, t.file, f);
    var log := t.log + s.events;
    if Caught(t) then
      t.(cursor := s.cursor, own := t.own + s.events, log := log,
         phase := if t.phase.Following? || s.cursor != t.cursor then Following else Stale)
    else
      t.(cursor := s.cursor, others := t.others + s.events, log := log,
         phase := if s.cursor == t.cursor then t.phase else Lost)
  }

  function Step(codec: Codec, t: Track, h: Happening): Track {
    match h
    case Grow(more) => t.(file := t.file + more)
    case Replace(file) =>
      t.(file := file, own := [], others := t.others + t.own, phase := if t.cursor == START then Following else Stale)
    case LoseCursor => t.(cursor := START, phase := Following)
    case Others(events) => t.(others := t.others + events, log := t.log + events)
    case ScanFile(f) => Scanning(codec, t, f)
  }

  function Play(codec: Codec, hs: seq<Happening>): Track {
    if hs == [] then NEW else Step(codec, Play(codec, hs[..|hs| - 1]), hs[|hs| - 1])
  }

  // The saved cursor names a place in the file and holds the bytes after it, no newline among them.
  predicate CursorFits(file: string, cur: Cursor) {
    && cur.offset + |cur.partial| <= |file|
    && file[cur.offset..cur.offset + |cur.partial|] == cur.partial && '\n' !in cur.partial
  }

  // The cursor stands after line i, holding a beginning of what follows.
  predicate AtLine(file: string, cur: Cursor, i: nat) {
    && i <= |Complete(file)| && cur.offset + |Drop(file, i)| == |file|
    && cur.partial <= Drop(file, i) && '\n' !in cur.partial
  }

  // The events of the first n lines.
  function FirstEvents(codec: Codec, lines: seq<string>, n: nat): seq<Event>
    requires n <= |lines|
  {
    EventsOf(codec, lines[..n])
  }

  // The events inserted from the present contents are those of the first j lines.
  ghost predicate Knows(codec: Codec, t: Track, j: nat) {
    && j <= |Complete(t.file)|
    && (forall e :: e in t.own <==> e in FirstEvents(codec, Complete(t.file), j))
    && (forall e :: e in t.log <==> e in t.own || e in t.others)
  }

  // Moreover the cursor is after line i.
  ghost predicate InvAt(codec: Codec, t: Track, i: nat, j: nat) {
    AtLine(t.file, t.cursor, i) && i <= j && Knows(codec, t, j)
  }

  ghost predicate Inv(codec: Codec, t: Track, i: nat, j: nat) {
    && Knows(codec, t, j) && '\n' !in t.cursor.partial
    && (t.phase.Following? ==> InvAt(codec, t, i, j))
  }

  lemma AtLineFits(file: string, cur: Cursor, i: nat)
    requires AtLine(file, cur, i)
    ensures CursorFits(file, cur) && Drop(file, i) == file[cur.offset..]
  {
    DropStarts(file, i);
    assert cur.offset == Total(Complete(file)[..i]);
    HeldThere(file, cur.offset, cur.partial);
  }

  lemma HeldThere(file: string, offset: nat, partial: string)
    requires offset <= |file| && partial <= file[offset..]
    ensures offset + |partial| <= |file| && file[offset..offset + |partial|] == partial
  {
  }

  // Growth keeps the lines there are, and what follows them goes on.
  lemma {:induction false} GrowthKeepsLines(file: string, more: string, i: nat)
    requires i <= |Complete(file)|
    ensures Complete(file) <= Complete(file + more) && Drop(file + more, i) == Drop(file, i) + more
    decreases i
  {
    LinesStay(file, more);
    if i > 0 {
      var n := LineEnd(file);
      LineEndIsStable(file, more);
      CutFirst(file, more, n);
      GrowthKeepsLines(file[n..], more, i - 1);
      DropOne(file, file[n..], i);
      DropOne(file + more, file[n..] + more, i);
    }
  }

  lemma LinesStay(file: string, more: string)
    ensures Complete(file) <= Complete(file + more)
  {
    SplitAnywhere(file, more);
  }

  lemma DropOne(s: string, tail: string, i: nat)
    requires 0 < i <= |Complete(s)| && tail == s[LineEnd(s)..] && i - 1 <= |Complete(tail)|
    ensures Drop(s, i) == Drop(tail, i - 1)
  {
  }

  lemma GrowthKeepsCursor(file: string, more: string, cur: Cursor, i: nat)
    requires AtLine(file, cur, i)
    ensures AtLine(file + more, cur, i)
  {
    GrowthKeepsLines(file, more, i);
  }

  lemma SameFirstEvents(codec: Codec, lines: seq<string>, longer: seq<string>, n: nat)
    requires n <= |lines| && lines <= longer
    ensures FirstEvents(codec, lines, n) == FirstEvents(codec, longer, n)
  {
    assert lines[..n] == longer[..n];
  }

  lemma FirstEventsGrow(codec: Codec, lines: seq<string>, a: nat, b: nat)
    requires a <= b <= |lines|
    ensures FirstEvents(codec, lines, a) <= FirstEvents(codec, lines, b)
  {
    FirstAndNext(lines, lines[a..b], a, b - a);
    EventsConcat(codec, lines[..a], lines[a..b][..b - a]);
  }

  // The first k lines of a part of the lines follow the i lines before it.
  lemma FirstAndNext(lines: seq<string>, part: seq<string>, i: nat, k: nat)
    requires k <= |part| && PartOf(part, lines, i)
    ensures lines[..i] + part[..k] == lines[..i + k]
  {
  }

  lemma AllLines(codec: Codec, lines: seq<string>)
    ensures FirstEvents(codec, lines, |lines|) == EventsOf(codec, lines)
  {
    assert lines[..|lines|] == lines;
  }

  // The events of the first k of some lines follow those of the i lines before them.
  lemma EventsUpTo(codec: Codec, lines: seq<string>, part: seq<string>, i: nat, k: nat)
    requires k <= |part| && PartOf(part, lines, i)
    ensures FirstEvents(codec, lines, i) + FirstEvents(codec, part, k) == FirstEvents(codec, lines, i + k)
  {
    FirstAndNext(lines, part, i, k);
    EventsConcat(codec, lines[..i], part[..k]);
  }

  // What a scan sees is a beginning of what follows the cursor's line, all of it if reading does not break.
  lemma VisibleIsPrefix(file: string, cur: Cursor, f: Faults, i: nat)
    requires AtLine(file, cur, i)
    ensures cur.offset + |cur.partial| <= |file|
    ensures Visible(cur, file, f) <= Drop(file, i)
    ensures !Breaks(file, f) ==> Visible(cur, file, f) == Drop(file, i)
  {
    AtLineFits(file, cur, i);
    VisibleInFile(file, cur, f);
  }

  lemma VisibleInFile(file: string, cur: Cursor, f: Faults)
    requires cur.offset + |cur.partial| <= |file| && cur.partial <= file[cur.offset..]
    ensures Visible(cur, file, f) <= file[cur.offset..]
    ensures !Breaks(file, f) ==> Visible(cur, file, f) == file[cur.offset..]
  {
    if !Breaks(file, f) {
      PieceOfFile(file, cur.offset, cur.partial, |file|);
    } else if cur.offset + |cur.partial| < f.stop.value {
      PieceOfFile(file, cur.offset, cur.partial, f.stop.value);
    } else {
      EmptyIsUnit(cur.partial);
    }
  }

  lemma PieceOfFile(file: string, offset: nat, partial: string, stop: nat)
    requires offset + |partial| <= stop <= |file| && partial <= file[offset..]
    ensures partial + file[offset + |partial|..stop] <= file[offset..]
    ensures stop == |file| ==> partial + file[offset + |partial|..] == file[offset..]
  {
  }

  lemma VisibleLines(file: string, cur: Cursor, f: Faults, i: nat) returns (m: nat)
    requires AtLine(file, cur, i)
    ensures cur.offset + |cur.partial| <= |file| && m == |Complete(Visible(cur, file, f))|
    ensures PartOf(Complete(Visible(cur, file, f)), Complete(file), i)
    ensures AtLine(file, NextCursor(cur, Visible(cur, file, f), Breaks(file, f)), i + m)
    ensures !Breaks(file, f) ==> i + m == |Complete(file)|
  {
    VisibleIsPrefix(file, cur, f, i);
    m := LinesSeen(file, Visible(cur, file, f), i);
    CursorMoves(file, cur, i, Visible(cur, file, f), m, Breaks(file, f));
  }

  lemma LinesSeen(file: string, text: string, i: nat) returns (m: nat)
    requires i <= |Complete(file)| && text <= Drop(file, i)
    ensures m == |Complete(text)| && PartOf(Complete(text), Complete(file), i)
    ensures text == Drop(file, i) ==> i + m == |Complete(file)|
  {
    m := |Complete(text)|;
    LinesOfPrefix(text, Drop(file, i));
    DropLines(file, i);
    FirstOf(Complete(text), Complete(file), i);
  }

  // Moving past the complete lines of a beginning of what is left.
  lemma CursorMoves(file: string, cur: Cursor, i: nat, text: string, m: nat, broken: bool)
    requires AtLine(file, cur, i) && text <= Drop(file, i) && |Complete(text)| == m
    ensures AtLine(file, NextCursor(cur, text, broken), i + m)
  {
    LinesOfPrefix(text, Drop(file, i));
    DropLines(file, i);
    DropMore(file, i, m);
    RestHasNoNewline(text);
    OffsetMoves(Drop(file, i), Complete(text));
  }

  lemma OffsetMoves(left: string, first: seq<string>)
    requires first <= Complete(left)
    ensures Total(first) + |Drop(left, |first|)| == |left|
  {
    PrefixRest(first, Complete(left));
    FirstLinesDropped(left, first, Complete(left)[|first|..]);
  }

  // Some lines as they stand among all lines, from line i on.
  predicate PartOf(part: seq<string>, lines: seq<string>, i: nat) {
    i + |part| <= |lines| && forall x | 0 <= x < |part| :: part[x] == lines[i + x]
  }

  lemma FirstOf(part: seq<string>, lines: seq<string>, i: nat)
    requires i <= |lines| && part <= lines[i..]
    ensures PartOf(part, lines, i)
  {
  }

  // Inserting the events of lines i to l when those of the first j, j >= i, are in: the first max(j, l).
  lemma EventsJoin(codec: Codec, lines: seq<string>, own: seq<Event>, more: seq<Event>, i: nat, j: nat, l: nat)
    requires i <= j <= |lines| && i <= l <= |lines|
    requires forall e :: e in own <==> e in FirstEvents(codec, lines, j)
    requires FirstEvents(codec, lines, i) + more == FirstEvents(codec, lines, l)
    ensures forall e :: e in own + more <==> e in FirstEvents(codec, lines, if j < l then l else j)
  {
    var first, upto, after := FirstEvents(codec, lines, i), FirstEvents(codec, lines, j), FirstEvents(codec, lines, l);
    FirstEventsGrow(codec, lines, i, j);
    if j < l {
      FirstEventsGrow(codec, lines, j, l);
      Join(own, more, first, upto, after, after);
    } else {
      FirstEventsGrow(codec, lines, l, j);
      Join(own, more, first, upto, after, upto);
    }
  }

  lemma Join<T>(own: seq<T>, more: seq<T>, first: seq<T>, upto: seq<T>, after: seq<T>, all: seq<T>)
    requires (forall e :: e in own <==> e in upto) && first + more == after
    requires first <= upto <= all && after <= all && (all == upto || all == after)
    ensures forall e :: e in own + more <==> e in all
  {
    forall e ensures e in own + more <==> e in all {
      assert e in after <==> e in first || e in more;
      InPrefix(first, upto, e);
      InPrefix(upto, all, e);
      InPrefix(after, all, e);
    }
  }

  lemma InPrefix<T>(a: seq<T>, b: seq<T>, e: T)
    requires a <= b
    ensures e in a ==> e in b
  {
  }

  lemma InvAfter(codec: Codec, t: Track, cur: Cursor, events: seq<Event>, i: nat, j: nat)
    requires AtLine(t.file, cur, i) && i <= j <= |Complete(t.file)|
    requires forall e :: e in t.own + events <==> e in FirstEvents(codec, Complete(t.file), j)
    requires forall e :: e in t.log <==> e in t.own || e in t.others
    ensures InvAt(codec, t.(cursor := cur, own := t.own + events, log := t.log + events), i, j)
  {
    var own, log := t.own + events, t.log + events;
    forall e ensures e in log <==> e in own || e in t.others {
      assert e in log <==> e in t.log || e in events;
      assert e in own <==> e in t.own || e in events;
    }
  }

  // Failures that repeat inserts: a sink or save that fails, a cursor that is lost.
  predicate Repeats(h: Happening) {
    h.LoseCursor? || (h.ScanFile? && (h.faults.sink.Some? || h.faults.save))
  }

  // The effect of a scan in lines: the events of lines i to n reach the sink, and the cursor then stands
  // after line l, which is n if nothing is to be repeated.
  predicate ReadsAs(codec: Codec, file: string, f: Faults, i: nat, l: nat, n: nat, s: Scanned) {
    && i <= l <= n <= |Complete(file)| && AtLine(file, s.cursor, l)
    && FirstEvents(codec, Complete(file), i) + s.events == FirstEvents(codec, Complete(file), n)
    && (!Repeats(ScanFile(f)) ==> l == n)
    && (f == NO_FAULTS ==> n == |Complete(file)|)
  }

  lemma ScanReads(codec: Codec, file: string, cur: Cursor, f: Faults, i: nat) returns (l: nat, n: nat)
    requires AtLine(file, cur, i)
    ensures ReadsAs(codec, file, f, i, l, n, Scan(codec, cur, file, f))
  {
    if f.load {
      EmptyIsUnit(FirstEvents(codec, Complete(file), i));
      l, n := i, i;
    } else {
      var m := VisibleLines(file, cur, f, i);
      ScanIs(codec, cur, file, f, cur, Unread(cur, file, f));
      l, n := FeedingReads(codec, file, cur, f, i, m, Visible(cur, file, f), Scan(codec, cur, file, f));
    }
  }

  lemma FeedingReads(codec: Codec, file: string, cur: Cursor, f: Faults, i: nat, m: nat, text: string, s: Scanned)
    returns (l: nat, n: nat)
    requires AtLine(file, cur, i) && m == |Complete(text)| && PartOf(Complete(text), Complete(file), i)
    requires AtLine(file, NextCursor(cur, text, Breaks(file, f)), i + m)
    requires !Breaks(file, f) ==> i + m == |Complete(file)|
    requires var fed := Feed(codec, Complete(text), f.sink, f.sinkKeeps);
             && s.events == fed.events
             && s.cursor == if !fed.done || (f.save && !f.saveKeeps) then cur else NextCursor(cur, text, Breaks(file, f))
    ensures ReadsAs(codec, file, f, i, l, n, s)
  {
    var done := Feed(codec, Complete(text), f.sink, f.sinkKeeps).done;
    n := FedUpTo(codec, Complete(file), Complete(text), f, i);
    l := if !done || (f.save && !f.saveKeeps) then i else i + m;
  }

  // The events fed from a part of the lines are those of lines i to n.
  lemma FedUpTo(codec: Codec, lines: seq<string>, part: seq<string>, f: Faults, i: nat) returns (n: nat)
    requires PartOf(part, lines, i)
    ensures var fed := Feed(codec, part, f.sink, f.sinkKeeps);
            && i <= n <= i + |part| && (fed.done || f.sink.None? ==> fed.done && n == i + |part|)
            && FirstEvents(codec, lines, i) + fed.events == FirstEvents(codec, lines, n)
  {
    var k := FedFirst(codec, part, f);
    n := i + k;
    EventsUpTo(codec, lines, part, i, k);
  }

  lemma FedFirst(codec: Codec, part: seq<string>, f: Faults) returns (k: nat)
    ensures var fed := Feed(codec, part, f.sink, f.sinkKeeps);
            && k <= |part| && (fed.done || f.sink.None? ==> fed.done && k == |part|)
            && fed.events == FirstEvents(codec, part, k)
  {
    FeedAll(codec, part, f.sinkKeeps);
    k := FeedSome(codec, part, f.sink, f.sinkKeeps);
  }

  // A scan as lines read leaves the cursor after line l and the events of the first j' lines.
  lemma ReadingKeepsInv(codec: Codec, t: Track, f: Faults, i: nat, j: nat, l: nat, n: nat, s: Scanned) returns (j': nat)
    requires InvAt(codec, t, i, j) && ReadsAs(codec, t.file, f, i, l, n, s)
    ensures InvAt(codec, t.(cursor := s.cursor, own := t.own + s.events, log := t.log + s.events), l, j')
    ensures f == NO_FAULTS ==> j' == |Complete(t.file)|
  {
    EventsJoin(codec, Complete(t.file), t.own, s.events, i, j, n);
    j' := if j < n then n else j;
    InvAfter(codec, t, s.cursor, s.events, l, j');
  }

  // A stale cursor found beyond the end: as from the start, but unless all goes through it stays.
  predicate ReadsAgain(f: Faults, cur: Cursor, s: Scanned, again: Scanned) {
    && s.events == again.events && (s.cursor == cur || s.cursor == again.cursor)
    && (f.load ==> s.events == [] && s.cursor == cur)
    && (!f.load && !Repeats(ScanFile(f)) ==> s.cursor == again.cursor)
  }

  lemma ShorterReads(codec: Codec, file: string, cur: Cursor, f: Faults)
    requires Shorter(file, cur)
    ensures ReadsAgain(f, cur, Scan(codec, cur, file, f), Scan(codec, START, file, f))
  {
    if !f.load && f.sink.None? {
      FeedAll(codec, Complete(Visible(START, file, f)), f.sinkKeeps);
    }
  }

  lemma PartialHasNoNewline(codec: Codec, file: string, cur: Cursor, f: Faults)
    requires '\n' !in cur.partial
    ensures '\n' !in Scan(codec, cur, file, f).cursor.partial
  {
    var c := Resume(cur, file);
    NextHasNoNewline(c, Visible(c, file, f), Breaks(file, f));
  }

  lemma FollowingScan(codec: Codec, t: Track, f: Faults, i: nat, j: nat) returns (i': nat, j': nat)
    requires t.phase.Following? && InvAt(codec, t, i, j)
    ensures InvAt(codec, Scanning(codec, t, f), i', j') && Scanning(codec, t, f).phase.Following?
    ensures f == NO_FAULTS ==> j' == |Complete(t.file)|
  {
    var l, n := ScanReads(codec, t.file, t.cursor, f, i);
    j' := ReadingKeepsInv(codec, t, f, i, j, l, n, Scan(codec, t.cursor, t.file, f));
    i' := l;
  }

  // What becomes of a track whose stale cursor is caught.
  function Rescanned(t: Track, s: Scanned): Track {
    t.(cursor := s.cursor, own := t.own + s.events, log := t.log + s.events,
       phase := if s.cursor != t.cursor then Following else Stale)
  }

  lemma StaleScan(codec: Codec, t: Track, f: Faults, j: nat) returns (i': nat, j': nat)
    requires t.phase.Stale? && Shorter(t.file, t.cursor) && Knows(codec, t, j) && '\n' !in t.cursor.partial
    ensures Inv(codec, Scanning(codec, t, f), i', j')
    ensures f == NO_FAULTS ==> j' == |Complete(t.file)|
    ensures !f.load && !Repeats(ScanFile(f)) ==> Scanning(codec, t, f).phase.Following?
  {
    AtStart(t.file);
    var l, n := ScanReads(codec, t.file, START, f, 0);
    ShorterReads(codec, t.file, t.cursor, f);
    i' := l;
    j' := RescanKeepsInv(codec, t, f, j, l, n, Scan(codec, t.cursor, t.file, f), Scan(codec, START, t.file, f));
  }

  lemma RescanKeepsInv(codec: Codec, t: Track, f: Faults, j: nat, l: nat, n: nat, s: Scanned, again: Scanned)
    returns (j': nat)
    requires Shorter(t.file, t.cursor) && Knows(codec, t, j) && '\n' !in t.cursor.partial
    requires ReadsAs(codec, t.file, f, 0, l, n, again) && ReadsAgain(f, t.cursor, s, again)
    ensures Inv(codec, Rescanned(t, s), l, j')
    ensures f == NO_FAULTS ==> j' == |Complete(t.file)|
    ensures !f.load && !Repeats(ScanFile(f)) ==> Rescanned(t, s).phase.Following?
  {
    var start := t.(cursor := START);
    AtStart(t.file);
    j' := ReadingKeepsInv(codec, start, f, 0, j, l, n, again);
    AtLineFits(t.file, again.cursor, l);
  }

  // A scan that goes on from a stale cursor tells nothing about the present contents.
  lemma LostScan(codec: Codec, t: Track, f: Faults, i: nat, j: nat)
    requires !Caught(t) && Inv(codec, t, i, j)
    ensures Inv(codec, Scanning(codec, t, f), i, j)
  {
    PartialHasNoNewline(codec, t.file, t.cursor, f);
    var s := Scan(codec, t.cursor, t.file, f);
    forall e ensures e in t.log + s.events <==> e in t.own || e in t.others + s.events {
      assert e in t.log <==> e in t.own || e in t.others;
    }
  }

  lemma StepKeepsInv(codec: Codec, t: Track, h: Happening, i: nat, j: nat) returns (i': nat, j': nat)
    requires Inv(codec, t, i, j)
    ensures Inv(codec, Step(codec, t, h), i', j')
  {
    i', j' := i, j;
    match h
    case Grow(more) => GrowthKeepsInv(codec, t, more, i, j);
    case Replace(file) =>
      ReplaceKeepsInv(codec, t, file, j);
      i', j' := 0, 0;
    case LoseCursor =>
      AtStart(t.file);
      i' := 0;
    case Others(_) =>
    case ScanFile(f) =>
      if t.phase.Following? {
        i', j' := FollowingScan(codec, t, f, i, j);
        AtLineFits(t.file, Scanning(codec, t, f).cursor, i');
      } else if Caught(t) {
        i', j' := StaleScan(codec, t, f, j);
      } else {
        LostScan(codec, t, f, i, j);
      }
  }

  lemma GrowthKeepsInv(codec: Codec, t: Track, more: string, i: nat, j: nat)
    requires Inv(codec, t, i, j)
    ensures Inv(codec, t.(file := t.file + more), i, j)
  {
    if t.phase.Following? {
      GrowthKeepsCursor(t.file, more, t.cursor, i);
    }
    GrowthKeepsLines(t.file, more, 0);
    SameFirstEvents(codec, Complete(t.file), Complete(t.file + more), j);
  }

  lemma ReplaceKeepsInv(codec: Codec, t: Track, file: string, j: nat)
    requires Knows(codec, t, j) && '\n' !in t.cursor.partial
    ensures Inv(codec, Step(codec, t, Replace(file)), 0, 0)
  {
    AtStart(file);
    forall e ensures e in t.log <==> e in [] || e in t.others + t.own {
      assert e in t.log <==> e in t.own || e in t.others;
    }
  }

  lemma AtStart(file: string)
    ensures AtLine(file, START, 0)
  {
  }

  lemma {:induction false} PlayKeepsInv(codec: Codec, hs: seq<Happening>) returns (i: nat, j: nat)
    ensures Inv(codec, Play(codec, hs), i, j)
  {
    if hs == [] {
      i, j := 0, 0;
      AtStart("");
    } else {
      var a, b := PlayKeepsInv(codec, hs[..|hs| - 1]);
      i, j := StepKeepsInv(codec, Play(codec, hs[..|hs| - 1]), hs[|hs| - 1], a, b);
    }
  }

  // ---------- Main results ----------

  // In every run, with every kind of failure, the saved partial line has no newline, and a cursor that
  // belongs to the present contents names a place between lines and the bytes after it.
  lemma CursorAlwaysFits(codec: Codec, hs: seq<Happening>)
    ensures var t := Play(codec, hs);
            '\n' !in t.cursor.partial && (t.phase.Following? ==> CursorFits(t.file, t.cursor))
  {
    var i, j := PlayKeepsInv(codec, hs);
    var t := Play(codec, hs);
    if t.phase.Following? {
      AtLineFits(t.file, t.cursor, i);
    }
  }

  // After any run in which the last replacement was caught, the next scan without failures brings the
  // sink to one merge over all complete lines of the file, next to everything else inserted.
  lemma SinkCatchesUp(codec: Codec, w: Weights, hs: seq<Happening>)
    requires Caught(Play(codec, hs))
    ensures var t := Step(codec, Play(codec, hs), ScanFile(NO_FAULTS));
            t.phase.Following? && Merge(t.log, w) == Merge(t.others + EventsOf(codec, Complete(t.file)), w)
  {
    var i, j := PlayKeepsInv(codec, hs);
    CleanScan(codec, w, Play(codec, hs), i, j);
  }

  lemma CleanScan(codec: Codec, w: Weights, t: Track, i: nat, j: nat)
    requires Caught(t) && Inv(codec, t, i, j)
    ensures var t' := Scanning(codec, t, NO_FAULTS);
            t'.phase.Following? && Merge(t'.log, w) == Merge(t'.others + EventsOf(codec, Complete(t'.file)), w)
  {
    var i', j' := i, j;
    if t.phase.Following? {
      i', j' := FollowingScan(codec, t, NO_FAULTS, i, j);
    } else {
      i', j' := StaleScan(codec, t, NO_FAULTS, j);
    }
    CaughtUp(codec, w, Scanning(codec, t, NO_FAULTS), j');
  }

  lemma CaughtUp(codec: Codec, w: Weights, t: Track, j: nat)
    requires Knows(codec, t, j) && j == |Complete(t.file)|
    ensures Merge(t.log, w) == Merge(t.others + EventsOf(codec, Complete(t.file)), w)
  {
    AllLines(codec, Complete(t.file));
    MergeIsOfASet(t.log, t.others + EventsOf(codec, Complete(t.file)), w);
  }

  // ---------- Replaced files ----------

  lemma {:induction false} AppendOnlyFollows(codec: Codec, hs: seq<Happening>)
    requires forall h | h in hs :: !h.Replace?
    ensures Play(codec, hs).phase.Following?
  {
    if hs != [] {
      var init, h := hs[..|hs| - 1], hs[|hs| - 1];
      assert h in hs && forall x | x in init :: x in hs;
      AppendOnlyFollows(codec, init);
    }
  }

  // What happens to one file after it was replaced: it grows and is scanned.
  predicate Quiet(hs: seq<Happening>) {
    forall h | h in hs :: h.Grow? || h.ScanFile?
  }

  function PlayOn(codec: Codec, t: Track, hs: seq<Happening>): Track {
    if hs == [] then t else Step(codec, PlayOn(codec, t, hs[..|hs| - 1]), hs[|hs| - 1])
  }

  // Some scan of these saves its cursor while the file is still shorter than the one saved before.
  ghost predicate SavedInTime(codec: Codec, t: Track, hs: seq<Happening>) {
    exists k | 0 <= k < |hs| :: SavesShorter(codec, PlayOn(codec, t, hs[..k]), hs[k])
  }

  predicate SavesShorter(codec: Codec, t: Track, h: Happening) {
    h.ScanFile? && Shorter(t.file, t.cursor) && Scan(codec, t.cursor, t.file, h.faults).cursor != t.cursor
  }

  lemma SavedInTimeGrows(codec: Codec, t: Track, init: seq<Happening>, h: Happening)
    ensures SavedInTime(codec, t, init + [h]) <==> SavedInTime(codec, t, init) || SavesShorter(codec, PlayOn(codec, t, init), h)
  {
    var hs := init + [h];
    forall k | 0 <= k < |init| ensures hs[..k] == init[..k] && hs[k] == init[k] {
    }
    assert hs[..|init|] == init && hs[|init|] == h;
    if SavedInTime(codec, t, init) {
      var k :| 0 <= k < |init| && SavesShorter(codec, PlayOn(codec, t, init[..k]), init[k]);
      assert SavesShorter(codec, PlayOn(codec, t, hs[..k]), hs[k]);
    }
    if SavesShorter(codec, PlayOn(codec, t, init), h) {
      assert SavesShorter(codec, PlayOn(codec, t, hs[..|init|]), hs[|init|]);
    }
  }

  // How a track has gone on from the stale track t: whether a cursor was saved in time decides its phase.
  predicate Since(t: Track, saved: bool, now: Track) {
    && (Caught(now) <==> saved || Shorter(now.file, t.cursor))
    && (now.phase.Following? <==> saved)
    && (now.phase.Stale? ==> now.cursor == t.cursor) && (now.phase.Lost? ==> !Shorter(now.file, t.cursor))
    && |now.file| >= |t.file| && (Caught(now) ==> now.others == t.others)
    && (now.phase.Lost? ==> !Shorter(now.file, now.cursor))
  }

  // A replacement is caught exactly when the file is still shorter than the cursor, or some scan saved its
  // cursor while it was; and until then nothing but lines of the new contents has been inserted.
  lemma {:induction false} CaughtIff(codec: Codec, t: Track, hs: seq<Happening>)
    requires t.phase.Stale? && Quiet(hs)
    ensures Since(t, SavedInTime(codec, t, hs), PlayOn(codec, t, hs))
  {
    if hs != [] {
      var init, h := hs[..|hs| - 1], hs[|hs| - 1];
      UnSnoc(hs);
      assert h in hs && forall x | x in init :: x in hs;
      CaughtIff(codec, t, init);
      SavedInTimeGrows(codec, t, init, h);
      SinceStep(codec, t, SavedInTime(codec, t, init), PlayOn(codec, t, init), h);
    }
  }

  lemma SinceStep(codec: Codec, t: Track, saved: bool, now: Track, h: Happening)
    requires Since(t, saved, now) && (h.Grow? || h.ScanFile?)
    ensures Since(t, saved || SavesShorter(codec, now, h), Step(codec, now, h))
  {
    CaughtStep(codec, now, h);
    SinceAfter(t, saved, now, SavesShorter(codec, now, h), Step(codec, now, h));
  }

  lemma SinceAfter(t: Track, saved: bool, now: Track, saves: bool, next: Track)
    requires Since(t, saved, now) && Stepped(now, saves, next)
    ensures Since(t, saved || saves, next)
  {
  }

  // One growth or scan; `saves`: a scan that saved its cursor while the file was shorter than the old one.
  predicate Stepped(t: Track, saves: bool, next: Track) {
    && |next.file| >= |t.file| && (saves ==> Shorter(t.file, t.cursor))
    && (next.phase.Following? <==> t.phase.Following? || (t.phase.Stale? && saves))
    && (next.phase.Stale? ==> t.phase.Stale? && next.cursor == t.cursor)
    && (next.phase.Lost? ==> t.phase.Lost? || (t.phase.Stale? && !Shorter(t.file, t.cursor)))
    && (Caught(next) ==> Caught(t) && next.others == t.others)
    && (next.phase.Lost? ==> !Shorter(next.file, next.cursor))
  }

  lemma CaughtStep(codec: Codec, t: Track, h: Happening)
    requires (h.Grow? || h.ScanFile?) && (t.phase.Lost? ==> !Shorter(t.file, t.cursor))
    ensures Stepped(t, SavesShorter(codec, t, h), Step(codec, t, h))
  {
    if h.ScanFile? && !Shorter(t.file, t.cursor) {
      NotBeyond(codec, t.file, t.cursor, h.faults);
    }
  }

  lemma NotBeyond(codec: Codec, file: string, cur: Cursor, f: Faults)
    requires !Shorter(file, cur)
    ensures !Shorter(file, Scan(codec, cur, file, f).cursor)
  {
    if !f.load {
      var unread := Unread(cur, file, f);
      ScanIs(codec, cur, file, f, cur, unread);
      NextWithin(cur, cur.partial + unread, Breaks(file, f), |file|);
    }
  }

  lemma NextWithin(c: Cursor, text: string, broken: bool, n: nat)
    requires c.offset + |text| <= n && |c.partial| <= |text|
    ensures var next := NextCursor(c, text, broken); next.offset + |next.partial| <= n
  {
    RestHasNoNewline(text);
  }

  // The sink after a replaced file was caught and scanned without failures: the old sink merged with the
  // complete lines of the new contents.
  lemma ReplacedFileCatchesUp(codec: Codec, w: Weights, hs: seq<Happening>, file: string, later: seq<Happening>)
    requires Play(codec, hs).cursor != START && Quiet(later)
    requires var t := Step(codec, Play(codec, hs), Replace(file));
             SavedInTime(codec, t, later) || Shorter(PlayOn(codec, t, later).file, t.cursor)
    ensures var t := PlayOn(codec, Step(codec, Play(codec, hs), Replace(file)), later);
            Merge(Scanning(codec, t, NO_FAULTS).log, w) == Merge(Play(codec, hs).log + EventsOf(codec, Complete(t.file)), w)
  {
    var before := Play(codec, hs);
    var replaced := Step(codec, before, Replace(file));
    var i, j := PlayKeepsInv(codec, hs);
    ReplaceKeepsInv(codec, before, file, j);
    CaughtIff(codec, replaced, later);
    i, j := PlayOnKeepsInv(codec, replaced, later, 0, 0);
    var t := PlayOn(codec, replaced, later);
    CleanScan(codec, w, t, i, j);
    var lines := EventsOf(codec, Complete(t.file));
    assert forall e :: e in t.others <==> e in before.log;
    MergeIsOfASet(t.others + lines, before.log + lines, w);
  }

  lemma {:induction false} PlayOnKeepsInv(codec: Codec, t: Track, hs: seq<Happening>, i: nat, j: nat)
    returns (i': nat, j': nat)
    requires Inv(codec, t, i, j)
    ensures Inv(codec, PlayOn(codec, t, hs), i', j')
    decreases |hs|
  {
    i', j' := i, j;
    if hs != [] {
      var a, b := PlayOnKeepsInv(codec, t, hs[..|hs| - 1], i, j);
      i', j' := StepKeepsInv(codec, PlayOn(codec, t, hs[..|hs| - 1]), hs[|hs| - 1], a, b);
    }
  }

  // ---------- A cursor of other contents ----------

  // Does a scan without failures insert the events of all complete lines?
  ghost predicate ReadsAll(codec: Codec, cur: Cursor, file: string) {
    forall e | e in EventsOf(codec, Complete(file)) :: e in Scan(codec, cur, file, NO_FAULTS).events
  }

  function Newlines(n: nat): string {
    seq(n, _ => '\n')
  }

  const EVENT := Event("r", 0, "m", Usage(0, 0, 0, 0))

  // Only the line `x` is an event.
  function OnlyLine(x: char): Codec {
    Codec(s => if s == [x] then Some(RawLine("assistant", "r", "t", "m", Some(Usage(0, 0, 0, 0)))) else None,
          s => Some(0))
  }

  lemma ParseOnly(x: char, line: string)
    ensures ParseLine(OnlyLine(x), line).Counts? <==> TrimLeft(TrimRight(line)) == [x]
    ensures TrimLeft(TrimRight(line)) == [x] ==> ParseLine(OnlyLine(x), line) == Counts(EVENT)
  {
  }

  lemma TrimLine(x: char)
    requires !IsSpace(x)
    ensures TrimLeft(TrimRight([x, '\n'])) == [x] && TrimLeft(TrimRight("\n")) == ""
  {
    assert [x, '\n'][..1] == [x] && "\n"[..0] == "";
    assert TrimRight([x, '\n']) == TrimRight([x]) == [x];
  }

  lemma {:induction false} NoEvents(codec: Codec, lines: seq<string>)
    requires forall l | l in lines :: !ParseLine(codec, l).Counts?
    ensures EventsOf(codec, lines) == []
  {
    if lines != [] {
      assert lines[0] in lines && forall l | l in lines[1..] :: l in lines;
      NoEvents(codec, lines[1..]);
    }
  }

  lemma {:induction false} EmptyLines(n: nat)
    ensures forall l | l in Complete(Newlines(n)) :: l == "\n"
  {
    if n > 0 {
      assert Newlines(n)[..1] == "\n" && Newlines(n)[1..] == Newlines(n - 1);
      FirstNewline(Newlines(n), 1);
      CompleteIs(Newlines(n), "\n", Newlines(n - 1));
      EmptyLines(n - 1);
    }
  }

  // Some text without newlines, then newlines: its lines are that text and empty ones.
  lemma TailLines(partial: string, n: nat)
    requires '\n' !in partial
    ensures forall l | l in Complete(partial + Newlines(n)) :: l == partial + "\n" || l == "\n"
  {
    var s := partial + Newlines(n);
    if n == 0 {
      assert s == partial;
    } else {
      var line := partial + "\n";
      assert s[..|line|] == line && s[|line|..] == Newlines(n - 1) && line[..|line| - 1] == partial;
      assert s[..|line| - 1] == partial;
      FirstNewline(s, |line|);
      CompleteIs(s, line, Newlines(n - 1));
      EmptyLines(n - 1);
    }
  }

  lemma FirstIsEvent(x: char, n: nat)
    requires !IsSpace(x) && n >= 1
    ensures EVENT in EventsOf(OnlyLine(x), Complete([x] + Newlines(n)))
  {
    var s, line := [x] + Newlines(n), [x, '\n'];
    assert s[..2] == line && s[2..] == Newlines(n - 1) && s[..1] == [x];
    FirstNewline(s, 2);
    CompleteIs(s, line, Newlines(n - 1));
    TrimLine(x);
    ParseOnly(x, line);
    ConsTail(line, Complete(Newlines(n - 1)));
  }

  // Resuming inside a file whose first line is the only event misses it.
  lemma MissesFirst(cur: Cursor, x: char, n: nat)
    requires '\n' !in cur.partial && !IsSpace(x) && 1 <= cur.offset + |cur.partial| <= n
    requires TrimLeft(TrimRight(cur.partial + "\n")) != [x]
    ensures Scan(OnlyLine(x), cur, [x] + Newlines(n - 1), NO_FAULTS).events == []
  {
    var end := cur.offset + |cur.partial|;
    NewlinesFrom(x, n, end);
    OnlyNewlinesLeft(cur.partial, x, n - end);
    ScansTheRest(OnlyLine(x), cur, [x] + Newlines(n - 1), Newlines(n - end));
  }

  lemma NewlinesFrom(x: char, n: nat, i: nat)
    requires 1 <= i <= n
    ensures ([x] + Newlines(n - 1))[i..] == Newlines(n - i)
  {
  }

  // What follows a partial line that is not the event holds none either.
  lemma OnlyNewlinesLeft(partial: string, x: char, k: nat)
    requires '\n' !in partial && !IsSpace(x) && TrimLeft(TrimRight(partial + "\n")) != [x]
    ensures EventsOf(OnlyLine(x), Complete(partial + Newlines(k))) == []
  {
    var lines := Complete(partial + Newlines(k));
    TailLines(partial, k);
    TrimLine(x);
    forall l | l in lines ensures !ParseLine(OnlyLine(x), l).Counts? {
      ParseOnly(x, l);
    }
    NoEvents(OnlyLine(x), lines);
  }

  lemma ScansTheRest(codec: Codec, cur: Cursor, file: string, unread: string)
    requires cur.offset + |cur.partial| <= |file| && unread == file[cur.offset + |cur.partial|..]
    ensures Scan(codec, cur, file, NO_FAULTS).events == EventsOf(codec, Complete(cur.partial + unread))
  {
    FeedAll(codec, Complete(cur.partial + unread), false);
    ScanIs(codec, cur, file, NO_FAULTS, cur, unread);
  }

  lemma TooShortForEvents(codec: Codec, file: string)
    requires |file| <= 1
    ensures EventsOf(codec, Complete(file)) == []
  {
    if LineEnd(file) > 0 {
      assert file == "\n" && file[1..] == "" && "\n"[..0] == "";
      CompleteIs(file, "\n", "");
      NoEvents(codec, Complete(file));
    }
  }

  lemma FromStartReadsAll(codec: Codec, file: string)
    ensures Scan(codec, START, file, NO_FAULTS).events == EventsOf(codec, Complete(file))
  {
    AllIsVisible(file);
    FeedAll(codec, Complete(file), false);
    ScanIs(codec, START, file, NO_FAULTS, START, Unread(START, file, NO_FAULTS));
  }

  predicate SureToReadAll(cur: Cursor, n: nat) {
    n < cur.offset + |cur.partial| || cur == START || n <= 1
  }

  lemma ReadsAllThen(codec: Codec, cur: Cursor, file: string)
    requires SureToReadAll(cur, |file|)
    ensures ReadsAll(codec, cur, file)
  {
    if |file| < cur.offset + |cur.partial| {
      ShrunkFileIsReadAfresh(codec, cur, file);
    } else if cur == START {
      FromStartReadsAll(codec, file);
    } else {
      TooShortForEvents(codec, file);
    }
  }

  lemma ReadsNotAll(cur: Cursor, n: nat) returns (codec: Codec, file: string)
    requires '\n' !in cur.partial && !SureToReadAll(cur, n)
    ensures |file| == n && !ReadsAll(codec, cur, file)
  {
    var x := OtherChar(TrimLeft(TrimRight(cur.partial + "\n")));
    codec, file := OnlyLine(x), [x] + Newlines(n - 1);
    MissesFirst(cur, x, n);
    MissesOne(cur, x, n, file, Scan(codec, cur, file, NO_FAULTS).events);
  }

  lemma OtherChar(line: string) returns (x: char)
    ensures !IsSpace(x) && line != [x]
  {
    x := if line == "a" then 'b' else 'a';
  }

  lemma MissesOne(cur: Cursor, x: char, n: nat, file: string, events: seq<Event>)
    requires !IsSpace(x) && n > 1 && file == [x] + Newlines(n - 1)
    requires events == Scan(OnlyLine(x), cur, file, NO_FAULTS).events == []
    ensures !ReadsAll(OnlyLine(x), cur, file)
  {
    FirstIsEvent(x, n - 1);
    assert EVENT in EventsOf(OnlyLine(x), Complete(file)) && EVENT !in events;
  }

  // A scan with a cursor that belongs to other contents is sure to insert all events of a file of n bytes
  // exactly if it finds the file shorter, the cursor is at the start, or no line could be an event.
  lemma ForeignCursorIff(cur: Cursor, n: nat)
    requires '\n' !in cur.partial
    ensures (forall codec, file | |file| == n :: ReadsAll(codec, cur, file)) <==> SureToReadAll(cur, n)
  {
    if SureToReadAll(cur, n) {
      forall codec, file | |file| == n ensures ReadsAll(codec, cur, file) {
        ReadsAllThen(codec, cur, file);
      }
    } else {
      var codec, file := ReadsNotAll(cur, n);
    }
  }

  // ---------- A replacement that is missed ----------

  const FAILING := NO_FAULTS.(sink := Some(0))

  // A new file of one event line: inserting it fails, and the cursor stays.
  lemma FailingScan(cur: Cursor, x: char)
    requires Shorter([x] + Newlines(1), cur) && !IsSpace(x)
    ensures Scan(OnlyLine(x), cur, [x] + Newlines(1), FAILING) == Scanned([], 0, cur, false)
  {
    var file := [x] + Newlines(1);
    OneEventLine(file, x);
    FirstFails(OnlyLine(x), file);
    AllIsVisible(file);
  }

  lemma OneEventLine(file: string, x: char)
    requires file == [x] + Newlines(1) && !IsSpace(x)
    ensures Complete(file) == [file] && ParseLine(OnlyLine(x), file).Counts?
  {
    assert file == [x, '\n'] && file[..2] == file && file[2..] == [] && file[..1] == [x];
    FirstNewline(file, 2);
    CompleteIs(file, file, []);
    EmptyIsUnit([file]);
    TrimLine(x);
    ParseOnly(x, file);
  }

  lemma FirstFails(codec: Codec, line: string)
    requires ParseLine(codec, line).Counts?
    ensures Feed(codec, [line], FAILING.sink, FAILING.sinkKeeps) == Fed([], 0, false)
  {
  }

  // Nothing was inserted, though the file has an event.
  predicate MissesEvent(codec: Codec, t: Track, end: Track) {
    end.log == t.log && EVENT in EventsOf(codec, Complete(end.file))
  }

  // A replaced file that grows past the old cursor after the scan that found it shorter has failed: whatever
  // the run before, a later scan without failures inserts nothing, not even the event of the first line.
  lemma ReplacedFileIsMissed(hs: seq<Happening>, x: char)
    requires var cur := Play(OnlyLine(x), hs).cursor;
             2 < cur.offset + |cur.partial| && !IsSpace(x) && TrimLeft(TrimRight(cur.partial + "\n")) != [x]
    ensures var before := Play(OnlyLine(x), hs);
            var t := Step(OnlyLine(x), before, Replace([x] + Newlines(1)));
            var more := before.cursor.offset + |before.cursor.partial| - 2;
            var end := PlayOn(OnlyLine(x), t, [ScanFile(FAILING), Grow(Newlines(more)), ScanFile(NO_FAULTS)]);
            MissesEvent(OnlyLine(x), before, end)
  {
    var before := Play(OnlyLine(x), hs);
    var _, _ := PlayKeepsInv(OnlyLine(x), hs);
    var t := Step(OnlyLine(x), before, Replace([x] + Newlines(1)));
    assert t.phase.Stale? && t.cursor == before.cursor && t.log == before.log;
    MissedRun(t, x, before.cursor.offset + |before.cursor.partial| - 2);
  }

  lemma MissedRun(t: Track, x: char, more: nat)
    requires t.phase.Stale? && t.file == [x] + Newlines(1) && !IsSpace(x) && '\n' !in t.cursor.partial && more > 0
    requires more + 2 == t.cursor.offset + |t.cursor.partial| && TrimLeft(TrimRight(t.cursor.partial + "\n")) != [x]
    ensures MissesEvent(OnlyLine(x), t, PlayOn(OnlyLine(x), t, [ScanFile(FAILING), Grow(Newlines(more)), ScanFile(NO_FAULTS)]))
  {
    FailedStep(t, x);
    MissedStep(t, x, more);
    FailedThen(OnlyLine(x), t, FAILING, Newlines(more), NO_FAULTS);
  }

  // A scan that changes nothing might as well not have been.
  lemma FailedThen(codec: Codec, t: Track, f: Faults, more: string, g: Faults)
    requires Scanning(codec, t, f) == t
    ensures PlayOn(codec, t, [ScanFile(f), Grow(more), ScanFile(g)]) == Scanning(codec, Step(codec, t, Grow(more)), g)
  {
    ThreeSteps(codec, t, ScanFile(f), Grow(more), ScanFile(g));
  }

  lemma FailedStep(t: Track, x: char)
    requires t.phase.Stale? && t.file == [x] + Newlines(1) && Shorter(t.file, t.cursor) && !IsSpace(x)
    ensures Scanning(OnlyLine(x), t, FAILING) == t
  {
    FailingScan(t.cursor, x);
    EmptyIsUnit(t.own);
    EmptyIsUnit(t.log);
  }

  lemma MissedStep(t: Track, x: char, more: nat)
    requires t.phase.Stale? && t.file == [x] + Newlines(1) && !IsSpace(x) && '\n' !in t.cursor.partial
    requires more + 2 == t.cursor.offset + |t.cursor.partial| && TrimLeft(TrimRight(t.cursor.partial + "\n")) != [x]
    ensures MissesEvent(OnlyLine(x), t, Scanning(OnlyLine(x), Step(OnlyLine(x), t, Grow(Newlines(more))), NO_FAULTS))
  {
    assert t.file + Newlines(more) == [x] + Newlines(more + 1);
    FirstIsEvent(x, more + 1);
    MissesFirst(t.cursor, x, more + 2);
    NothingMore(OnlyLine(x), Step(OnlyLine(x), t, Grow(Newlines(more))));
  }

  lemma NothingMore(codec: Codec, t: Track)
    requires Scan(codec, t.cursor, t.file, NO_FAULTS).events == []
    ensures Scanning(codec, t, NO_FAULTS).log == t.log && Scanning(codec, t, NO_FAULTS).file == t.file
  {
    EmptyIsUnit(t.log);
  }

  lemma ThreeSteps(codec: Codec, t: Track, a: Happening, b: Happening, c: Happening)
    ensures PlayOn(codec, t, [a, b, c]) == Step(codec, Step(codec, Step(codec, t, a), b), c)
  {
    assert [a, b, c][..2] == [a, b] && [a, b][..1] == [a] && [a][..0] == [];
    assert PlayOn(codec, t, [a]) == Step(codec, t, a);
    assert PlayOn(codec, t, [a, b]) == Step(codec, PlayOn(codec, t, [a]), b);
  }

  // ---------- Once each ----------

  // Exactly the events of the first i lines are in, once each and in order, and a cursor that belongs to
  // the present contents is after line i.
  ghost predicate OnceAt(codec: Codec, t: Track, i: nat) {
    Inv(codec, t, i, i) && t.own == FirstEvents(codec, Complete(t.file), i) && (t.phase.Stale? ==> i == 0)
  }

  // Without failures that repeat inserts, however the file grows and is replaced and wherever reading breaks
  // off, the scans insert events of the complete lines once each and in order, and all of them when a scan
  // without failures has caught the last replacement.
  lemma {:induction false} InsertsOnceInOrder(codec: Codec, hs: seq<Happening>) returns (i: nat)
    requires forall h | h in hs :: !Repeats(h)
    ensures OnceAt(codec, Play(codec, hs), i)
    ensures hs != [] && hs[|hs| - 1] == ScanFile(NO_FAULTS) && Play(codec, hs).phase.Following? ==>
              Play(codec, hs).own == EventsOf(codec, Complete(Play(codec, hs).file))
  {
    if hs == [] {
      i := 0;
      AtStart("");
    } else {
      var init, h := hs[..|hs| - 1], hs[|hs| - 1];
      assert h in hs && forall x | x in init :: x in hs;
      i := InsertsOnceInOrder(codec, init);
      i := StepInsertsOnce(codec, Play(codec, init), h, i);
      AllLines(codec, Complete(Play(codec, hs).file));
    }
  }

  lemma StepInsertsOnce(codec: Codec, t: Track, h: Happening, i: nat) returns (i': nat)
    requires OnceAt(codec, t, i) && !Repeats(h)
    ensures OnceAt(codec, Step(codec, t, h), i')
    ensures h == ScanFile(NO_FAULTS) && Step(codec, t, h).phase.Following? ==> i' == |Complete(t.file)|
  {
    i' := i;
    match h
    case ScanFile(f) =>
      if t.phase.Following? {
        i' := FollowingInsertsOnce(codec, t, f, i);
      } else if Caught(t) {
        i' := StaleInsertsOnce(codec, t, f);
      } else {
        LostScan(codec, t, f, i, i);
      }
    case Grow(more) =>
      GrowthKeepsInv(codec, t, more, i, i);
      GrowthKeepsLines(t.file, more, 0);
      SameFirstEvents(codec, Complete(t.file), Complete(t.file + more), i);
    case Replace(file) =>
      ReplaceKeepsInv(codec, t, file, i);
      i' := 0;
    case Others(_) =>
  }

  lemma FollowingInsertsOnce(codec: Codec, t: Track, f: Faults, i: nat) returns (i': nat)
    requires OnceAt(codec, t, i) && t.phase.Following? && !Repeats(ScanFile(f))
    ensures OnceAt(codec, Scanning(codec, t, f), i')
    ensures f == NO_FAULTS ==> i' == |Complete(t.file)|
  {
    var s := Scan(codec, t.cursor, t.file, f);
    var l, n := ScanReads(codec, t.file, t.cursor, f, i);
    OnceMore(codec, t, f, i, l, n, s);
    i' := l;
  }

  lemma StaleInsertsOnce(codec: Codec, t: Track, f: Faults) returns (i': nat)
    requires OnceAt(codec, t, 0) && t.phase.Stale? && Caught(t) && !Repeats(ScanFile(f))
    ensures OnceAt(codec, Scanning(codec, t, f), i')
    ensures f == NO_FAULTS ==> i' == |Complete(t.file)|
  {
    AtStart(t.file);
    var l, n := ScanReads(codec, t.file, START, f, 0);
    ShorterReads(codec, t.file, t.cursor, f);
    i' := if f.load then 0 else l;
    RescanInsertsOnce(codec, t, f, l, n, Scan(codec, t.cursor, t.file, f), Scan(codec, START, t.file, f));
  }

  lemma RescanInsertsOnce(codec: Codec, t: Track, f: Faults, l: nat, n: nat, s: Scanned, again: Scanned)
    requires OnceAt(codec, t, 0) && t.phase.Stale? && Shorter(t.file, t.cursor) && !Repeats(ScanFile(f))
    requires ReadsAs(codec, t.file, f, 0, l, n, again) && ReadsAgain(f, t.cursor, s, again)
    ensures OnceAt(codec, Rescanned(t, s), if f.load then 0 else l)
    ensures f == NO_FAULTS ==> l == |Complete(t.file)|
  {
    if f.load {
      NothingScanned(t, s);
    } else {
      OnceMore(codec, t.(cursor := START), f, 0, l, n, again);
      AtLineFits(t.file, again.cursor, l);
      NowFollowing(t, s, again);
    }
  }

  lemma NothingScanned(t: Track, s: Scanned)
    requires t.phase.Stale? && s.events == [] && s.cursor == t.cursor
    ensures Rescanned(t, s) == t
  {
    EmptyIsUnit(t.own);
    EmptyIsUnit(t.log);
  }

  lemma NowFollowing(t: Track, s: Scanned, again: Scanned)
    requires Shorter(t.file, t.cursor) && CursorFits(t.file, again.cursor)
    requires s.events == again.events && s.cursor == again.cursor
    ensures Rescanned(t, s) == t.(cursor := again.cursor, own := t.own + again.events, log := t.log + again.events, phase := Following)
  {
  }

  lemma OnceMore(codec: Codec, t: Track, f: Faults, i: nat, l: nat, n: nat, s: Scanned)
    requires Knows(codec, t, i) && t.own == FirstEvents(codec, Complete(t.file), i)
    requires ReadsAs(codec, t.file, f, i, l, n, s) && !Repeats(ScanFile(f))
    ensures var t' := t.(cursor := s.cursor, own := t.own + s.events, log := t.log + s.events);
            InvAt(codec, t', l, l) && t'.own == FirstEvents(codec, Complete(t.file), l) && '\n' !in s.cursor.partial
    ensures f == NO_FAULTS ==> l == |Complete(t.file)|
  {
    OnceAfter(codec, t, s.cursor, s.events, l);
  }

  lemma OnceAfter(codec: Codec, t: Track, cur: Cursor, events: seq<Event>, i: nat)
    requires AtLine(t.file, cur, i) && t.own + events == FirstEvents(codec, Complete(t.file), i)
    requires forall e :: e in t.log <==> e in t.own || e in t.others
    ensures InvAt(codec, t.(cursor := cur, own := t.own + events, log := t.log + events), i, i)
  {
    InvAfter(codec, t, cur, events, i, i);
  }

  // A file found shorter than the cursor is read from the start, and the cursor with it.
  lemma ShrunkFileIsReadAfresh(codec: Codec, cur: Cursor, file: string)
    requires |file| < cur.offset + |cur.partial|
    ensures Scan(codec, cur, file, NO_FAULTS) ==
            Scanned(EventsOf(codec, Complete(file)), BadIn(codec, Complete(file)), Cursor(Total(Complete(file)), Rest(file)), true)
  {
    FeedAll(codec, Complete(file), false);
    AllIsVisible(file);
    ScanFromStart(codec, cur, file);
  }

  lemma AllIsVisible(file: string)
    ensures Visible(START, file, NO_FAULTS) == file && Visible(START, file, FAILING) == file
  {
    EmptyIsUnit(file);
  }

  lemma ScanFromStart(codec: Codec, cur: Cursor, file: string)
    requires |file| < cur.offset + |cur.partial| && Visible(START, file, NO_FAULTS) == file
    ensures var fed := Feed(codec, Complete(file), None, false);
            fed.done ==> Scan(codec, cur, file, NO_FAULTS) ==
                         Scanned(fed.events, fed.bad, Cursor(Total(Complete(file)), Rest(file)), true)
  {
  }

  // ---------- Scanning and one-shot parsing ----------

  lemma ParseIgnoresLineEnd(codec: Codec, line: string)
    ensures ParseLine(codec, DropCR(line)) == ParseLine(codec, line + "\n") == ParseLine(codec, line)
  {
    var s := line + "\n";
    assert s[..|s| - 1] == line;
    assert TrimRight(s) == TrimRight(line);
  }

  // The lines before the first one that is over 8 MiB.
  function Fitting(lines: seq<string>): nat {
    if lines == [] || |lines[0]| > 8 * 1024 * 1024 then 0 else 1 + Fitting(lines[1..])
  }

  lemma {:induction false} FittingIsLess(lines: seq<string>)
    ensures Fitting(lines) <= |lines|
    ensures (forall line | line in lines :: |line| <= 8 * 1024 * 1024) ==> Fitting(lines) == |lines|
  {
    if lines != [] {
      assert lines[0] in lines && forall line | line in lines[1..] :: line in lines;
      FittingIsLess(lines[1..]);
    }
  }

  // What a scanner with that buffer can read of a text: those lines and, if they are all, the unfinished one.
  function Readable(text: string): seq<string> {
    var lines := Complete(text);
    var k := Fitting(lines);
    FittingIsLess(lines);
    lines[..k] + if k == |lines| && 0 < |Rest(text)| < 8 * 1024 * 1024 then [Rest(text)] else []
  }

  // On every text the scanner's tokens mean the same events and bad lines as those lines.
  lemma {:induction false} TokensMeanLines(codec: Codec, text: string)
    ensures EventsOf(codec, Tokens(text)) == EventsOf(codec, Readable(text))
    ensures BadIn(codec, Tokens(text)) == BadIn(codec, Readable(text))
    decreases |text|
  {
    var n := LineEnd(text);
    if n == 0 {
      UnfinishedToken(codec, text);
    } else if n <= MAX_LINE {
      TokensMeanLines(codec, text[n..]);
      TokenAndLine(codec, text, n);
    } else {
      assert Fitting(Complete(text)) == 0 && Complete(text)[..0] == [];
    }
  }

  lemma TokenAndLine(codec: Codec, text: string, n: nat)
    requires n == LineEnd(text) && 0 < n <= MAX_LINE
    requires EventsOf(codec, Tokens(text[n..])) == EventsOf(codec, Readable(text[n..]))
    requires BadIn(codec, Tokens(text[n..])) == BadIn(codec, Readable(text[n..]))
    ensures EventsOf(codec, Tokens(text)) == EventsOf(codec, Readable(text))
    ensures BadIn(codec, Tokens(text)) == BadIn(codec, Readable(text))
  {
    LineAndToken(codec, text, n);
    ReadableMore(text, n);
    TokensMore(text, n);
    OneMore(codec, text[..n], Readable(text[n..]), DropCR(text[..n - 1]), Tokens(text[n..]));
  }

  lemma TokensMore(text: string, n: nat)
    requires n == LineEnd(text) && 0 < n <= MAX_LINE
    ensures Tokens(text) == [DropCR(text[..n - 1])] + Tokens(text[n..])
  {
  }

  lemma UnfinishedToken(codec: Codec, text: string)
    requires LineEnd(text) == 0
    ensures EventsOf(codec, Tokens(text)) == EventsOf(codec, Readable(text))
    ensures BadIn(codec, Tokens(text)) == BadIn(codec, Readable(text))
  {
    ParseIgnoresLineEnd(codec, text);
    OneMore(codec, text, [], DropCR(text), []);
    EmptyIsUnit([text]);
  }

  lemma ReadableMore(text: string, n: nat)
    requires n == LineEnd(text) && 0 < n <= 8 * 1024 * 1024
    ensures Readable(text) == [text[..n]] + Readable(text[n..])
  {
    var line, others := text[..n], Complete(text[n..]);
    ConsTail(line, others);
    FittingIsLess(others);
    TakeCons(line, others, 1 + Fitting(others));
    Associative([line], others[..Fitting(others)], Readable(text[n..])[Fitting(others)..]);
  }

  lemma LineAndToken(codec: Codec, text: string, n: nat)
    requires 0 < n <= |text| && text[n - 1] == '\n'
    ensures ParseLine(codec, text[..n]) == ParseLine(codec, DropCR(text[..n - 1]))
  {
    ParseIgnoresLineEnd(codec, text[..n - 1]);
    assert text[..n - 1] + "\n" == text[..n];
  }

  lemma OneMore(codec: Codec, a: string, rest: seq<string>, b: string, bs: seq<string>)
    requires ParseLine(codec, a) == ParseLine(codec, b)
    requires EventsOf(codec, rest) == EventsOf(codec, bs) && BadIn(codec, rest) == BadIn(codec, bs)
    ensures EventsOf(codec, [a] + rest) == EventsOf(codec, [b] + bs) && BadIn(codec, [a] + rest) == BadIn(codec, [b] + bs)
  {
    assert ([a] + rest)[1..] == rest && ([b] + bs)[1..] == bs;
  }

  // On a file without over-long lines, all the scans of a run without repeats insert what one ParseLines over
  // the whole file returns, except the event of an unfinished last line, which only ParseLines reads.
  lemma ScansEqualParseLines(codec: Codec, hs: seq<Happening>)
    requires hs != [] && hs[|hs| - 1] == ScanFile(NO_FAULTS) && forall h | h in hs :: !Repeats(h)
    requires Play(codec, hs).phase.Following?
    requires var file := Play(codec, hs).file; forall line | line in Complete(file) :: |line| <= 8 * 1024 * 1024
    ensures var t := Play(codec, hs);
            EventsOf(codec, Tokens(t.file)) ==
            t.own + if |Rest(t.file)| < 8 * 1024 * 1024 then EventsOf(codec, [Rest(t.file)]) else []
  {
    var t := Play(codec, hs);
    var _ := InsertsOnceInOrder(codec, hs);
    TokensMeanLines(codec, t.file);
    FittingIsLess(Complete(t.file));
    EmptyIsUnit(Complete(t.file));
    EmptyIsUnit(t.own);
    EventsConcat(codec, Complete(t.file), [Rest(t.file)]);
  }
}
