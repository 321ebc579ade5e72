/** What one line, one scan and one walk of the collector mean, without their loops and failure counters. */
module CollectorScans {
  import opened Options
  import opened Lines
  import opened Sequences
  import opened Collecting
  import opened CollectorRuns

  // ---------- One line ----------

  predicate Blank(s: string) {
    forall c | c in s :: c in " \t\n\r\U{0B}\U{0C}\U{85}\U{A0}"
  }

  lemma {:induction false} TrimBlank(s: string)
    requires Blank(s)
    ensures TrimRight(s) == ""
  {
    if s != "" {
      assert s[|s| - 1] in s && forall c | c in s[..|s| - 1] :: c in s;
      TrimBlank(s[..|s| - 1]);
    }
  }

  lemma {:induction false} TrimRightBlank(s: string, b: string)
    requires Blank(b)
    ensures TrimRight(s + b) == TrimRight(s)
    decreases |b|
  {
    if b == "" {
      EmptyIsUnit(s);
    } else {
      var init := b[..|b| - 1];
      assert b[|b| - 1] in b && forall c | c in init :: c in b;
      assert (s + b)[..|s + b| - 1] == s + init;
      TrimRightBlank(s, init);
    }
  }

  lemma {:induction false} TrimRightCons(c: char, s: string)
    requires Blank([c])
    ensures TrimRight([c] + s) == if TrimRight(s) == "" then "" else [c] + TrimRight(s)
    decreases |s|
  {
    if s == "" {
      EmptyIsUnit([c]);
      TrimBlank([c]);
    } else {
      assert ([c] + s)[..|[c] + s| - 1] == [c] + s[..|s| - 1];
      TrimRightCons(c, s[..|s| - 1]);
    }
  }

  lemma {:induction false} TrimLeftBlank(a: string, s: string)
    requires Blank(a)
    ensures TrimLeft(TrimRight(a + s)) == TrimLeft(TrimRight(s))
    decreases |a|
  {
    if a == "" {
      EmptyIsUnit(s);
    } else {
      var c, tail := a[0], a[1..] + s;
      assert c in a && forall x | x in a[1..] :: x in a;
      assert a + s == [c] + tail;
      TrimRightCons(c, tail);
      TrimLeftBlank(a[1..], s);
    }
  }

  // Blanks around a line make no difference.
  lemma BlanksDoNotCount(codec: Codec, a: string, line: string, b: string)
    requires Blank(a) && Blank(b)
    ensures ParseLine(codec, a + line + b) == ParseLine(codec, line)
  {
    TrimRightBlank(a + line, b);
    TrimLeftBlank(a, line);
  }

  predicate IsUsage(raw: RawLine) {
    raw.kind == "assistant" && raw.usage.Some? && raw.requestId != ""
  }

  // A line without blanks around it is an event exactly if it decodes to a usage line whose time parses, and
  // the event is what the line says; it is bad exactly if it does not decode, or only its time is wrong.
  lemma LineMeans(codec: Codec, line: string)
    requires line != "" ==> !Blank([line[0]]) && !Blank([line[|line| - 1]])
    ensures var raw, p := codec.decode(line), ParseLine(codec, line);
            var usage := raw.Some? && IsUsage(raw.value);
            var timed := usage && codec.parseTime(raw.value.timestamp).Some?;
            && (p.Counts? <==> line != "" && timed)
            && (p.Bad? <==> line != "" && (raw.None? || (usage && !timed)))
            && (p.Counts? ==> p.event == Event(raw.value.requestId, codec.parseTime(raw.value.timestamp).value,
                                               raw.value.model, raw.value.usage.value))
  {
    if line != "" {
      assert line[0] in [line[0]] && line[|line| - 1] in [line[|line| - 1]];
      assert TrimRight(line) == line && TrimLeft(line) == line;
    }
  }

  // ---------- One scan ----------

  // Feeding ends at the failing insert, if there are that many events, and not before.
  lemma {:induction false} FeedStops(codec: Codec, lines: seq<string>, sink: Option<nat>, keeps: bool)
    ensures var fed, all := Feed(codec, lines, sink, keeps), EventsOf(codec, lines);
            && (fed.done <==> sink.None? || |all| <= sink.value)
            && fed.events == if fed.done then all else all[..sink.value + if keeps then 1 else 0]
  {
    if lines != [] {
      var p := ParseLine(codec, lines[0]);
      FeedStops(codec, lines[1..], Left(p, sink), keeps);
    }
  }

  lemma FeedMeans(codec: Codec, lines: seq<string>, sink: Option<nat>, keeps: bool, fed: Fed) returns (k: nat)
    requires fed == Feed(codec, lines, sink, keeps)
    ensures var all := EventsOf(codec, lines);
            var fails := sink.Some? && sink.value < |all|;
            && k <= |lines| && (!fails ==> k == |lines|) && (fed.done <==> !fails)
            && fed.events == (if fails then all[..sink.value + if keeps then 1 else 0] else all)
            && fed.events == EventsOf(codec, lines[..k]) && fed.bad == BadIn(codec, lines[..k])
  {
    k := FeedSome(codec, lines, sink, keeps);
    FeedStops(codec, lines, sink, keeps);
  }

  // A file whose cursor cannot be loaded is skipped without ending the walk.
  lemma NotLoaded(codec: Codec, cur: Cursor, file: string, f: Faults)
    requires f.load
    ensures Scan(codec, cur, file, f) == Scanned([], 0, cur, true)
  {
  }

  // A scan that gets its cursor inserts the events of the complete lines it sees, up to the failing insert;
  // it is ok, counts every bad line and saves its cursor exactly if there are too few events to fail on.
  lemma ScanMeans(codec: Codec, cur: Cursor, file: string, f: Faults) returns (k: nat)
    requires !f.load
    ensures var s, c := Scan(codec, cur, file, f), Resume(cur, file);
            var text := Visible(c, file, f);
            var lines := Complete(text);
            var all := EventsOf(codec, lines);
            var fails := f.sink.Some? && f.sink.value < |all|;
            && k <= |lines| && (!fails ==> k == |lines|)
            && s.events == (if fails then all[..f.sink.value + if f.sinkKeeps then 1 else 0] else all)
            && s.events == EventsOf(codec, lines[..k])
            && s.bad == BadIn(codec, lines[..k]) + (if !fails && Breaks(file, f) then 1 else 0)
            && (s.ok <==> !fails && !f.save)
            && s.cursor == if fails || (f.save && !f.saveKeeps) then cur else NextCursor(c, text, Breaks(file, f))
  {
    var c := Resume(cur, file);
    var unread := Unread(c, file, f);
    var lines := Complete(c.partial + unread);
    k := FeedMeans(codec, lines, f.sink, f.sinkKeeps, Feed(codec, lines, f.sink, f.sinkKeeps));
    ScanIs(codec, cur, file, f, c, unread);
  }

  // ---------- One walk ----------

  predicate DistinctFiles(walk: seq<Visit>) {
    forall i, j | 0 <= i < j < |walk| :: walk[i].id != walk[j].id
  }

  // The scan of a file with the cursor saved before the walk.
  function OwnScan(codec: Codec, cursors: map<string, Cursor>, v: Visit): Scanned {
    Scan(codec, CursorIn(cursors, v.id), v.file, v.faults)
  }

  function OwnEvents(codec: Codec, cursors: map<string, Cursor>, walk: seq<Visit>): seq<Event> {
    if walk == [] then []
    else OwnEvents(codec, cursors, walk[..|walk| - 1]) + OwnScan(codec, cursors, walk[|walk| - 1]).events
  }

  function OwnBad(codec: Codec, cursors: map<string, Cursor>, walk: seq<Visit>): nat {
    if walk == [] then 0
    else OwnBad(codec, cursors, walk[..|walk| - 1]) + OwnScan(codec, cursors, walk[|walk| - 1]).bad
  }

  // No sink and no save fails.
  predicate AllOk(codec: Codec, cursors: map<string, Cursor>, walk: seq<Visit>) {
    walk == [] || (AllOk(codec, cursors, walk[..|walk| - 1]) && OwnScan(codec, cursors, walk[|walk| - 1]).ok)
  }

  // The cursor the scan of a file leaves; files that were not scanned keep theirs.
  function OwnCursor(codec: Codec, cursors: map<string, Cursor>, walk: seq<Visit>, id: string): Cursor {
    if walk == [] then CursorIn(cursors, id)
    else if walk[|walk| - 1].id == id then OwnScan(codec, cursors, walk[|walk| - 1]).cursor
    else OwnCursor(codec, cursors, walk[..|walk| - 1], id)
  }

  lemma {:induction false} NotScannedYet(codec: Codec, cursors: map<string, Cursor>, walk: seq<Visit>, id: string)
    requires forall i | 0 <= i < |walk| :: walk[i].id != id
    ensures OwnCursor(codec, cursors, walk, id) == CursorIn(cursors, id)
  {
    if walk != [] {
      NotScannedYet(codec, cursors, walk[..|walk| - 1], id);
    }
  }

  // What is there once these files have been scanned.
  ghost predicate WalkedOwn(codec: Codec, cursors: map<string, Cursor>, walk: seq<Visit>, w: Walked) {
    && w.events == OwnEvents(codec, cursors, walk) && w.bad == OwnBad(codec, cursors, walk)
    && forall id :: CursorIn(w.cursors, id) == OwnCursor(codec, cursors, walk, id)
  }

  // The first k files have been scanned, the last of them the first that is not ok, if there is one.
  ghost predicate WalkedTo(codec: Codec, cursors: map<string, Cursor>, walk: seq<Visit>, k: nat, w: Walked) {
    && k <= |walk| && WalkedOwn(codec, cursors, walk[..k], w)
    && if w.ok then k == |walk| && AllOk(codec, cursors, walk)
       else k > 0 && AllOk(codec, cursors, walk[..k - 1]) && !OwnScan(codec, cursors, walk[k - 1]).ok
  }

  // A walk scans each file with its own saved cursor, in order, up to and including the first file whose
  // sink or save fails; it is ok exactly if there is none, and leaves all other cursors alone.
  lemma {:induction false} WalkMeans(codec: Codec, cursors: map<string, Cursor>, walk: seq<Visit>) returns (k: nat)
    requires DistinctFiles(walk)
    ensures WalkedTo(codec, cursors, walk, k, Walk(codec, cursors, walk))
    decreases |walk|
  {
    if walk == [] {
      k := 0;
    } else {
      var init, v := walk[..|walk| - 1], walk[|walk| - 1];
      k := WalkMeans(codec, cursors, init);
      UnSnoc(walk);
      if Walk(codec, cursors, init).ok {
        EmptyIsUnit(init);
        NextFile(codec, cursors, init, v);
        ToTheEnd(codec, cursors, init, v, Walk(codec, cursors, init + [v]));
        k := |walk|;
      } else {
        WalkStops(codec, cursors, walk, |init|);
        StoppedBefore(codec, cursors, init, v, k, Walk(codec, cursors, init));
      }
    }
  }

  lemma ToTheEnd(codec: Codec, cursors: map<string, Cursor>, init: seq<Visit>, v: Visit, w: Walked)
    requires AllOk(codec, cursors, init) && WalkedOwn(codec, cursors, init + [v], w)
    requires w.ok == OwnScan(codec, cursors, v).ok
    ensures WalkedTo(codec, cursors, init + [v], |init| + 1, w)
  {
    SnocInit(init, v);
    EmptyIsUnit(init + [v]);
  }

  lemma StoppedBefore(codec: Codec, cursors: map<string, Cursor>, init: seq<Visit>, v: Visit, k: nat, w: Walked)
    requires WalkedTo(codec, cursors, init, k, w) && !w.ok
    ensures WalkedTo(codec, cursors, init + [v], k, w)
  {
    CutFirst(init, [v], k);
    CutFirst(init, [v], k - 1);
  }

  lemma NextFile(codec: Codec, cursors: map<string, Cursor>, init: seq<Visit>, v: Visit)
    requires DistinctFiles(init + [v])
    requires Walk(codec, cursors, init).ok && WalkedOwn(codec, cursors, init, Walk(codec, cursors, init))
    ensures var w := Walk(codec, cursors, init + [v]);
            WalkedOwn(codec, cursors, init + [v], w) && w.ok == OwnScan(codec, cursors, v).ok
  {
    var walk, w := init + [v], Walk(codec, cursors, init);
    forall i | 0 <= i < |init| ensures init[i].id != v.id {
      assert walk[i] == init[i] && walk[|init|] == v;
    }
    NotScannedYet(codec, cursors, init, v.id);
    WalkSnoc(codec, cursors, init, v, w, OwnScan(codec, cursors, v));
    OneMoreFile(codec, cursors, init, v, w, OwnScan(codec, cursors, v));
  }

  lemma WalkSnoc(codec: Codec, cursors: map<string, Cursor>, init: seq<Visit>, v: Visit, w: Walked, s: Scanned)
    requires w == Walk(codec, cursors, init) && w.ok && s == Scan(codec, CursorIn(w.cursors, v.id), v.file, v.faults)
    ensures Walk(codec, cursors, init + [v]) ==
            Walked(w.events + s.events, w.bad + s.bad, w.cursors[v.id := s.cursor], s.ok)
  {
    SnocInit(init, v);
  }

  lemma OneMoreFile(codec: Codec, cursors: map<string, Cursor>, init: seq<Visit>, v: Visit, w: Walked, s: Scanned)
    requires WalkedOwn(codec, cursors, init, w) && s == OwnScan(codec, cursors, v)
    ensures WalkedOwn(codec, cursors, init + [v], Walked(w.events + s.events, w.bad + s.bad, w.cursors[v.id := s.cursor], s.ok))
  {
    OwnSnoc(codec, cursors, init, v);
    forall id ensures CursorIn(w.cursors[v.id := s.cursor], id) == OwnCursor(codec, cursors, init + [v], id) {
      OwnCursorSnoc(codec, cursors, init, v, id);
      assert CursorIn(w.cursors, id) == OwnCursor(codec, cursors, init, id);
    }
  }

  lemma OwnSnoc(codec: Codec, cursors: map<string, Cursor>, init: seq<Visit>, v: Visit)
    ensures OwnEvents(codec, cursors, init + [v]) == OwnEvents(codec, cursors, init) + OwnScan(codec, cursors, v).events
    ensures OwnBad(codec, cursors, init + [v]) == OwnBad(codec, cursors, init) + OwnScan(codec, cursors, v).bad
  {
    SnocInit(init, v);
  }

  lemma OwnCursorSnoc(codec: Codec, cursors: map<string, Cursor>, init: seq<Visit>, v: Visit, id: string)
    ensures OwnCursor(codec, cursors, init + [v], id) ==
            if v.id == id then OwnScan(codec, cursors, v).cursor else OwnCursor(codec, cursors, init, id)
  {
    SnocInit(init, v);
  }
}
