/** The incremental usage collector (internal/usage/collector.go). */
module Collecting {
  import opened Options
  import opened Lines
  import opened Sequences

  // ---------- Events ----------

  datatype Usage = Usage(input: int, output: int, cacheRead: int, cacheWrite: int)

  // A decoded JSON line; `usage` is None when the line has none.
  datatype RawLine = RawLine(kind: string, requestId: string, timestamp: string, model: string, usage: Option<Usage>)

  datatype Event = Event(id: string, occurredAt: int, model: string, usage: Usage)

  // JSON and time parsing, which are not part of this model.
  datatype Codec = Codec(decode: string -> Option<RawLine>, parseTime: string -> Option<int>)

  datatype Parsed = Counts(event: Event) | Bad | Other

  predicate IsSpace(c: char) {
    c in " \t\n\r\U{0B}\U{0C}\U{85}\U{A0}"
  }

  function TrimRight(s: string): string {
    if s != "" && IsSpace(s[|s| - 1]) then TrimRight(s[..|s| - 1]) else s
  }

  function TrimLeft(s: string): string {
    if s != "" && IsSpace(s[0]) then TrimLeft(s[1..]) else s
  }

  function ParseLine(codec: Codec, text: string): Parsed {
    var line := TrimLeft(TrimRight(text));
    if line == "" then Other
    else match codec.decode(line)
      case None => Bad
      case Some(raw) =>
        if raw.kind != "assistant" || raw.usage.None? || raw.requestId == "" then Other
        else match codec.parseTime(raw.timestamp)
          case None => Bad
          case Some(t) => Counts(Event(raw.requestId, t, raw.model, raw.usage.value))
  }

  datatype Weights = Weights(input: int, output: int, cacheRead: int, cacheWrite: int)

  function Weighted(u: Usage, w: Weights): int {
    u.input * w.input + u.output * w.output + u.cacheRead * w.cacheRead + u.cacheWrite * w.cacheWrite
  }

  // The events of some lines, in order.
  function EventsOf(codec: Codec, lines: seq<string>): seq<Event> {
    if lines == [] then []
    else
      var p := ParseLine(codec, lines[0]);
      Emitted(p) + EventsOf(codec, lines[1..])
  }

  function BadIn(codec: Codec, lines: seq<string>): nat {
    if lines == [] then 0
    else (if ParseLine(codec, lines[0]).Bad? then 1 else 0) + BadIn(codec, lines[1..])
  }

  lemma {:induction false} EventsConcat(codec: Codec, a: seq<string>, b: seq<string>)
    ensures EventsOf(codec, a + b) == EventsOf(codec, a) + EventsOf(codec, b)
  {
    if a == [] {
      EmptyIsUnit(b);
      EmptyIsUnit(EventsOf(codec, b));
    } else {
      CutFirst(a, b, 1);
      EventsConcat(codec, a[1..], b);
      Associative(Emitted(ParseLine(codec, a[0])), EventsOf(codec, a[1..]), EventsOf(codec, b));
    }
  }

  // ---------- One scan of one file ----------

  // committed offset, and the bytes read after it without a newline
  datatype Cursor = Cursor(offset: nat, partial: string)

  const START := Cursor(0, "")

  // What goes wrong in one scan of one file: loading or saving the cursor, reading past some position,
  // inserting the n-th event. A failing insert or save may nevertheless have taken effect.
  datatype Faults = Faults(
    load: bool, stop: Option<nat>, sink: Option<nat>, sinkKeeps: bool, save: bool, saveKeeps: bool)

  const NO_FAULTS := Faults(false, None, None, false, false, false)

  // The lines fed to the sink: the events that reach it, the bad lines met, and whether all went through.
  datatype Fed = Fed(events: seq<Event>, bad: nat, done: bool)

  function Feed(codec: Codec, lines: seq<string>, sink: Option<nat>, keeps: bool): Fed {
    if lines == [] then Fed([], 0, true)
    else
      var p := ParseLine(codec, lines[0]);
      if p.Counts? && sink == Some(0) then Fed(if keeps then [p.event] else [], 0, false)
      else
        var more := Feed(codec, lines[1..], Left(p, sink), keeps);
        Fed(Emitted(p) + more.events, more.bad + if p.Bad? then 1 else 0, more.done)
  }

  function Emitted(p: Parsed): seq<Event> {
    if p.Counts? then [p.event] else []
  }

  // The inserts left before the failing one, after a line.
  function Left(p: Parsed, sink: Option<nat>): Option<nat> {
    if p.Counts? && sink.Some? && sink.value > 0 then Some(sink.value - 1) else sink
  }

  // Where to resume: after truncation or rotation, from the beginning.
  function Resume(cur: Cursor, file: string): Cursor {
    if |file| < cur.offset + |cur.partial| then START else cur
  }

  predicate Breaks(file: string, f: Faults) {
    f.stop.Some? && f.stop.value <= |file|
  }

  // What can be read from where the cursor resumes.
  function Unread(c: Cursor, file: string, f: Faults): string
    requires c.offset + |c.partial| <= |file|
  {
    var resume := c.offset + |c.partial|;
    if !Breaks(file, f) then file[resume..]
    else if f.stop.value <= resume then ""
    else file[resume..f.stop.value]
  }

  // The bytes from the cursor's offset that a scan has to go on: the saved partial line and the unread.
  function Visible(c: Cursor, file: string, f: Faults): string
    requires c.offset + |c.partial| <= |file|
  {
    c.partial + Unread(c, file, f)
  }

  function NextCursor(c: Cursor, text: string, broken: bool): Cursor {
    Cursor(c.offset + Total(Complete(text)),
           if !broken then Rest(text) else if Complete(text) == [] then c.partial else "")
  }

  datatype Scanned = Scanned(events: seq<Event>, bad: nat, cursor: Cursor, ok: bool)

  function Scan(codec: Codec, cur: Cursor, file: string, f: Faults): Scanned {
    if f.load then Scanned([], 0, cur, true)
    else
      var c := Resume(cur, file);
      var text := Visible(c, file, f);
      var fed := Feed(codec, Complete(text), f.sink, f.sinkKeeps);
      if !fed.done then Scanned(fed.events, fed.bad, cur, false)
      else
        Scanned(fed.events, fed.bad + if Breaks(file, f) then 1 else 0,
                if f.save && !f.saveKeeps then cur else NextCursor(c, text, Breaks(file, f)), !f.save)
  }

  // The scan that goes on from cursor c.
  lemma ScanIs(codec: Codec, cur: Cursor, file: string, f: Faults, c: Cursor, unread: string)
    requires !f.load && c == Resume(cur, file) && unread == Unread(c, file, f)
    ensures var s, text := Scan(codec, cur, file, f), c.partial + unread;
            var fed := Feed(codec, Complete(text), f.sink, f.sinkKeeps);
            && s.events == fed.events
            && s.bad == fed.bad + (if fed.done && Breaks(file, f) then 1 else 0) && s.ok == (fed.done && !f.save)
            && s.cursor == if !fed.done || (f.save && !f.saveKeeps) then cur else NextCursor(c, text, Breaks(file, f))
  {
  }

  lemma NextHasNoNewline(c: Cursor, text: string, broken: bool)
    requires '\n' !in c.partial
    ensures '\n' !in NextCursor(c, text, broken).partial
  {
    RestHasNoNewline(text);
  }

  // ---------- The sink ----------

  // A usage row: every field the largest value inserted for the request.
  datatype Totals = Totals(input: int, output: int, cacheRead: int, cacheWrite: int, weighted: int)

  function Charge(e: Event, w: Weights): Totals {
    Totals(e.usage.input, e.usage.output, e.usage.cacheRead, e.usage.cacheWrite, Weighted(e.usage, w))
  }

  function Max(a: int, b: int): int {
    if a < b then b else a
  }

  function Greatest(a: Totals, b: Totals): Totals {
    Totals(Max(a.input, b.input), Max(a.output, b.output), Max(a.cacheRead, b.cacheRead),
           Max(a.cacheWrite, b.cacheWrite), Max(a.weighted, b.weighted))
  }

  type Rows = map<string, Totals>

  function Insert(rows: Rows, e: Event, w: Weights): Rows {
    rows[e.id := if e.id in rows then Greatest(rows[e.id], Charge(e, w)) else Charge(e, w)]
  }

  // The sink after a sequence of inserts.
  function Merge(events: seq<Event>, w: Weights): Rows {
    if events == [] then map[]
    else Insert(Merge(events[..|events| - 1], w), events[|events| - 1], w)
  }

  // ---------- What the rows hold ----------

  datatype Field = Input | Output | CacheRead | CacheWrite | Units

  // What an event brings for a field.
  function Amount(e: Event, w: Weights, f: Field): int {
    match f
    case Input => e.usage.input
    case Output => e.usage.output
    case CacheRead => e.usage.cacheRead
    case CacheWrite => e.usage.cacheWrite
    case Units => Weighted(e.usage, w)
  }

  predicate Covers(events: seq<Event>, id: string) {
    exists e :: e in events && e.id == id
  }

  // The largest amount among a request's events.
  predicate Tops(n: int, events: seq<Event>, id: string, w: Weights, f: Field) {
    && (forall e | e in events && e.id == id :: Amount(e, w, f) <= n)
    && (exists e :: e in events && e.id == id && Amount(e, w, f) == n)
  }

  // Of each request among the events the row holds, field by field, the largest amount.
  predicate RowIs(rows: Rows, events: seq<Event>, id: string, w: Weights) {
    && (id in rows <==> Covers(events, id))
    && (id in rows ==>
          var t := rows[id];
          && Tops(t.input, events, id, w, Input) && Tops(t.output, events, id, w, Output)
          && Tops(t.cacheRead, events, id, w, CacheRead) && Tops(t.cacheWrite, events, id, w, CacheWrite)
          && Tops(t.weighted, events, id, w, Units))
  }

  // No tokens weigh nothing, and every further token of a kind adds that kind's weight.
  lemma WeightsAddUp(u: Usage, w: Weights, d: int)
    ensures Weighted(Usage(0, 0, 0, 0), w) == 0
    ensures Weighted(u.(input := u.input + d), w) == Weighted(u, w) + d * w.input
    ensures Weighted(u.(output := u.output + d), w) == Weighted(u, w) + d * w.output
    ensures Weighted(u.(cacheRead := u.cacheRead + d), w) == Weighted(u, w) + d * w.cacheRead
    ensures Weighted(u.(cacheWrite := u.cacheWrite + d), w) == Weighted(u, w) + d * w.cacheWrite
  {
    Distributes(u.input, d, w.input);
    Distributes(u.output, d, w.output);
    Distributes(u.cacheRead, d, w.cacheRead);
    Distributes(u.cacheWrite, d, w.cacheWrite);
  }

  lemma Distributes(a: int, b: int, c: int)
    ensures (a + b) * c == a * c + b * c
  {
  }

  lemma TopsMore(n: int, events: seq<Event>, e: Event, w: Weights, f: Field)
    requires Tops(n, events, e.id, w, f) || (!Covers(events, e.id) && n <= Amount(e, w, f))
    ensures Tops(Max(n, Amount(e, w, f)), events + [e], e.id, w, f)
  {
    var more := events + [e];
    assert e in more && forall x :: x in more <==> x in events || x == e;
    if !Covers(events, e.id) {
      assert forall x | x in events :: x.id == e.id ==> Covers(events, e.id);
    } else if Amount(e, w, f) < n {
      var x :| x in events && x.id == e.id && Amount(x, w, f) == n;
      assert x in more;
    }
  }

  lemma TopsStays(n: int, events: seq<Event>, e: Event, id: string, w: Weights, f: Field)
    requires Tops(n, events, id, w, f) && e.id != id
    ensures Tops(n, events + [e], id, w, f)
  {
    assert forall x :: x in events + [e] <==> x in events || x == e;
  }

  lemma CoversMore(events: seq<Event>, e: Event, id: string)
    ensures Covers(events + [e], id) <==> Covers(events, id) || e.id == id
  {
    assert e in events + [e] && forall x :: x in events + [e] <==> x in events || x == e;
  }

  lemma InsertKeepsRow(rows: Rows, events: seq<Event>, e: Event, w: Weights, id: string)
    requires RowIs(rows, events, id, w)
    ensures RowIs(Insert(rows, e, w), events + [e], id, w)
  {
    CoversMore(events, e, id);
    if id == e.id {
      var t := if id in rows then rows[id] else Charge(e, w);
      TopsMore(t.input, events, e, w, Input);
      TopsMore(t.output, events, e, w, Output);
      TopsMore(t.cacheRead, events, e, w, CacheRead);
      TopsMore(t.cacheWrite, events, e, w, CacheWrite);
      TopsMore(t.weighted, events, e, w, Units);
    } else if id in rows {
      var t := rows[id];
      TopsStays(t.input, events, e, id, w, Input);
      TopsStays(t.output, events, e, id, w, Output);
      TopsStays(t.cacheRead, events, e, id, w, CacheRead);
      TopsStays(t.cacheWrite, events, e, id, w, CacheWrite);
      TopsStays(t.weighted, events, e, id, w, Units);
    }
  }

  lemma {:induction false} MergeHolds(events: seq<Event>, w: Weights, id: string)
    ensures RowIs(Merge(events, w), events, id, w)
  {
    if events != [] {
      var init, e := events[..|events| - 1], events[|events| - 1];
      MergeHolds(init, w, id);
      InsertKeepsRow(Merge(init, w), init, e, w, id);
      UnSnoc(events);
    }
  }

  // ---------- The collector ----------

  class Collector {
    const codec: Codec
    const weights: Weights
    var cursors: map<string, Cursor>
    var rows: Rows
    var badLines: nat
    ghost var log: seq<Event>

    constructor (codec: Codec, weights: Weights)
      ensures this.codec == codec && this.weights == weights
      ensures cursors == map[] && rows == map[] && badLines == 0 && log == []
    {
      this.codec, this.weights := codec, weights;
      cursors, rows, badLines, log := map[], map[], 0, [];
    }

    // The rows are what the inserts so far add up to; pending partial lines are partial.
    ghost predicate Valid()
      reads this
    {
      rows == Merge(log, weights) && forall id | id in cursors :: '\n' !in cursors[id].partial
    }

    method InsertEvent(e: Event)
      requires Valid()
      modifies this`rows, this`log
      ensures Valid() && log == old(log) + [e]
    {
      rows := Insert(rows, e, weights);
      log := log + [e];
      SnocInit(old(log), e);
    }

    // One line: its event goes to the sink, unless this is the insert that fails.
    method FeedLine(line: string, sink: Option<nat>, keeps: bool) returns (ok: bool, left: Option<nat>)
      requires Valid()
      modifies this`rows, this`log, this`badLines
      ensures Valid()
      ensures var p := ParseLine(codec, line);
              && ok == !(p.Counts? && sink == Some(0))
              && left == Left(p, sink)
              && log == old(log) + (if ok || keeps then Emitted(p) else [])
              && badLines == old(badLines) + (if p.Bad? then 1 else 0)
    {
      ok, left := true, sink;
      match ParseLine(codec, line) {
        case Counts(e) =>
          if sink == Some(0) {
            if keeps {
              InsertEvent(e);
            }
            return false, sink;
          }
          InsertEvent(e);
          left := if sink.None? then None else Some(sink.value - 1);
        case Bad => badLines := badLines + 1;
        case Other =>
      }
    }

    // One turn of the read loop with a newline in sight: completes the pending line and feeds it.
    method ReadLine(cur: Cursor, rest: string, ghost broken: bool, sink: Option<nat>, keeps: bool)
      returns (next: Cursor, tail: string, left: Option<nat>, ok: bool)
      requires Valid() && '\n' !in cur.partial && LineEnd(rest) > 0
      modifies this`rows, this`log, this`badLines
      ensures Valid() && next.partial == "" && tail == rest[LineEnd(rest)..]
      ensures NextCursor(cur, cur.partial + rest, broken) == NextCursor(next, tail, broken)
      ensures var fed, more := Feed(codec, Complete(cur.partial + rest), sink, keeps), Feed(codec, Complete(tail), left, keeps);
              && old(log) + fed.events == (if ok then log + more.events else log)
              && old(badLines) + fed.bad == (if ok then badLines + more.bad else badLines)
              && fed.done == (ok && more.done)
    {
      var n := LineEnd(rest);
      var line := cur.partial + rest[..n];
      FirstLine(cur.partial, rest);
      CursorAfterLine(cur, cur.partial + rest, line, rest[n..], broken);
      next, tail := Cursor(cur.offset + |line|, ""), rest[n..];
      ConsTail(line, Complete(tail));
      ghost var before := log;
      ok, left := FeedLine(line, sink, keeps);
      Associative(before, Emitted(ParseLine(codec, line)), Feed(codec, Complete(tail), left, keeps).events);
    }

    // The read loop: feeds complete lines until none is left or an insert fails.
    method ReadLines(c: Cursor, unread: string, broken: bool, sink: Option<nat>, keeps: bool)
      returns (cur: Cursor, done: bool)
      requires Valid() && '\n' !in c.partial
      modifies this`rows, this`log, this`badLines
      ensures Valid()
      ensures var fed := Feed(codec, Complete(c.partial + unread), sink, keeps);
              && log == old(log) + fed.events && done == fed.done
              && badLines == old(badLines) + fed.bad + (if done && broken then 1 else 0)
              && (done ==> cur == NextCursor(c, c.partial + unread, broken))
    {
      cur, done := c, true;
      var rest, left := unread, sink;
      ghost var fed := Feed(codec, Complete(c.partial + unread), sink, keeps);
      ghost var total := log + fed.events;
      while LineEnd(rest) > 0
        invariant Valid() && '\n' !in cur.partial
        invariant total == log + Feed(codec, Complete(cur.partial + rest), left, keeps).events
        invariant old(badLines) + fed.bad == badLines + Feed(codec, Complete(cur.partial + rest), left, keeps).bad
        invariant fed.done == Feed(codec, Complete(cur.partial + rest), left, keeps).done
        invariant NextCursor(cur, cur.partial + rest, broken) == NextCursor(c, c.partial + unread, broken)
        decreases |rest|
      {
        cur, rest, left, done := ReadLine(cur, rest, broken, left, keeps);
        if !done {
          return;
        }
        EmptyIsUnit(rest);
      }
      NoLineYet(cur.partial, rest);
      if broken {
        badLines := badLines + 1;
      } else {
        cur := cur.(partial := cur.partial + rest);
      }
    }

    method SaveCursor(id: string, next: Cursor, f: Faults) returns (ok: bool)
      requires Valid() && '\n' !in next.partial
      modifies this`cursors
      ensures Valid() && ok == !f.save
      ensures CursorIn(cursors, id) == if f.save && !f.saveKeeps then CursorIn(old(cursors), id) else next
      ensures forall other | other != id :: CursorIn(cursors, other) == CursorIn(old(cursors), other)
    {
      if !f.save || f.saveKeeps {
        cursors := cursors[id := next];
      }
      return !f.save;
    }

    method ScanFile(id: string, file: string, f: Faults) returns (ok: bool)
      requires Valid()
      modifies this
      ensures Valid()
      ensures var s := Scan(codec, CursorIn(old(cursors), id), file, f);
              && log == old(log) + s.events && badLines == old(badLines) + s.bad
              && ok == s.ok && CursorIn(cursors, id) == s.cursor
      ensures forall request :: RowIs(rows, log, request, weights)
      ensures forall other | other != id :: CursorIn(cursors, other) == CursorIn(old(cursors), other)
    {
      ok := ReadFile(id, file, f);
      forall request ensures RowIs(rows, log, request, weights) {
        MergeHolds(log, weights, request);
      }
    }

    method ReadFile(id: string, file: string, f: Faults) returns (ok: bool)
      requires Valid()
      modifies this
      ensures Valid()
      ensures var s := Scan(codec, CursorIn(old(cursors), id), file, f);
              && log == old(log) + s.events && badLines == old(badLines) + s.bad
              && ok == s.ok && CursorIn(cursors, id) == s.cursor
      ensures forall other | other != id :: CursorIn(cursors, other) == CursorIn(old(cursors), other)
    {
      if f.load {
        return true;
      }
      var cur := CursorIn(cursors, id);
      if |file| < cur.offset + |cur.partial| {
        cur := START;
      }
      var unread := Unread(cur, file, f);
      var next, done := ReadLines(cur, unread, Breaks(file, f), f.sink, f.sinkKeeps);
      ScanIs(codec, CursorIn(old(cursors), id), file, f, cur, unread);
      if !done {
        return false;
      }
      NextHasNoNewline(cur, cur.partial + unread, Breaks(file, f));
      ok := SaveCursor(id, next, f);
    }

    // The walk over the .jsonl files: a failing sink or save ends it, other failures only skip a file.
    method ScanAll(walk: seq<Visit>) returns (ok: bool)
      requires Valid()
      modifies this
      ensures Valid()
      ensures var w := Walk(codec, old(cursors), walk);
              && log == old(log) + w.events && badLines == old(badLines) + w.bad && ok == w.ok
              && forall id :: CursorIn(cursors, id) == CursorIn(w.cursors, id)
    {
      ok := true;
      EmptyIsUnit(log);
      for i := 0 to |walk|
        invariant Valid() && ok
        invariant var w := Walk(codec, old(cursors), walk[..i]);
                  && log == old(log) + w.events && badLines == old(badLines) + w.bad && w.ok
                  && forall id :: CursorIn(cursors, id) == CursorIn(w.cursors, id)
      {
        var v := walk[i];
        ghost var w := Walk(codec, old(cursors), walk[..i]);
        assert walk[..i + 1][..i] == walk[..i];
        ok := ScanFile(v.id, v.file, v.faults);
        Associative(old(log), w.events, Scan(codec, CursorIn(w.cursors, v.id), v.file, v.faults).events);
        if !ok {
          WalkStops(codec, old(cursors), walk, i + 1);
          return false;
        }
      }
      EmptyIsUnit(walk);
    }
  }

  // One file of a walk, with what goes wrong on it.
  datatype Visit = Visit(id: string, file: string, faults: Faults)

  function CursorIn(cursors: map<string, Cursor>, id: string): Cursor {
    if id in cursors then cursors[id] else START
  }

  datatype Walked = Walked(events: seq<Event>, bad: nat, cursors: map<string, Cursor>, ok: bool)

  // What a walk inserts and counts, and the cursors it leaves; it ends at the first file that is not ok.
  function Walk(codec: Codec, cursors: map<string, Cursor>, walk: seq<Visit>): Walked {
    if walk == [] then Walked([], 0, cursors, true)
    else
      var w, v := Walk(codec, cursors, walk[..|walk| - 1]), walk[|walk| - 1];
      if !w.ok then w
      else
        var s := Scan(codec, CursorIn(w.cursors, v.id), v.file, v.faults);
        Walked(w.events + s.events, w.bad + s.bad, w.cursors[v.id := s.cursor], s.ok)
  }

  lemma {:induction false} WalkStops(codec: Codec, cursors: map<string, Cursor>, walk: seq<Visit>, i: nat)
    requires i <= |walk| && !Walk(codec, cursors, walk[..i]).ok
    ensures Walk(codec, cursors, walk) == Walk(codec, cursors, walk[..i])
    decreases |walk|
  {
    if i == |walk| {
      EmptyIsUnit(walk);
    } else {
      var init := walk[..|walk| - 1];
      assert init[..i] == walk[..i];
      WalkStops(codec, cursors, init, i);
    }
  }

  // ---------- One-shot parsing ----------

  const MAX_LINE := 8388608

  // bufio.ScanLines drops one carriage return before the newline.
  function DropCR(line: string): string {
    if line != "" && line[|line| - 1] == '\r' then line[..|line| - 1] else line
  }

  // The lines bufio.Scanner delivers: without line ends, the unfinished last one included, and nothing
  // from the first line on that does not fit the buffer.
  function Tokens(s: string): seq<string>
    decreases |s|
  {
    var n := LineEnd(s);
    if n > MAX_LINE || (n == 0 && (s == "" || |s| >= MAX_LINE)) then []
    else if n == 0 then [DropCR(s)]
    else [DropCR(s[..n - 1])] + Tokens(s[n..])
  }

  method ParseLines(codec: Codec, text: string) returns (out: seq<Event>, bad: nat)
    ensures out == EventsOf(codec, Tokens(text)) && bad == BadIn(codec, Tokens(text))
  {
    out, bad := [], 0;
    var rest, more := text, true;
    EmptyIsUnit(EventsOf(codec, Tokens(text)));
    while more
      invariant out + EventsOf(codec, ToCome(more, rest)) == EventsOf(codec, Tokens(text))
      invariant bad + BadIn(codec, ToCome(more, rest)) == BadIn(codec, Tokens(text))
      decreases more, |rest|
    {
      var n := LineEnd(rest);
      if n > MAX_LINE || (n == 0 && (rest == "" || |rest| >= MAX_LINE)) {
        more := false;
      } else {
        var token := DropCR(if n == 0 then rest else rest[..n - 1]);
        var p := ParseLine(codec, token);
        OneToken(codec, rest, n, token);
        Associative(out, Emitted(p), EventsOf(codec, ToCome(n > 0, rest[n..])));
        out := out + Emitted(p);
        bad := bad + if p.Bad? then 1 else 0;
        more, rest := n > 0, rest[n..];
      }
    }
    EmptyIsUnit(out);
  }

  function ToCome(more: bool, rest: string): seq<string> {
    if more then Tokens(rest) else []
  }

  lemma OneToken(codec: Codec, rest: string, n: nat, token: string)
    requires n == LineEnd(rest) && n <= MAX_LINE && (n == 0 ==> 0 < |rest| < MAX_LINE)
    requires token == DropCR(if n == 0 then rest else rest[..n - 1])
    ensures EventsOf(codec, Tokens(rest)) == Emitted(ParseLine(codec, token)) + EventsOf(codec, ToCome(n > 0, rest[n..]))
    ensures BadIn(codec, Tokens(rest)) == (if ParseLine(codec, token).Bad? then 1 else 0) + BadIn(codec, ToCome(n > 0, rest[n..]))
  {
    EmptyIsUnit([token]);
    ConsTail(token, ToCome(n > 0, rest[n..]));
  }

  lemma NoLineYet(partial: string, rest: string)
    requires '\n' !in partial && LineEnd(rest) == 0
    ensures Complete(partial + rest) == [] && Rest(partial + rest) == partial + rest
  {
  }

  lemma FirstLine(partial: string, rest: string)
    requires '\n' !in partial && LineEnd(rest) > 0
    ensures var n := LineEnd(rest);
            && LineEnd(partial + rest) == |partial| + n
            && Complete(partial + rest) == [partial + rest[..n]] + Complete(rest[n..])
            && Rest(partial + rest) == Rest(rest[n..])
  {
    LineEndIsFirst(partial, rest);
    CutSecond(partial, rest, LineEnd(rest));
    CompleteIs(partial + rest, partial + rest[..LineEnd(rest)], rest[LineEnd(rest)..]);
  }

  lemma CursorAfterLine(cur: Cursor, text: string, line: string, tail: string, broken: bool)
    requires Complete(text) == [line] + Complete(tail) && Rest(text) == Rest(tail)
    ensures NextCursor(cur, text, broken) == NextCursor(Cursor(cur.offset + |line|, ""), tail, broken)
  {
    TotalCons(line, Complete(tail));
    ConsTail(line, Complete(tail));
  }
}
