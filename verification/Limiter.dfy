/** The sliding-window limit on authentication attempts (internal/control/http.go). */
module Limiters {
  import opened Sequences

  type Time = int   // nanoseconds

  const MINUTE := 60_000_000_000
  const DEFAULT_MAX := 20

  // The entries after the cutoff, in order.
  function After(ts: seq<Time>, cutoff: Time): seq<Time> {
    if ts == [] then []
    else
      var last := ts[|ts| - 1];
      After(ts[..|ts| - 1], cutoff) + if last > cutoff then [last] else []
  }

  // The entries of the last minute, by position.
  function Recent(ts: seq<Time>, now: Time): set<nat> {
    set i | 0 <= i < |ts| && now - 60_000_000_000 < ts[i]
  }

  lemma {:induction false} AfterIsRecent(ts: seq<Time>, now: Time)
    ensures |After(ts, now - MINUTE)| == |Recent(ts, now)|
  {
    if ts != [] {
      var n, init := |ts| - 1, ts[..|ts| - 1];
      AfterIsRecent(init, now);
      assert Recent(ts, now) == Recent(init, now) + if now - 60_000_000_000 < ts[n] then {n} else {};
      assert n !in Recent(init, now);
    }
  }

  // One attempt: `now` is the first clock reading, `stamp` the one recorded if it is allowed.
  datatype Try = Try(now: Time, stamp: Time)

  function Kept(ts: seq<Time>, t: Try, max: nat): seq<Time> {
    var kept := After(ts, t.now - MINUTE);
    if |kept| >= max then kept else kept + [t.stamp]
  }

  predicate Allowed(ts: seq<Time>, t: Try, max: nat) {
    |After(ts, t.now - MINUTE)| < max
  }

  lemma AllowedIsRecent(ts: seq<Time>, t: Try, max: nat)
    ensures Allowed(ts, t, max) <==> |Recent(ts, t.now)| < max
    ensures ts == [] && max > 0 ==> Allowed(ts, t, max)
  {
    AfterIsRecent(ts, t.now);
  }

  // ---------- The method on its slices ----------

  // A Go slice: the first `len` elements of its backing array.
  datatype Slice = Slice(buf: array<Time>, len: nat)

  class Limiter {
    const maxAttempts: int
    var attempts: map<string, Slice>

    constructor (maxAttempts: int)
      ensures this.maxAttempts == maxAttempts && attempts == map[]
    {
      this.maxAttempts, attempts := maxAttempts, map[];
    }

    function Max(): nat {
      if maxAttempts <= 0 then DEFAULT_MAX else maxAttempts
    }

    ghost function Buffers(): set<object>
      reads this
    {
      set k | k in attempts :: attempts[k].buf
    }

    // No two clients share a backing array.
    ghost predicate Valid()
      reads this
    {
      && (forall k | k in attempts :: attempts[k].len <= attempts[k].buf.Length)
      && (forall j, k | j in attempts && k in attempts && j != k :: attempts[j].buf != attempts[k].buf)
    }

    ghost function Recorded(key: string): seq<Time>
      requires Valid()
      reads this, Buffers()
    {
      if key in attempts then attempts[key].buf[..attempts[key].len] else []
    }

    // kept := s[:0]; for t in s { if t.After(cutoff) { kept = append(kept, t) } }, in s's own array:
    // writes never overtake the reading position.
    method Compact(buf: array<Time>, len: nat, cutoff: Time) returns (kept: nat)
      requires len <= buf.Length
      modifies buf
      ensures kept <= len && buf[..kept] == After(old(buf[..len]), cutoff)
    {
      kept := 0;
      for i := 0 to len
        invariant kept <= i && buf[..kept] == After(old(buf[..i]), cutoff)
        invariant forall j | i <= j < buf.Length :: buf[j] == old(buf[j])
      {
        var t := buf[i];
        assert old(buf[..i + 1])[..i] == old(buf[..i]);
        if t > cutoff {
          buf[kept] := t;
          kept := kept + 1;
        }
      }
    }

    // append(kept, stamp): in place while there is room, else in a larger array.
    method Append(buf: array<Time>, len: nat, stamp: Time) returns (s: Slice)
      requires len <= buf.Length
      modifies buf
      ensures s.len == len + 1 <= s.buf.Length && (s.buf == buf || fresh(s.buf))
      ensures s.buf[..s.len] == old(buf[..len]) + [stamp]
    {
      if len < buf.Length {
        buf[len] := stamp;
        return Slice(buf, len + 1);
      }
      var bigger := new Time[2 * len + 1];
      for i := 0 to len
        invariant bigger[..i] == buf[..i] && buf[..] == old(buf[..])
      {
        bigger[i] := buf[i];
      }
      bigger[len] := stamp;
      return Slice(bigger, len + 1);
    }

    method AllowAuth(key: string, t: Try) returns (ok: bool)
      requires Valid()
      modifies this, if key in attempts then {attempts[key].buf} else {}
      ensures Valid()
      ensures ok == Allowed(old(Recorded(key)), t, Max())
      ensures ok <==> |Recent(old(Recorded(key)), t.now)| < if maxAttempts > 0 then maxAttempts else 20
      ensures old(Recorded(key)) == [] ==> ok
      ensures Recorded(key) == Kept(old(Recorded(key)), t, Max())
      ensures forall k | k != key :: Recorded(k) == old(Recorded(k))
    {
      AllowedIsRecent(Recorded(key), t, Max());
      var max := if maxAttempts <= 0 then DEFAULT_MAX else maxAttempts;
      var cutoff := t.now - MINUTE;
      var s: Slice;
      if key in attempts {
        s := attempts[key];
      } else {
        var empty := new Time[0];
        s := Slice(empty, 0);
      }
      var kept := Compact(s.buf, s.len, cutoff);
      if kept >= max {
        Store(key, Slice(s.buf, kept));
        return false;
      }
      var grown := Append(s.buf, kept, t.stamp);
      Store(key, grown);
      return true;
    }

    method Store(key: string, s: Slice)
      requires Valid() && s.len <= s.buf.Length
      requires forall k | k in attempts && k != key :: attempts[k].buf != s.buf
      modifies this
      ensures Valid() && Recorded(key) == s.buf[..s.len]
      ensures forall k | k != key :: Recorded(k) == old(Recorded(k))
    {
      attempts := attempts[key := s];
    }
  }

  // ---------- Runs ----------

  // What the limiter keeps, and every attempt it has allowed.
  datatype Book = Book(ts: seq<Time>, allowed: seq<Time>)

  function Enter(b: Book, t: Try, max: nat): Book {
    Book(Kept(b.ts, t, max), if Allowed(b.ts, t, max) then b.allowed + [t.stamp] else b.allowed)
  }

  function Books(tries: seq<Try>, max: nat): Book {
    if tries == [] then Book([], [])
    else Enter(Books(tries[..|tries| - 1], max), tries[|tries| - 1], max)
  }

  // A clock that does not go back, within an attempt or from one to the next.
  predicate Monotone(tries: seq<Try>) {
    tries != [] ==>
      var init, t := tries[..|tries| - 1], tries[|tries| - 1];
      Monotone(init) && t.now <= t.stamp && (init != [] ==> init[|init| - 1].stamp <= t.now)
  }

  // The allowed attempts with from <= t < from + MINUTE.
  function Within(ts: seq<Time>, from: Time): seq<Time> {
    if ts == [] then []
    else
      var last := ts[|ts| - 1];
      Within(ts[..|ts| - 1], from) + if from <= last < from + MINUTE then [last] else []
  }

  lemma {:induction false} AfterAfter(ts: seq<Time>, early: Time, late: Time)
    requires early <= late
    ensures After(After(ts, early), late) == After(ts, late)
  {
    if ts != [] {
      var init, last := ts[..|ts| - 1], ts[|ts| - 1];
      AfterAfter(init, early, late);
      if last > early {
        SnocInit(After(init, early), last);
      } else {
        EmptyIsUnit(After(init, early));
      }
    }
  }

  lemma AfterOne(ts: seq<Time>, t: Time, cutoff: Time)
    ensures After(ts + [t], cutoff) == After(ts, cutoff) + if t > cutoff then [t] else []
  {
    SnocInit(ts, t);
  }

  lemma MonotoneInit(init: seq<Try>, t: Try)
    requires Monotone(init + [t])
    ensures Monotone(init) && t.now <= t.stamp && (init != [] ==> init[|init| - 1].now <= t.now)
  {
    SnocInit(init, t);
    assert init != [] ==> init[|init| - 1].now <= init[|init| - 1].stamp;
  }

  // Whatever has been dropped is too old to matter: for any later reading of the clock the kept entries
  // and all allowed attempts say the same.
  lemma {:induction false} KeptSpeaksForAll(tries: seq<Try>, max: nat, now: Time)
    requires Monotone(tries) && (tries != [] ==> tries[|tries| - 1].now <= now)
    ensures After(Books(tries, max).ts, now - MINUTE) == After(Books(tries, max).allowed, now - MINUTE)
  {
    if tries != [] {
      var init, t := tries[..|tries| - 1], tries[|tries| - 1];
      UnSnoc(tries);
      MonotoneInit(init, t);
      KeptSpeaksForAll(init, max, now);
      EnterSpeaksForAll(Books(init, max), t, max, now);
    }
  }

  lemma EnterSpeaksForAll(b: Book, t: Try, max: nat, now: Time)
    requires t.now <= now && After(b.ts, now - MINUTE) == After(b.allowed, now - MINUTE)
    ensures After(Enter(b, t, max).ts, now - MINUTE) == After(Enter(b, t, max).allowed, now - MINUTE)
  {
    AfterAfter(b.ts, t.now - MINUTE, now - MINUTE);
    if Allowed(b.ts, t, max) {
      AfterOne(After(b.ts, t.now - MINUTE), t.stamp, now - MINUTE);
      AfterOne(b.allowed, t.stamp, now - MINUTE);
    }
  }

  // An attempt is allowed exactly when fewer than max attempts were allowed in the minute before it.
  lemma RefusedOnlyWhenFull(tries: seq<Try>, t: Try, max: nat)
    requires Monotone(tries + [t])
    ensures Allowed(Books(tries, max).ts, t, max) <==> |Recent(Books(tries, max).allowed, t.now)| < max
  {
    MonotoneInit(tries, t);
    AllowedAfter(tries, t, max);
    AfterIsRecent(Books(tries, max).allowed, t.now);
  }

  lemma AllowedAfter(tries: seq<Try>, t: Try, max: nat)
    requires Monotone(tries) && (tries != [] ==> tries[|tries| - 1].now <= t.now)
    ensures Allowed(Books(tries, max).ts, t, max) <==> |After(Books(tries, max).allowed, t.now - MINUTE)| < max
  {
    KeptSpeaksForAll(tries, max, t.now);
    AllowedIs(Books(tries, max), t, max);
  }

  lemma AllowedIs(b: Book, t: Try, max: nat)
    requires After(b.ts, t.now - MINUTE) == After(b.allowed, t.now - MINUTE)
    ensures Allowed(b.ts, t, max) <==> |After(b.allowed, t.now - MINUTE)| < max
  {
  }

  lemma {:induction false} WithinIsRecent(ts: seq<Time>, from: Time, cutoff: Time)
    requires cutoff < from
    ensures |Within(ts, from)| <= |After(ts, cutoff)|
  {
    if ts != [] {
      WithinIsRecent(ts[..|ts| - 1], from, cutoff);
    }
  }

  lemma WithinOne(ts: seq<Time>, t: Time, from: Time)
    ensures Within(ts + [t], from) == Within(ts, from) + if from <= t < from + MINUTE then [t] else []
  {
    SnocInit(ts, t);
  }

  lemma EnterWithin(b: Book, t: Try, max: nat, from: Time)
    requires |Within(b.allowed, from)| <= max && t.now <= t.stamp
    requires Allowed(b.ts, t, max) ==> |After(b.allowed, t.now - MINUTE)| < max
    ensures |Within(Enter(b, t, max).allowed, from)| <= max
  {
    WithinOne(b.allowed, t.stamp, from);
    if t.now - MINUTE < from {
      WithinIsRecent(b.allowed, from, t.now - MINUTE);
    }
  }

  // In every run, every window of one minute holds at most max allowed attempts.
  lemma {:induction false} AtMostMaxPerMinute(tries: seq<Try>, max: nat, from: Time)
    requires Monotone(tries)
    ensures |Within(Books(tries, max).allowed, from)| <= max
  {
    if tries != [] {
      var init, t := tries[..|tries| - 1], tries[|tries| - 1];
      UnSnoc(tries);
      MonotoneInit(init, t);
      AtMostMaxPerMinute(init, max, from);
      AllowedAfter(init, t, max);
      EnterWithin(Books(init, max), t, max, from);
    }
  }
}
