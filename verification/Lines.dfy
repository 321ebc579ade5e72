/** Splitting an append-only text into complete lines and the unfinished rest. */
module Lines {
  import opened Sequences

  // Length of the first line with its newline; 0 when there is no newline.
  function LineEnd(s: string): (n: nat)
    ensures n <= |s| && (n > 0 ==> s[n - 1] == '\n' && '\n' !in s[..n - 1])
    ensures n == 0 <==> '\n' !in s
  {
    if s == "" then 0
    else if s[0] == '\n' then 1
    else
      var n := LineEnd(s[1..]);
      assert s == [s[0]] + s[1..];
      assert n > 0 ==> s[..n] == [s[0]] + s[1..][..n - 1];
      if n == 0 then 0 else n + 1
  }

  // The complete lines, newlines included.
  function Complete(s: string): seq<string>
    decreases |s|
  {
    var n := LineEnd(s);
    if n == 0 then [] else [s[..n]] + Complete(s[n..])
  }

  // What follows the last newline.
  function Rest(s: string): string
    decreases |s|
  {
    var n := LineEnd(s);
    if n == 0 then s else Rest(s[n..])
  }

  function Total(lines: seq<string>): nat {
    if lines == [] then 0 else |lines[0]| + Total(lines[1..])
  }

  lemma CompleteIs(s: string, line: string, tail: string)
    requires LineEnd(s) == |line| > 0 && s[..|line|] == line && s[|line|..] == tail
    ensures Complete(s) == [line] + Complete(tail) && Rest(s) == Rest(tail)
  {
  }

  lemma {:induction false} FirstNewline(s: string, m: nat)
    requires 0 < m <= |s| && s[m - 1] == '\n' && '\n' !in s[..m - 1]
    ensures LineEnd(s) == m
  {
    if m > 1 {
      assert s[0] in s[..m - 1];
      assert s[1..][..m - 2] == s[..m - 1][1..];
      FirstNewline(s[1..], m - 1);
    }
  }

  lemma LineEndIsFirst(a: string, b: string)
    requires '\n' !in a && LineEnd(b) > 0
    ensures LineEnd(a + b) == |a| + LineEnd(b)
  {
    var m := |a| + LineEnd(b);
    assert (a + b)[..m - 1] == a + b[..LineEnd(b) - 1];
    FirstNewline(a + b, m);
  }

  // The first line does not depend on what follows it.
  lemma LineEndIsStable(a: string, b: string)
    requires LineEnd(a) > 0
    ensures LineEnd(a + b) == LineEnd(a)
  {
    assert (a + b)[..LineEnd(a) - 1] == a[..LineEnd(a) - 1];
    FirstNewline(a + b, LineEnd(a));
  }

  // Text may arrive in pieces: the lines completed by `b` are those of the rest of `a` followed by `b`.
  lemma {:induction false} SplitAnywhere(a: string, b: string)
    ensures Complete(a + b) == Complete(a) + Complete(Rest(a) + b)
    ensures Rest(a + b) == Rest(Rest(a) + b)
    decreases |a|
  {
    var n := LineEnd(a);
    if n == 0 {
      EmptyIsUnit(Complete(a + b));
    } else {
      LineEndIsStable(a, b);
      CutFirst(a, b, n);
      SplitAnywhere(a[n..], b);
      Associative([a[..n]], Complete(a[n..]), Complete(Rest(a) + b));
    }
  }

  lemma {:induction false} RestHasNoNewline(s: string)
    ensures '\n' !in Rest(s) && |s| == Total(Complete(s)) + |Rest(s)| && s[Total(Complete(s))..] == Rest(s)
    decreases |s|
  {
    var n := LineEnd(s);
    if n > 0 {
      RestHasNoNewline(s[n..]);
      TotalCons(s[..n], Complete(s[n..]));
      DropDrop(s, n, Total(Complete(s[n..])));
    }
  }

  // The text without its first i lines.
  function Drop(s: string, i: nat): string
    requires i <= |Complete(s)|
    decreases i
  {
    if i == 0 then s else Drop(s[LineEnd(s)..], i - 1)
  }

  // It consists of the other lines and the same rest ...
  lemma {:induction false} DropLines(s: string, i: nat)
    requires i <= |Complete(s)|
    ensures Complete(Drop(s, i)) == Complete(s)[i..] && Rest(Drop(s, i)) == Rest(s)
    decreases i
  {
    if i > 0 {
      var n := LineEnd(s);
      DropLines(s[n..], i - 1);
      assert Complete(s) == [s[..n]] + Complete(s[n..]) && Drop(s, i) == Drop(s[n..], i - 1);
      ConsTail(s[..n], Complete(s[n..]));
      DropDrop(Complete(s), 1, i - 1);
    }
  }

  // ... and starts after the bytes of the first i.
  lemma {:induction false} DropStarts(s: string, i: nat)
    requires i <= |Complete(s)|
    ensures Total(Complete(s)[..i]) <= |s| && Drop(s, i) == s[Total(Complete(s)[..i])..]
    decreases i
  {
    if i > 0 {
      var n := LineEnd(s);
      var tail := Complete(s[n..])[..i - 1];
      DropStarts(s[n..], i - 1);
      TakeCons(s[..n], Complete(s[n..]), i);
      TotalCons(s[..n], tail);
      DropDrop(s, n, Total(tail));
    }
  }

  lemma TakeCons(line: string, tail: seq<string>, i: nat)
    requires 0 < i <= |tail| + 1
    ensures ([line] + tail)[..i] == [line] + tail[..i - 1]
  {
  }

  lemma TotalCons(line: string, tail: seq<string>)
    ensures Total([line] + tail) == |line| + Total(tail)
  {
    ConsTail(line, tail);
  }

  lemma {:induction false} TotalConcat(a: seq<string>, b: seq<string>)
    ensures Total(a + b) == Total(a) + Total(b)
  {
    if a == [] {
      EmptyIsUnit(b);
    } else {
      CutFirst(a, b, 1);
      TotalConcat(a[1..], b);
    }
  }

  lemma {:induction false} DropMore(s: string, i: nat, m: nat)
    requires i + m <= |Complete(s)|
    ensures m <= |Complete(Drop(s, i))| && Drop(s, i + m) == Drop(Drop(s, i), m)
    decreases i
  {
    if i > 0 {
      var tail := s[LineEnd(s)..];
      ConsTail(s[..LineEnd(s)], Complete(tail));
      DropMore(tail, i - 1, m);
      assert Drop(s, i) == Drop(tail, i - 1) && Drop(s, i + m) == Drop(tail, i - 1 + m);
    }
  }

  // The lines of a beginning are the first lines of the whole.
  lemma LinesOfPrefix(text: string, whole: string)
    requires text <= whole
    ensures Complete(text) <= Complete(whole) && Total(Complete(text)) <= |text|
    ensures Rest(text) <= Drop(whole, |Complete(text)|)
  {
    var more := whole[|text|..];
    PrefixRest(text, whole);
    SplitAnywhere(text, more);
    RestHasNoNewline(text);
    FirstLinesDropped(whole, Complete(text), Complete(Rest(text) + more));
    PrefixDrop(text, whole, Total(Complete(text)));
  }

  lemma FirstLinesDropped(s: string, first: seq<string>, others: seq<string>)
    requires Complete(s) == first + others
    ensures first <= Complete(s) && Total(first) <= |s| && Drop(s, |first|) == s[Total(first)..]
  {
    CutAt(first, others);
    DropStarts(s, |first|);
  }
}
