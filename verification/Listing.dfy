/** Lists of entries keyed by path: the shape of every manifest, baseline and scan result. */
module Listing {
  type Path = string

  datatype Item<T> = Item(path: Path, val: T)

  predicate Distinct<T>(xs: seq<Item<T>>) {
    forall i, j | 0 <= i < j < |xs| :: xs[i].path != xs[j].path
  }

  // The map a loop `m[x.Path] = x` leaves behind: a later entry replaces an earlier one.
  function ToMap<T>(xs: seq<Item<T>>): map<Path, T> {
    if xs == [] then map[]
    else
      var last := xs[|xs| - 1];
      ToMap(xs[..|xs| - 1])[last.path := last.val]
  }

  // xs lists exactly the entries of m, each once, in some order.
  ghost predicate Lists<T>(xs: seq<Item<T>>, m: map<Path, T>) {
    Distinct(xs) && ToMap(xs) == m
  }

  function PathsOf<T>(xs: seq<Item<T>>): set<Path> {
    set i | 0 <= i < |xs| :: xs[i].path
  }

  lemma {:induction false} ToMapKeys<T>(xs: seq<Item<T>>)
    ensures ToMap(xs).Keys == PathsOf(xs)
  {
    if xs != [] {
      var init := xs[..|xs| - 1];
      ToMapKeys(init);
      assert PathsOf(xs) == PathsOf(init) + {xs[|xs| - 1].path};
    }
  }

  lemma {:induction false} ToMapAt<T>(xs: seq<Item<T>>, i: nat)
    requires Distinct(xs) && i < |xs|
    ensures xs[i].path in ToMap(xs) && ToMap(xs)[xs[i].path] == xs[i].val
  {
    if i < |xs| - 1 {
      ToMapAt(xs[..|xs| - 1], i);
    }
  }

  // For a list without repeated paths, the map has exactly the listed entries.
  lemma {:induction false} DistinctMeaning<T>(xs: seq<Item<T>>)
    requires Distinct(xs)
    ensures ToMap(xs).Keys == PathsOf(xs)
    ensures forall i | 0 <= i < |xs| :: xs[i].path in ToMap(xs) && ToMap(xs)[xs[i].path] == xs[i].val
    ensures forall p | p in ToMap(xs) :: exists i :: 0 <= i < |xs| && xs[i] == Item(p, ToMap(xs)[p])
  {
    ToMapKeys(xs);
    forall i | 0 <= i < |xs|
      ensures xs[i].path in ToMap(xs) && ToMap(xs)[xs[i].path] == xs[i].val
    {
      ToMapAt(xs, i);
    }
    forall p | p in ToMap(xs)
      ensures exists i :: 0 <= i < |xs| && xs[i] == Item(p, ToMap(xs)[p])
    {
      var i :| 0 <= i < |xs| && xs[i].path == p;
      assert xs[i] == Item(p, ToMap(xs)[p]);
    }
  }

  lemma ListsFrom<T>(xs: seq<Item<T>>, m: map<Path, T>)
    requires Distinct(xs) && PathsOf(xs) == m.Keys
    requires forall i | 0 <= i < |xs| :: xs[i].val == m[xs[i].path]
    ensures Lists(xs, m)
  {
    DistinctMeaning(xs);
    forall p | p in m ensures ToMap(xs)[p] == m[p] {
      assert p in ToMap(xs);
    }
  }

  lemma PathsGrow<T>(xs: seq<Item<T>>, i: nat)
    requires i < |xs|
    ensures PathsOf(xs[..i + 1]) == PathsOf(xs[..i]) + {xs[i].path}
    ensures Distinct(xs) ==> xs[i].path !in PathsOf(xs[..i])
  {
  }

  lemma PathsOfOne<T>(x: Item<T>)
    ensures PathsOf([x]) == {x.path}
  {
    assert [x][0].path in PathsOf([x]);
  }

  lemma SamePaths<T, U>(xs: seq<Item<T>>, ys: seq<Item<U>>)
    requires |xs| == |ys| && forall i | 0 <= i < |xs| :: xs[i].path == ys[i].path
    ensures PathsOf(xs) == PathsOf(ys)
    ensures Distinct(xs) <==> Distinct(ys)
  {
    forall p | p in PathsOf(xs) ensures p in PathsOf(ys) {
      var i :| 0 <= i < |xs| && xs[i].path == p;
      assert ys[i].path == p;
    }
    forall p | p in PathsOf(ys) ensures p in PathsOf(xs) {
      var i :| 0 <= i < |ys| && ys[i].path == p;
      assert xs[i].path == p;
    }
    if Distinct(ys) {
      assert forall i, j | 0 <= i < j < |xs| :: ys[i].path != ys[j].path;
    }
    if Distinct(xs) {
      assert forall i, j | 0 <= i < j < |xs| :: xs[i].path != xs[j].path;
    }
  }

  lemma JoinPaths<T>(xs: seq<Item<T>>, ys: seq<Item<T>>)
    ensures PathsOf(xs + ys) == PathsOf(xs) + PathsOf(ys)
    ensures Distinct(xs) && Distinct(ys) && PathsOf(xs) !! PathsOf(ys) ==> Distinct(xs + ys)
  {
    var all := xs + ys;
    forall p | p in PathsOf(xs) + PathsOf(ys) ensures p in PathsOf(all) {
      if i :| 0 <= i < |xs| && xs[i].path == p {
        assert all[i].path == p;
      } else {
        var j :| 0 <= j < |ys| && ys[j].path == p;
        assert all[|xs| + j].path == p;
      }
    }
    assert forall i | 0 <= i < |xs| :: xs[i].path in PathsOf(xs);
    assert forall j | 0 <= j < |ys| :: ys[j].path in PathsOf(ys);
  }

  // Go's `range` over a map: every entry once, in an order the caller cannot predict.
  method Enumerate<T>(m: map<Path, T>) returns (xs: seq<Item<T>>)
    ensures Lists(xs, m)
  {
    xs := [];
    var rest := m.Keys;
    while rest != {}
      invariant Distinct(xs) && rest <= m.Keys && PathsOf(xs) == m.Keys - rest
      invariant forall i | 0 <= i < |xs| :: xs[i].path in m && xs[i].val == m[xs[i].path]
      decreases |rest|
    {
      var p :| p in rest;
      ghost var before := xs;
      xs, rest := xs + [Item(p, m[p])], rest - {p};
      assert xs[..|before|] == before && xs[..|before| + 1] == xs;
      PathsGrow(xs, |before|);
    }
    ListsFrom(xs, m);
  }
}
