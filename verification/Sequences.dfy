/** Lists as the dataset code handles them: reversing, chunking, flattening, filtering. */
module Sequences {

  function Reverse<T>(s: seq<T>): (r: seq<T>)
    ensures |r| == |s|
  {
    if s == [] then [] else Reverse(s[1..]) + [s[0]]
  }

  lemma ReversePrepend<T>(x: T, s: seq<T>)
    ensures Reverse([x] + s) == Reverse(s) + [x]
  {
    assert ([x] + s)[1..] == s;
  }

  lemma {:induction false} ReverseElements<T>(s: seq<T>)
    ensures multiset(Reverse(s)) == multiset(s)
  {
    if s != [] {
      ReverseElements(s[1..]);
      assert s == [s[0]] + s[1..];
    }
  }

  function Flatten<T>(parts: seq<seq<T>>): seq<T> {
    if parts == [] then [] else parts[0] + Flatten(parts[1..])
  }

  lemma {:induction false} FlattenAppend<T>(a: seq<seq<T>>, b: seq<seq<T>>)
    ensures Flatten(a + b) == Flatten(a) + Flatten(b)
  {
    if a == [] {
      assert a + b == b;
    } else {
      assert (a + b)[1..] == a[1..] + b;
      FlattenAppend(a[1..], b);
    }
  }

  /** `Enum.chunk_every(n)`. */
  function Chunk<T>(s: seq<T>, n: nat): (chunks: seq<seq<T>>)
    requires n > 0
    ensures Flatten(chunks) == s
    ensures forall c :: c in chunks ==> 1 <= |c| <= n
    decreases |s|
  {
    if s == [] then []
    else if |s| <= n then
      assert [s][1..] == [];
      [s]
    else
      assert ([s[..n]] + Chunk(s[n..], n))[1..] == Chunk(s[n..], n);
      [s[..n]] + Chunk(s[n..], n)
  }

  lemma {:induction false} ChunkElements<T>(s: seq<T>, n: nat)
    requires n > 0
    ensures forall c, x :: c in Chunk(s, n) && x in c ==> x in s
    decreases |s|
  {
    if |s| > n {
      ChunkElements(s[n..], n);
    }
  }

  function Filter<T(!new)>(keep: T -> bool, s: seq<T>): (r: seq<T>)
    ensures forall x :: x in r <==> x in s && keep(x)
  {
    if s == [] then [] else (if keep(s[0]) then [s[0]] else []) + Filter(keep, s[1..])
  }

  lemma {:induction false} FilterAppend<T(!new)>(keep: T -> bool, a: seq<T>, b: seq<T>)
    ensures Filter(keep, a + b) == Filter(keep, a) + Filter(keep, b)
  {
    if a == [] {
      assert a + b == b;
    } else {
      assert (a + b)[0] == a[0] && (a + b)[1..] == a[1..] + b;
      FilterAppend(keep, a[1..], b);
    }
  }

  lemma FilterOne<T(!new)>(keep: T -> bool, x: T)
    ensures Filter(keep, [x]) == if keep(x) then [x] else []
  {
    assert [x][1..] == [];
  }

  predicate Distinct<T(==)>(s: seq<T>) {
    forall i, j :: 0 <= i < j < |s| ==> s[i] != s[j]
  }

  lemma {:induction false} FilterDistinct<T(!new)>(keep: T -> bool, s: seq<T>)
    requires Distinct(s)
    ensures Distinct(Filter(keep, s))
  {
    if s != [] {
      FilterDistinct(keep, s[1..]);
      assert forall x :: x in s[1..] ==> x != s[0];
    }
  }

  lemma FilterNone<T(!new)>(keep: T -> bool, s: seq<T>)
    requires forall x :: x in s ==> !keep(x)
    ensures Filter(keep, s) == []
  {
  }

  function Map<T, U>(f: T -> U, s: seq<T>): (r: seq<U>)
    ensures |r| == |s|
    ensures forall i :: 0 <= i < |s| ==> r[i] == f(s[i])
  {
    if s == [] then [] else [f(s[0])] + Map(f, s[1..])
  }

  lemma MapAppend<T, U>(f: T -> U, a: seq<T>, b: seq<T>)
    ensures Map(f, a + b) == Map(f, a) + Map(f, b)
  {
  }

  lemma MapMap<T, U, V>(f: T -> U, g: U -> V, s: seq<T>)
    ensures Map(g, Map(f, s)) == Map((x: T) => g(f(x)), s)
  {
  }

  lemma MapSame<T, U>(f: T -> U, g: T -> U, s: seq<T>)
    requires forall i :: 0 <= i < |s| ==> f(s[i]) == g(s[i])
    ensures Map(f, s) == Map(g, s)
  {
  }

  lemma MapSlices<T, U>(f: T -> U, s: seq<T>, n: nat)
    requires n <= |s|
    ensures Map(f, s)[..n] == Map(f, s[..n]) && Map(f, s)[n..] == Map(f, s[n..])
  {
  }

  /** Chunking commutes with mapping. */
  lemma {:induction false} ChunkMap<T, U>(f: T -> U, s: seq<T>, n: nat)
    requires n > 0
    ensures Chunk(Map(f, s), n) == Map((c: seq<T>) => Map(f, c), Chunk(s, n))
    decreases |s|
  {
    hide Map;
    var each := (c: seq<T>) => Map(f, c);
    MapOne(each, s);
    if |s| > n {
      ChunkMap(f, s[n..], n);
      MapSlices(f, s, n);
      MapOne(each, s[..n]);
      MapAppend(each, [s[..n]], Chunk(s[n..], n));
    }
  }

  lemma MapOne<T, U>(f: T -> U, x: T)
    ensures Map(f, [x]) == [f(x)]
  {
  }

  function Sum(s: seq<nat>): nat {
    if s == [] then 0 else s[0] + Sum(s[1..])
  }

  lemma {:induction false} SumAppend(a: seq<nat>, b: seq<nat>)
    ensures Sum(a + b) == Sum(a) + Sum(b)
  {
    if a == [] {
      assert a + b == b;
    } else {
      assert (a + b)[1..] == a[1..] + b;
      SumAppend(a[1..], b);
    }
  }
}
