/** The offsets around a player in the order in which chunks are served: nearest first
    (`LOAD_LAZY_SORTED_COORDS`, cuberef_server/src/network_server/client_context.rs). */
module ChunkTable {
  import opened Wrappers

  datatype Offset = Offset(x: int, y: int, z: int)

  function Distance(o: Offset): nat { Abs(o.x) + Abs(o.y) + Abs(o.z) }

  predicate InCube(o: Offset, radius: nat) {
    Abs(o.x) <= radius && Abs(o.y) <= radius && Abs(o.z) <= radius
  }

  function Both(i: int): seq<int> { [i, -i] }

  function ZigZag(radius: nat): seq<int> {
    if radius == 0 then [0] else ZigZag(radius - 1) + Both(radius)
  }

  /** All triples over `xs`, `ys` and `zs`, the last axis varying fastest. */
  function Triples(xs: seq<int>, ys: seq<int>, zs: seq<int>): seq<Offset> {
    if xs == [] then [] else Plane(xs[0], ys, zs) + Triples(xs[1..], ys, zs)
  }

  function Plane(x: int, ys: seq<int>, zs: seq<int>): seq<Offset> {
    if ys == [] then [] else Line(x, ys[0], zs) + Plane(x, ys[1..], zs)
  }

  function Line(x: int, y: int, zs: seq<int>): seq<Offset> {
    if zs == [] then [] else [Offset(x, y, zs[0])] + Line(x, y, zs[1..])
  }

  /** Insertion behind everything that is no farther: the sort is stable. */
  function InsertByDistance(o: Offset, sorted: seq<Offset>): seq<Offset> {
    if sorted == [] || Distance(o) < Distance(sorted[0]) then [o] + sorted
    else [sorted[0]] + InsertByDistance(o, sorted[1..])
  }

  function SortedBelow(s: seq<Offset>, n: nat): seq<Offset>
    requires n <= |s|
  {
    if n == 0 then [] else InsertByDistance(s[n - 1], SortedBelow(s, n - 1))
  }

  function Table(radius: nat): seq<Offset> {
    var v := ZigZag(radius);
    var all := Triples(v, v, v);
    SortedBelow(all, |all|)
  }

  predicate NearestFirst(s: seq<Offset>) { forall i, j :: 0 <= i < j < |s| ==> Distance(s[i]) <= Distance(s[j]) }

  // Each loop of the product takes one element off the front of what is left to do.

  method BuildLine(x: int, y: int, zs: seq<int>) returns (line: seq<Offset>)
    ensures line == Line(x, y, zs)
  {
    line := [];
    for k := 0 to |zs|
      invariant Line(x, y, zs) == line + Line(x, y, zs[k..])
    {
      assert zs[k..][0] == zs[k] && zs[k..][1..] == zs[k + 1..];
      line := line + [Offset(x, y, zs[k])];
    }
  }

  method BuildTriples(xs: seq<int>, ys: seq<int>, zs: seq<int>) returns (all: seq<Offset>)
    ensures all == Triples(xs, ys, zs)
  {
    all := [];
    for i := 0 to |xs|
      invariant Triples(xs, ys, zs) == all + Triples(xs[i..], ys, zs)
    {
      assert xs[i..][0] == xs[i] && xs[i..][1..] == xs[i + 1..];
      var plane := [];
      for j := 0 to |ys|
        invariant Plane(xs[i], ys, zs) == plane + Plane(xs[i], ys[j..], zs)
      {
        assert ys[j..][0] == ys[j] && ys[j..][1..] == ys[j + 1..];
        var line := BuildLine(xs[i], ys[j], zs);
        plane := plane + line;
      }
      all := all + plane;
    }
  }

  method BuildTable(radius: nat) returns (table: seq<Offset>)
    ensures table == Table(radius)
  {
    hide Triples, SortedBelow;
    var v := [0];
    for i := 1 to radius + 1
      invariant v == ZigZag(i - 1)
    {
      v := v + [i];
      v := v + [-i];
    }
    var all := BuildTriples(v, v, v);
    table := SortedBelow(all, |all|);
  }

  // ----- every point once ------------------------------------------------------------------------------------------

  function Occurrences<T(==)>(s: seq<T>, x: T): nat {
    if s == [] then 0 else (if s[0] == x then 1 else 0) + Occurrences(s[1..], x)
  }

  lemma {:induction false} CountAppend<T>(a: seq<T>, b: seq<T>, x: T)
    ensures Occurrences(a + b, x) == Occurrences(a, x) + Occurrences(b, x)
  {
    if a == [] {
      assert a + b == b;
    } else {
      assert (a + b)[1..] == a[1..] + b;
      CountAppend(a[1..], b, x);
    }
  }

  lemma {:induction false} ZigZagOnce(radius: nat, x: int)
    ensures Occurrences(ZigZag(radius), x) == if Abs(x) <= radius then 1 else 0
  {
    if radius == 0 {
      assert ZigZag(0)[1..] == [];
    } else {
      ZigZagOnce(radius - 1, x);
      CountAppend(ZigZag(radius - 1), Both(radius), x);
      var last := Both(radius)[1..];
      assert last[1..] == [] && last[0] + radius == 0;
      assert Occurrences(last, x) == if x + radius == 0 then 1 else 0;
    }
  }

  lemma {:induction false} LineCount(x: int, y: int, zs: seq<int>, o: Offset)
    ensures Occurrences(Line(x, y, zs), o) == if o.x == x && o.y == y then Occurrences(zs, o.z) else 0
  {
    if zs != [] { LineCount(x, y, zs[1..], o); }
  }

  lemma {:induction false} PlaneCount(x: int, ys: seq<int>, zs: seq<int>, o: Offset)
    ensures Occurrences(Plane(x, ys, zs), o) == if o.x == x then Occurrences(ys, o.y) * Occurrences(zs, o.z) else 0
  {
    if ys != [] {
      CountAppend(Line(x, ys[0], zs), Plane(x, ys[1..], zs), o);
      PlaneCount(x, ys[1..], zs, o);
      LineCount(x, ys[0], zs, o);
    }
  }

  lemma Distribute(a: nat, b: nat, m: nat)
    ensures (a + b) * m == a * m + b * m
  {
  }

  lemma {:induction false} TriplesCount(xs: seq<int>, ys: seq<int>, zs: seq<int>, o: Offset)
    ensures Occurrences(Triples(xs, ys, zs), o) == Occurrences(xs, o.x) * (Occurrences(ys, o.y) * Occurrences(zs, o.z))
  {
    if xs != [] {
      CountAppend(Plane(xs[0], ys, zs), Triples(xs[1..], ys, zs), o);
      TriplesCount(xs[1..], ys, zs, o);
      PlaneCount(xs[0], ys, zs, o);
      hide Plane;
      Distribute(if xs[0] == o.x then 1 else 0, Occurrences(xs[1..], o.x), Occurrences(ys, o.y) * Occurrences(zs, o.z));
    }
  }

  lemma {:induction false} InsertKeeps(o: Offset, sorted: seq<Offset>, p: Offset)
    ensures Occurrences(InsertByDistance(o, sorted), p) == Occurrences(sorted, p) + if o == p then 1 else 0
  {
    if sorted != [] && Distance(sorted[0]) <= Distance(o) {
      InsertKeeps(o, sorted[1..], p);
    }
  }

  lemma {:induction false} InsertSorts(o: Offset, sorted: seq<Offset>)
    requires NearestFirst(sorted)
    ensures NearestFirst(InsertByDistance(o, sorted))
    ensures forall i :: 0 <= i < |InsertByDistance(o, sorted)| ==>
              InsertByDistance(o, sorted)[i] == o || InsertByDistance(o, sorted)[i] in sorted
  {
    if sorted != [] && Distance(sorted[0]) <= Distance(o) {
      InsertSorts(o, sorted[1..]);
    }
  }

  lemma {:induction false} SortSorts(s: seq<Offset>, n: nat)
    requires n <= |s|
    ensures NearestFirst(SortedBelow(s, n))
  {
    if n > 0 {
      SortSorts(s, n - 1);
      InsertSorts(s[n - 1], SortedBelow(s, n - 1));
    }
  }

  lemma {:induction false} SortKeeps(s: seq<Offset>, n: nat, p: Offset)
    requires n <= |s|
    ensures Occurrences(SortedBelow(s, n), p) == Occurrences(s[..n], p)
  {
    hide InsertByDistance;
    if n > 0 {
      SortKeeps(s, n - 1, p);
      InsertKeeps(s[n - 1], SortedBelow(s, n - 1), p);
      assert s[..n] == s[..n - 1] + [s[n - 1]];
      CountAppend(s[..n - 1], [s[n - 1]], p);
      assert [s[n - 1]][1..] == [];
    }
  }

  /** The table lists every point of the cube exactly once, nearest first. */
  lemma TableIsExact(radius: nat, o: Offset)
    ensures NearestFirst(Table(radius))
    ensures Occurrences(Table(radius), o) == if InCube(o, radius) then 1 else 0
  {
    hide ZigZag, Triples, Occurrences, SortedBelow;
    var v := ZigZag(radius);
    var all := Triples(v, v, v);
    SortSorts(all, |all|);
    SortKeeps(all, |all|, o);
    assert all[..|all|] == all;
    TriplesCount(v, v, v, o);
    ZigZagOnce(radius, o.x);
    ZigZagOnce(radius, o.y);
    ZigZagOnce(radius, o.z);
  }

  lemma {:induction false} CountedOnce<T>(s: seq<T>, i: nat, j: nat)
    requires i < j < |s| && s[i] == s[j]
    ensures Occurrences(s, s[i]) > 1
  {
    if i == 0 {
      CountedIn(s[1..], j - 1);
    } else {
      CountedOnce(s[1..], i - 1, j - 1);
    }
  }

  lemma {:induction false} CountedIn<T>(s: seq<T>, i: nat)
    requires i < |s|
    ensures Occurrences(s, s[i]) > 0
  {
    if i > 0 { CountedIn(s[1..], i - 1); }
  }

  lemma {:induction false} InCounted<T>(s: seq<T>, x: T)
    requires Occurrences(s, x) > 0
    ensures x in s
  {
    if s[0] != x { InCounted(s[1..], x); }
  }

  /** The same without counting: the entries are the points of the cube, and no two are equal. */
  lemma TableEntries(radius: nat, o: Offset, i: nat, j: nat)
    requires i < j < |Table(radius)|
    ensures o in Table(radius) <==> InCube(o, radius)
    ensures Table(radius)[i] != Table(radius)[j]
  {
    hide Table, Occurrences;
    var table := Table(radius);
    TableIsExact(radius, o);
    if o in table {
      var k :| 0 <= k < |table| && table[k] == o;
      CountedIn(table, k);
    } else if InCube(o, radius) {
      InCounted(table, o);
    }
    TableIsExact(radius, table[i]);
    if table[i] == table[j] { CountedOnce(table, i, j); }
  }
}
