/**
  The adjacency list of the airport route network.

  The program walks the route table row by row. For every row it reads the
  source airport and the destination airport, makes sure both codes are keys
  of the dictionary `grafo` (a new key starts with an empty list), and then
  appends the destination to the list of the source airport.

  The model has three layers:
  - `AddRoute` and the fold `BuildFrom` / `Build`: what the loop computes,
    row after row;
  - `Endpoints` and `DestinationsOf`: an independent, declarative description
    of the finished dictionary;
  - `BuildGraph`: the loop itself, rebinding a map value after each of the
    program's three steps, proved to produce `Build(rows)` and hence the
    declarative description.
 */
module AirportGraph {

  /** An airport code as it appears in the route table. */
  type Code = string

  /** A route row reduced to the two columns the builder reads: the source
      airport (column 2) and the destination airport (column 4). */
  type Route = (Code, Code)

  /** The adjacency list: every code maps to the destinations of its routes. */
  type Graph = map<Code, seq<Code>>

  /** The list stored under `k`, or the empty list when `k` is not a key. */
  function Lookup(g: Graph, k: Code): seq<Code>
  {
    if k in g then g[k] else []
  }

  /** Makes `k` a key, with an empty list, unless it already is one. */
  function EnsureKey(g: Graph, k: Code): Graph
  {
    if k in g then g else g[k := []]
  }

  /** One iteration of the loop, on the row `route` = (origin, destination).
      It only ever adds the two endpoints as keys, extends the origin's list
      by the destination at its end, and leaves every other list alone. The
      third clause names the consequence that matters to callers: the
      origin's old list is a prefix of its new one (the update is append-only). */
  function AddRoute(g: Graph, route: Route): (r: Graph)
    ensures r.Keys == g.Keys + {route.0, route.1}
    ensures r[route.0] == Lookup(g, route.0) + [route.1]
    ensures Lookup(g, route.0) <= r[route.0]
    ensures forall k :: k in r && k != route.0 ==> r[k] == Lookup(g, k)
  {
    var (origin, destination) := route;
    var g' := EnsureKey(EnsureKey(g, origin), destination);
    g'[origin := g'[origin] + [destination]]
  }

  /** Continues the build from the dictionary `g` with the rows `rows`, in order. */
  function BuildFrom(g: Graph, rows: seq<Route>): Graph
    decreases |rows|
  {
    if rows == [] then g
    else AddRoute(BuildFrom(g, rows[..|rows| - 1]), rows[|rows| - 1])
  }

  /** The dictionary built from an empty `grafo`. */
  function Build(rows: seq<Route>): Graph
  {
    BuildFrom(map[], rows)
  }

  /** Every code that occurs in some row, as origin or as destination. */
  function Endpoints(rows: seq<Route>): set<Code>
  {
    (set r | r in rows :: r.0) + (set r | r in rows :: r.1)
  }

  /** The destinations of the rows whose origin is `x`, in row order. */
  function DestinationsOf(rows: seq<Route>, x: Code): seq<Code>
  {
    if rows == [] then []
    else (if rows[0].0 == x then [rows[0].1] else []) + DestinationsOf(rows[1..], x)
  }

  /** The sum of the lengths of all lists of `g`. */
  ghost function SumLengths(g: Graph): nat
    decreases |g|
  {
    if g == map[] then 0
    else
      var k :| k in g;
      assert |g - {k}| < |g| by { assert (g - {k}).Keys == g.Keys - {k}; }
      |g[k]| + SumLengths(g - {k})
  }

  // ---------------------------------------------------------------------------
  // The loop of the program
  // ---------------------------------------------------------------------------

  /** The construction loop: starts from an empty dictionary and, for each row
      in order, inserts both endpoints when missing and appends the
      destination to the origin's list. */
  method BuildGraph(rows: seq<Route>) returns (grafo: Graph)
    ensures grafo == Build(rows)
    ensures grafo.Keys == Endpoints(rows)
    ensures forall x :: x in grafo ==> grafo[x] == DestinationsOf(rows, x)
    ensures SumLengths(grafo) == |rows|
  {
    grafo := map[];
    var i := 0;
    while i < |rows|
      invariant 0 <= i <= |rows|
      invariant grafo == Build(rows[..i])
    {
      var (origem, destino) := rows[i];
      if origem !in grafo {
        grafo := grafo[origem := []];
      }
      if destino !in grafo {
        grafo := grafo[destino := []];
      }
      grafo := grafo[origem := grafo[origem] + [destino]];
      assert rows[..i + 1][..i] == rows[..i];
      i := i + 1;
    }
    assert rows[..i] == rows;
    BuildClosedForm(rows);
    TotalLength(rows);
  }

  // ---------------------------------------------------------------------------
  // Properties of the build
  // ---------------------------------------------------------------------------

  /** Splitting the rows anywhere: building from `first + second` is the same
      as building from `first` and then continuing with `second`. */
  lemma {:induction false} BuildConcat(g: Graph, first: seq<Route>, second: seq<Route>)
    ensures BuildFrom(g, first + second) == BuildFrom(BuildFrom(g, first), second)
    decreases |second|
  {
    if second == [] {
      assert first + second == first;
    } else {
      var n := |second|;
      assert (first + second)[..|first + second| - 1] == first + second[..n - 1];
      assert (first + second)[|first + second| - 1] == second[n - 1];
      BuildConcat(g, first, second[..n - 1]);
    }
  }

  /** The destinations of a concatenation are the concatenation of the destinations. */
  lemma {:induction false} DestinationsOfConcat(a: seq<Route>, b: seq<Route>, x: Code)
    ensures DestinationsOf(a + b, x) == DestinationsOf(a, x) + DestinationsOf(b, x)
  {
    if a == [] {
      assert a + b == b;
    } else {
      assert (a + b)[0] == a[0];
      assert (a + b)[1..] == a[1..] + b;
      DestinationsOfConcat(a[1..], b, x);
    }
  }

  /** What continuing a build does to an arbitrary dictionary: the keys gained
      are exactly the endpoints of the rows, and every list is its old
      contents followed by the destinations of the new rows with that origin. */
  lemma {:induction false} BuildFromContents(g: Graph, rows: seq<Route>)
    ensures BuildFrom(g, rows).Keys == g.Keys + Endpoints(rows)
    ensures forall k :: k in BuildFrom(g, rows) ==>
      BuildFrom(g, rows)[k] == Lookup(g, k) + DestinationsOf(rows, k)
    ensures forall k :: k in g ==> g[k] <= BuildFrom(g, rows)[k]
    decreases |rows|
  {
    if rows == [] {
      assert Endpoints(rows) == {};
    } else {
      var n := |rows|;
      var init, last := rows[..n - 1], rows[n - 1];
      assert rows == init + [last];
      BuildFromContents(g, init);
      EndpointsSnoc(init, last);
      var before := BuildFrom(g, init);
      assert BuildFrom(g, rows) == AddRoute(before, last);
      forall k | k in BuildFrom(g, rows)
        ensures BuildFrom(g, rows)[k] == Lookup(g, k) + DestinationsOf(rows, k)
      {
        AddRouteContents(g, before, init, last, k);
      }
    }
  }

  /** The endpoints of one more row. */
  lemma EndpointsSnoc(rows: seq<Route>, last: Route)
    ensures Endpoints(rows + [last]) == Endpoints(rows) + {last.0, last.1}
  {
  }

  /** The list of one key after one more row, given the lists before it. */
  lemma AddRouteContents(g: Graph, before: Graph, init: seq<Route>, last: Route, k: Code)
    requires before.Keys == g.Keys + Endpoints(init)
    requires k in before ==> before[k] == Lookup(g, k) + DestinationsOf(init, k)
    requires k in AddRoute(before, last)
    ensures AddRoute(before, last)[k] == Lookup(g, k) + DestinationsOf(init + [last], k)
  {
    DestinationsOfConcat(init, [last], k);
    assert DestinationsOf([last], k) == if last.0 == k then [last.1] else [];
    if k !in before {
      forall r | r in init ensures r.0 != k {
        assert r.0 in Endpoints(init);
      }
      DestinationsOfNone(init, k);
    }
    assert Lookup(before, k) == Lookup(g, k) + DestinationsOf(init, k);
  }

  /** A code that is no row's origin has no destinations. */
  lemma {:induction false} DestinationsOfNone(rows: seq<Route>, x: Code)
    requires forall r :: r in rows ==> r.0 != x
    ensures DestinationsOf(rows, x) == []
  {
    if rows != [] {
      assert rows[0] in rows;
      DestinationsOfNone(rows[1..], x);
    }
  }

  /** The list of `x` is empty exactly when no row has origin `x`. */
  lemma {:induction false} DestinationsOfEmpty(rows: seq<Route>, x: Code)
    ensures DestinationsOf(rows, x) == [] <==> forall r :: r in rows ==> r.0 != x
  {
    if rows != [] {
      DestinationsOfEmpty(rows[1..], x);
      assert forall r :: r in rows <==> r == rows[0] || r in rows[1..];
    }
  }

  /** The finished dictionary: its keys are exactly the codes found in the
      rows (every origin and every destination, and nothing else), and the
      list of each key is the destinations of the rows with that origin, in
      row order. */
  lemma BuildClosedForm(rows: seq<Route>)
    ensures Build(rows).Keys == Endpoints(rows)
    ensures forall i :: 0 <= i < |rows| ==> rows[i].0 in Build(rows) && rows[i].1 in Build(rows)
    ensures forall x :: x in Build(rows) ==> Build(rows)[x] == DestinationsOf(rows, x)
  {
    BuildFromContents(map[], rows);
    forall i | 0 <= i < |rows|
      ensures rows[i].0 in Endpoints(rows) && rows[i].1 in Endpoints(rows)
    {
      assert rows[i] in rows;
    }
  }

  /** The multiplicity of `d` in the multiset of destinations of `o` is the
      number of rows equal to (o, d). */
  lemma {:induction false} DestinationsOfCount(rows: seq<Route>, o: Code, d: Code)
    ensures multiset(DestinationsOf(rows, o))[d] == multiset(rows)[(o, d)]
  {
    if rows != [] {
      DestinationsOfCount(rows[1..], o, d);
      assert rows == [rows[0]] + rows[1..];
      assert multiset(rows) == multiset{rows[0]} + multiset(rows[1..]);
    }
  }

  /** Duplicate routes accumulate: a row (o, d) that occurs k times puts k
      copies of d in the list of o, since the append never checks for
      membership. */
  lemma DuplicateRoutesAccumulate(rows: seq<Route>, o: Code, d: Code)
    ensures multiset(Lookup(Build(rows), o))[d] == multiset(rows)[(o, d)]
  {
    BuildClosedForm(rows);
    DestinationsOfCount(rows, o, d);
    if o !in Build(rows) {
      assert (o, d) !in rows;
    }
  }

  /** A key has an empty list exactly when it is some row's destination and
      no row's origin. */
  lemma DestinationOnlyCodes(rows: seq<Route>, x: Code)
    ensures (x in Build(rows) && Build(rows)[x] == [])
        <==> ((exists r :: r in rows && r.1 == x) && forall r :: r in rows ==> r.0 != x)
  {
    BuildClosedForm(rows);
    DestinationsOfEmpty(rows, x);
  }

  /** `SumLengths` does not depend on which key it takes first. */
  lemma {:induction false} SumLengthsRemove(g: Graph, k: Code)
    requires k in g
    ensures SumLengths(g) == |g[k]| + SumLengths(g - {k})
    decreases |g|
  {
    var k' :| k' in g && SumLengths(g) == |g[k']| + SumLengths(g - {k'});
    if k' != k {
      assert (g - {k'}).Keys == g.Keys - {k'};
      assert (g - {k}).Keys == g.Keys - {k};
      SumLengthsRemove(g - {k'}, k);
      SumLengthsRemove(g - {k}, k');
      assert g - {k'} - {k} == g - {k} - {k'};
    }
  }

  /** One row adds exactly one element to the lists in total. */
  lemma AddRouteLength(g: Graph, route: Route)
    ensures SumLengths(AddRoute(g, route)) == SumLengths(g) + 1
  {
    var (o, d) := route;
    var g1 := EnsureKey(g, o);
    var g2 := EnsureKey(g1, d);
    EnsureKeyLength(g, o);
    EnsureKeyLength(g1, d);
    var r := g2[o := g2[o] + [d]];
    SumLengthsRemove(r, o);
    SumLengthsRemove(g2, o);
    assert r - {o} == g2 - {o};
  }

  /** Inserting an empty list does not change the total length. */
  lemma EnsureKeyLength(g: Graph, k: Code)
    ensures SumLengths(EnsureKey(g, k)) == SumLengths(g)
  {
    if k !in g {
      SumLengthsRemove(g[k := []], k);
      assert g[k := []] - {k} == g;
    }
  }

  /** Each iteration does exactly one append, so the lists hold as many
      elements in total as there are rows. */
  lemma {:induction false} TotalLength(rows: seq<Route>)
    ensures SumLengths(Build(rows)) == |rows|
    decreases |rows|
  {
    if rows != [] {
      var n := |rows|;
      TotalLength(rows[..n - 1]);
      AddRouteLength(Build(rows[..n - 1]), rows[n - 1]);
    }
  }
}
