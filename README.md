# Airport route graph: the adjacency-list builder

This project models, in Dafny, how the airport search system builds its route
graph. The program reads the OpenFlights route table. For every row it takes
the source airport code (column 2) and the destination airport code
(column 4). Then it updates the dictionary `grafo`, which maps each airport
code to a list of destination codes:

- both codes become keys, and a code not yet present starts with an empty list;
- the destination is appended to the source airport's list.

The model is one module, `AirportGraph`, in `graph.dfy`:

- `Route` is an already-parsed row, reduced to its pair (origin, destination).
- `Graph` is `map<string, seq<string>>`.
- `AddRoute` is one iteration of the loop.
- `BuildFrom` and `Build` fold `AddRoute` over the rows in order.
- `Endpoints` and `DestinationsOf` describe the finished dictionary
  independently of the fold. `Endpoints` is the set of all codes in the rows.
  `DestinationsOf` is the in-order list of destinations for one origin.
- `BuildGraph` is the loop itself. It starts from an empty map and performs
  the program's three steps for each row, rebinding the map value after each
  step. It is proved to return `Build(rows)`, and so to match the declarative
  description.

Duplicate routes: the code appends with no membership check. A pair that
occurs twice therefore yields two copies of the destination in the list.
Nothing removes duplicates or overwrites an earlier entry: both copies stay
in the list (`DuplicateRoutesAccumulate`).

## Model

| member | source | states |
|---|---|---|
| AirportGraph.AddRoute | arquivo.py:31-36 | one row adds exactly its origin and destination as keys; the origin's list becomes its previous list (empty if new) followed by the destination, so the old list is a prefix of the new one; every other key's list is unchanged, and a newly added destination maps to the empty list |
| AirportGraph.BuildGraph | arquivo.py:25-36 | the loop, starting from an empty `grafo` and rebinding the map value after each of the three steps per row, returns exactly `Build(rows)`; its keys are the codes occurring in the rows; each key's list is the in-order destinations of the rows with that origin; the total length of all lists is the number of rows |
| AirportGraph.BuildConcat | arquivo.py:27-36 | building from `first + second` equals building from `first` and then continuing with `second` |
| AirportGraph.BuildFromContents | arquivo.py:27-36 | continuing a build from any dictionary adds exactly the rows' endpoints as keys; each list becomes its earlier contents followed by the new rows' destinations for that origin; every earlier list is a prefix of its final list |
| AirportGraph.BuildClosedForm | arquivo.py:25-36 | after all rows, the key set is exactly the set of origins and destinations (no other key is added); every row's origin and destination is a key; each key maps to the destinations of the rows with that origin, in row order |
| AirportGraph.DuplicateRoutesAccumulate | arquivo.py:36 | a pair (o, d) occurring k times among the rows puts exactly k copies of d in the list of o |
| AirportGraph.DestinationOnlyCodes | arquivo.py:31-36 | a code maps to the empty list exactly when it is the destination of some row and the origin of none |
| AirportGraph.TotalLength | arquivo.py:36 | the lengths of all lists add up to the number of rows processed |
| AirportGraph.AddRouteLength | arquivo.py:31-36 | one row increases the total length of all lists by exactly one |
| AirportGraph.EnsureKeyLength | arquivo.py:31-34 | inserting a missing key with an empty list leaves the total length of the lists unchanged |
| AirportGraph.DestinationsOfCount | arquivo.py:36 | the number of copies of d in the destinations of o equals the number of rows equal to (o, d) |
| AirportGraph.DestinationsOfEmpty | arquivo.py:31-36 | the destinations of x are empty exactly when no row has origin x |

## Left out

- Reading `routes.csv` with pandas (arquivo.py:17-24) is file I/O and library behaviour, so it is left out. This covers the column names, the `na_values` option, and the second `read_csv` call, which replaces the first result and takes the first data row as a header. The model takes the rows as an already-parsed sequence of (column 2, column 4) pairs.
- Missing values (pandas NaN) becoming dictionary keys are left out. They are floats with their own equality rules, and the model assumes every code is a well-formed string.
- The positional access `linhas[2]` / `linhas[4]` on a labelled row is not modelled. The input pairs stand for its result.
- The `networkx` and `pydesk` imports (arquivo.py:2-3) are left out since they are never used.
- BuildGraph: the program mutates the dictionary (arquivo.py:32, 34) and calls `.append` on the stored list object (arquivo.py:36). The model replaces these in-place updates by value updates of a `map` and a `seq`. Nothing is lost, because every new key receives its own fresh empty list, so no list object is ever shared between two keys and an append can never show up under another key.
- The key insertion order of the Python dictionary is not captured, because a Dafny `map` is unordered. The order within each list is captured.
- Great-circle distance, edge weights, coordinate-based filtering of routes, and the BFS, DFS and Dijkstra path searches are not modelled. The source file has no code for any of them, so there is nothing to model them against.
