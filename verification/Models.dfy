/**
 * The part of a model definition (src/core/model.ts) the planner looks at. Names,
 * columns, sources and texts are abstract: an integer stands for a string, and the
 * integer order of names is the order in which strings sort.
 */
module Models {
  import opened Common
  import opened Intervals

  type Name = int
  type Column = int
  type Text = int

  datatype Kind =
    | Full
    | View
    | Embedded
    | TimeRange(timeColumn: Column, start: int, unit: Unit, batchSize: int, lookback: nat)
    | UniqueKey(key: seq<Column>)
    | Scd2(scdKey: seq<Column>, validFrom: Column, validTo: Column)
    | External(source: int)
    | Seed(file: int, contents: int)

  datatype Model = Model(
    name: Name,
    deps: set<Name>,
    kind: Kind,
    text: Text,
    grain: Option<seq<Column>>,
    columns: seq<Column>,
    families: seq<int>,
    target: Option<int>)

  /** Names to direct dependencies. */
  type Deps = map<Name, set<Name>>

  /** No dangling dependency. */
  ghost predicate Closed(g: Deps) {
    forall x | x in g :: g[x] <= g.Keys
  }
}
