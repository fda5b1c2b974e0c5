/** The runtime intermediate representation: units, edges and isolation regions. */
module Plans {
  import opened Ids

  datatype UnitKind = Agent | Capability | Task | Gate | Checkpoint | Unlisted(name: Id)

  /** The activation rules the kernel evaluates; every other text is kept but never holds. */
  datatype Condition = AllSuccess | AnySuccess | Other(text: Id)

  datatype Activation = Activation(condition: Condition, required: seq<Id>, optional: seq<Id>)
  {
    function Candidates(): seq<Id> { required + optional }
  }

  datatype Branch = Branch(condition: Id, target: Id)

  datatype GateConfig = NoGate | GateConfig(branches: seq<Branch>, fallback: Id)

  /** `contracts` are the contract names of the unit's data-flow inputs. */
  datatype Unit = Unit(
    id: Id,
    kind: UnitKind,
    dependencies: seq<Id>,
    contracts: seq<Id>,
    activation: Activation,
    gate: GateConfig)

  /** The verifier treats dependency edges apart from all other kinds. */
  datatype EdgeKind = Dependency | OtherKind(name: Id)

  datatype Edge = Edge(from: Id, to: Id, kind: EdgeKind)

  /** `regions` are the unit lists of the isolation boundaries. */
  datatype Rir = Rir(
    schemaVersion: Id,
    executionMode: Id,
    maxParallelism: int,
    specHash: Id,
    units: seq<Unit>,
    edges: seq<Edge>,
    regions: seq<seq<Id>>)

  ghost predicate UniqueIds(units: seq<Unit>) {
    forall i, j :: 0 <= i < j < |units| ==> units[i].id != units[j].id
  }

  function UnitIds(units: seq<Unit>): (ids: set<Id>) {
    set u | u in units :: u.id
  }
}
