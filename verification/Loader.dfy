/** The loader's validation of an RIR. */
module Loader {
  import opened Ids
  import opened Plans

  datatype LoadError =
    | SchemaVersionMismatch
    | UnsupportedMode
    | InvalidMaxParallelism
    | DuplicateUnitId(id: Id)
    | MissingSpecHash
    | CheckpointForbidden(id: Id)
    | UnresolvedDependency(id: Id, dependency: Id)
    | GateMissingBranches(id: Id)
    | GateMissingDefault(id: Id)
    | MultipleEscalateBranches(id: Id)

  datatype Verdict = Valid | Invalid(error: LoadError)

  const SCHEMA_VERSION := FromString("1.0")
  const MODE := FromString("2")
  const ESCALATE := FromString("ESCALATE")

  ghost predicate Resolved(units: seq<Unit>, dep: Id) {
    exists i :: 0 <= i < |units| && units[i].id == dep
  }

  function Escalations(branches: seq<Branch>): nat {
    if branches == [] then 0
    else Escalations(branches[..|branches| - 1]) + if branches[|branches| - 1].target == ESCALATE then 1 else 0
  }

  /** Gates have branches, a default, and at most one escalating branch. */
  predicate GateIsSound(u: Unit) {
    u.kind.Gate? ==>
      && u.gate.GateConfig? && u.gate.branches != []
      && !u.gate.fallback.Empty?
      && Escalations(u.gate.branches) <= 1
  }

  ghost predicate UnitIsSound(units: seq<Unit>, u: Unit) {
    && !u.kind.Checkpoint?
    && (forall dep :: dep in u.dependencies ==> Resolved(units, dep))
    && GateIsSound(u)
  }

  ghost predicate ValidRir(rir: Rir) {
    && rir.schemaVersion == SCHEMA_VERSION
    && rir.executionMode == MODE
    && rir.maxParallelism > 0
    && !rir.specHash.Empty?
    && UniqueIds(rir.units)
    && (forall i :: 0 <= i < |rir.units| ==> UnitIsSound(rir.units, rir.units[i]))
  }

  /** What each error reports. */
  ghost predicate Explains(rir: Rir, e: LoadError) {
    match e
    case SchemaVersionMismatch => rir.schemaVersion != SCHEMA_VERSION
    case UnsupportedMode => rir.executionMode != MODE
    case InvalidMaxParallelism => rir.maxParallelism <= 0
    case DuplicateUnitId(id) => Duplicate(rir.units, id)
    case MissingSpecHash => rir.specHash.Empty?
    case CheckpointForbidden(id) => exists u :: u in rir.units && u.id == id && u.kind.Checkpoint?
    case UnresolvedDependency(id, dep) => exists u :: u in rir.units && u.id == id && Dangles(rir.units, u, dep)
    case _ => exists u :: u in rir.units && GateError(u, e)
  }

  /** The rules in the order in which they are checked. */
  function RuleOf(e: LoadError): nat {
    match e
    case SchemaVersionMismatch => 0
    case UnsupportedMode => 1
    case InvalidMaxParallelism => 2
    case DuplicateUnitId(_) => 3
    case MissingSpecHash => 4
    case CheckpointForbidden(_) => 5
    case UnresolvedDependency(_, _) => 6
    case _ => 7
  }

  ghost predicate Keeps(rir: Rir, rule: nat) {
    match rule
    case 0 => rir.schemaVersion == SCHEMA_VERSION
    case 1 => rir.executionMode == MODE
    case 2 => rir.maxParallelism > 0
    case 3 => UniqueIds(rir.units)
    case 4 => !rir.specHash.Empty?
    case 5 => forall i :: 0 <= i < |rir.units| ==> !rir.units[i].kind.Checkpoint?
    case 6 => forall i, dep :: 0 <= i < |rir.units| && dep in rir.units[i].dependencies ==> Resolved(rir.units, dep)
    case _ => forall i :: 0 <= i < |rir.units| ==> GateIsSound(rir.units[i])
  }

  ghost predicate Duplicate(units: seq<Unit>, id: Id) {
    exists i, j :: 0 <= i < j < |units| && units[i].id == id && units[j].id == id
  }

  ghost predicate Dangles(units: seq<Unit>, u: Unit, dep: Id) {
    dep in u.dependencies && !Resolved(units, dep)
  }

  ghost predicate GateError(u: Unit, e: LoadError) {
    u.kind.Gate? &&
    match e
    case GateMissingBranches(id) => u.id == id && (u.gate.NoGate? || u.gate.branches == [])
    case GateMissingDefault(id) => u.id == id && u.gate.GateConfig? && u.gate.fallback.Empty?
    case MultipleEscalateBranches(id) => u.id == id && u.gate.GateConfig? && Escalations(u.gate.branches) > 1
    case _ => false
  }

  method FindDuplicate(units: seq<Unit>) returns (found: bool, id: Id)
    ensures !found ==> UniqueIds(units)
    ensures found ==> Duplicate(units, id)
  {
    var ids: set<Id> := {};
    for i := 0 to |units|
      invariant forall n :: n in ids <==> exists j :: 0 <= j < i && units[j].id == n
      invariant forall j, k :: 0 <= j < k < i ==> units[j].id != units[k].id
    {
      if units[i].id in ids {
        return true, units[i].id;
      }
      ids := ids + {units[i].id};
    }
    found, id := false, Empty;
  }

  method FindCheckpoint(units: seq<Unit>) returns (found: bool, id: Id)
    ensures !found ==> forall i :: 0 <= i < |units| ==> !units[i].kind.Checkpoint?
    ensures found ==> exists u :: u in units && u.id == id && u.kind.Checkpoint?
  {
    for i := 0 to |units|
      invariant forall j :: 0 <= j < i ==> !units[j].kind.Checkpoint?
    {
      if units[i].kind.Checkpoint? {
        assert units[i] in units;
        return true, units[i].id;
      }
    }
    found, id := false, Empty;
  }

  method FindUnresolved(units: seq<Unit>) returns (found: bool, id: Id, dep: Id)
    ensures !found ==> forall i, d :: 0 <= i < |units| && d in units[i].dependencies ==> Resolved(units, d)
    ensures found ==> exists u :: u in units && u.id == id && Dangles(units, u, dep)
  {
    var ids: set<Id> := {};
    for i := 0 to |units|
      invariant forall n :: n in ids <==> exists j :: 0 <= j < i && units[j].id == n
    {
      ids := ids + {units[i].id};
    }
    for i := 0 to |units|
      invariant forall j, d :: 0 <= j < i && d in units[j].dependencies ==> Resolved(units, d)
    {
      var deps := units[i].dependencies;
      for k := 0 to |deps|
        invariant forall d :: d in deps[..k] ==> Resolved(units, d)
      {
        assert deps[..k + 1] == deps[..k] + [deps[k]];
        if deps[k] !in ids {
          assert units[i] in units && Dangles(units, units[i], deps[k]);
          return true, units[i].id, deps[k];
        }
      }
      assert deps[..|deps|] == deps;
    }
    found, id, dep := false, Empty, Empty;
  }

  method CountEscalations(branches: seq<Branch>) returns (n: nat)
    ensures n == Escalations(branches)
  {
    n := 0;
    for i := 0 to |branches|
      invariant n == Escalations(branches[..i])
    {
      assert branches[..i + 1][..i] == branches[..i];
      if branches[i].target == ESCALATE {
        n := n + 1;
      }
    }
    assert branches[..|branches|] == branches;
  }

  method CheckGates(units: seq<Unit>) returns (v: Verdict)
    ensures v.Valid? <==> forall i :: 0 <= i < |units| ==> GateIsSound(units[i])
    ensures v.Invalid? ==> exists u :: u in units && GateError(u, v.error)
  {
    for i := 0 to |units|
      invariant forall j :: 0 <= j < i ==> GateIsSound(units[j])
    {
      var u := units[i];
      assert u in units;
      if u.kind.Gate? {
        if u.gate.NoGate? || |u.gate.branches| == 0 {
          assert GateError(u, GateMissingBranches(u.id));
          return Invalid(GateMissingBranches(u.id));
        }
        if u.gate.fallback.Empty? {
          assert GateError(u, GateMissingDefault(u.id));
          return Invalid(GateMissingDefault(u.id));
        }
        var n := CountEscalations(u.gate.branches);
        if n > 1 {
          assert GateError(u, MultipleEscalateBranches(u.id));
          return Invalid(MultipleEscalateBranches(u.id));
        }
      }
    }
    v := Valid;
  }

  /** Accepts exactly the valid RIRs; a rejection is explained by the first rule that is broken. */
  method Validate(rir: Rir) returns (v: Verdict)
    ensures v.Valid? <==> ValidRir(rir)
    ensures v.Invalid? ==> Explains(rir, v.error) && !Keeps(rir, RuleOf(v.error))
    ensures v.Invalid? ==> forall rule :: 0 <= rule < RuleOf(v.error) ==> Keeps(rir, rule)
  {
    if rir.schemaVersion != SCHEMA_VERSION {
      return Invalid(SchemaVersionMismatch);
    }
    if rir.executionMode != MODE {
      return Invalid(UnsupportedMode);
    }
    if rir.maxParallelism <= 0 {
      return Invalid(InvalidMaxParallelism);
    }
    var duplicate, id := FindDuplicate(rir.units);
    if duplicate {
      return Invalid(DuplicateUnitId(id));
    }
    if rir.specHash.Empty? {
      return Invalid(MissingSpecHash);
    }
    var checkpoint, at := FindCheckpoint(rir.units);
    if checkpoint {
      return Invalid(CheckpointForbidden(at));
    }
    var unresolved, who, dep := FindUnresolved(rir.units);
    if unresolved {
      return Invalid(UnresolvedDependency(who, dep));
    }
    v := CheckGates(rir.units);
  }

  lemma {:induction false} EscalationsCount(branches: seq<Branch>)
    ensures Escalations(branches) >= 1 <==> exists i :: 0 <= i < |branches| && branches[i].target == ESCALATE
    ensures Escalations(branches) >= 2 <==>
              exists i, j :: 0 <= i < j < |branches| && branches[i].target == ESCALATE && branches[j].target == ESCALATE
  {
    if branches != [] {
      var last := |branches| - 1;
      EscalationsCount(branches[..last]);
      if i :| 0 <= i < last && branches[..last][i].target == ESCALATE {
        assert branches[i].target == ESCALATE;
      }
      if i, j :| 0 <= i < j < last && branches[..last][i].target == ESCALATE && branches[..last][j].target == ESCALATE {
        assert branches[i].target == ESCALATE && branches[j].target == ESCALATE;
      }
      if i :| 0 <= i < last && branches[i].target == ESCALATE {
        assert branches[..last][i].target == ESCALATE;
      }
      if i, j :| 0 <= i < j < last && branches[i].target == ESCALATE && branches[j].target == ESCALATE {
        assert branches[..last][i].target == ESCALATE && branches[..last][j].target == ESCALATE;
      }
    }
  }

  /** Two branches of the gate both escalate. */
  ghost predicate EscalatesTwice(u: Unit) {
    u.gate.GateConfig? &&
    exists i, j :: 0 <= i < j < |u.gate.branches| && u.gate.branches[i].target == FromString("ESCALATE")
                   && u.gate.branches[j].target == FromString("ESCALATE")
  }

  /** What the loader accepts, rule by rule: of a gate it asks for branches and a default and allows one
      branch that escalates. */
  lemma ValidIff(rir: Rir)
    ensures ValidRir(rir) <==>
              && rir.schemaVersion == FromString("1.0") && rir.executionMode == FromString("2")
              && rir.maxParallelism > 0 && rir.specHash != Empty
              && (forall i, j :: 0 <= i < j < |rir.units| ==> rir.units[i].id != rir.units[j].id)
              && (forall u :: u in rir.units ==>
                    && u.kind != Checkpoint
                    && (forall dep :: dep in u.dependencies ==> exists v :: v in rir.units && v.id == dep)
                    && (u.kind == Gate ==>
                          && u.gate.GateConfig? && u.gate.branches != [] && u.gate.fallback != Empty
                          && !EscalatesTwice(u)))
  {
    forall u: Unit
      ensures GateIsSound(u) <==>
                (u.kind == Gate ==>
                   && u.gate.GateConfig? && u.gate.branches != [] && u.gate.fallback != Empty && !EscalatesTwice(u))
    {
      if u.gate.GateConfig? {
        EscalationsCount(u.gate.branches);
      }
    }
    forall dep
      ensures Resolved(rir.units, dep) <==> exists v :: v in rir.units && v.id == dep
    {
      if v :| v in rir.units && v.id == dep {
        var i :| 0 <= i < |rir.units| && rir.units[i] == v;
        assert rir.units[i].id == dep;
      }
    }
    assert (forall i :: 0 <= i < |rir.units| ==> UnitIsSound(rir.units, rir.units[i]))
           <==> forall u :: u in rir.units ==> UnitIsSound(rir.units, u);
  }
}
