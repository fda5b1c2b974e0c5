/** The compiler from a scanned file tree to an RIR. */
module Compiler {
  import opened Ids
  import opened Plans
  import Loader

  /** A scanned file; `imports` are the import strings found in it. */
  datatype FileNode = FileNode(path: Id, isDir: bool, imports: seq<Id>)

  const IMPORT_PREFIX := FromString("import:")
  const RULE := FromString("true")
  const IMPORT_EDGE := FromString("import")
  const HASH_PREFIX := FromString("mek-rir-")

  function DepId(imp: Id): Id {
    Concat(IMPORT_PREFIX, imp)
  }

  predicate Contains(s: Id, part: Id) {
    HasPrefix(s, part) || (s.Char? && Contains(s.tail, part))
  }

  ghost predicate Occurs(s: Id, part: Id) {
    exists front, back :: s == Concat(front, Concat(part, back))
  }

  lemma OccursInFront(s: Id, part: Id)
    requires HasPrefix(s, part)
    ensures Occurs(s, part)
  {
    var back := RestOf(s, part);
    assert s == Concat(Empty, Concat(part, back));
  }

  lemma OccursLater(s: Id, part: Id)
    requires s.Char? && Occurs(s.tail, part)
    ensures Occurs(s, part)
  {
    var front, back :| s.tail == Concat(front, Concat(part, back));
    assert s == Concat(Char(s.head, front), Concat(part, back));
  }

  lemma OccursSomewhere(s: Id, part: Id)
    requires Occurs(s, part)
    ensures HasPrefix(s, part) || (s.Char? && Occurs(s.tail, part))
  {
    var front, back :| s == Concat(front, Concat(part, back));
    if front.Char? {
      assert s.tail == Concat(front.tail, Concat(part, back));
    } else {
      ConcatHasPrefix(part, back);
    }
  }

  /** A string contains another if that occurs anywhere in it. */
  lemma {:induction false} ContainsIff(s: Id, part: Id)
    ensures Contains(s, part) <==> Occurs(s, part)
  {
    if HasPrefix(s, part) {
      OccursInFront(s, part);
    }
    if s.Char? {
      ContainsIff(s.tail, part);
      if Occurs(s.tail, part) {
        OccursLater(s, part);
      }
    }
    if Occurs(s, part) {
      OccursSomewhere(s, part);
    }
  }

  /** Imports of the project contain one of these markers. */
  function Markers(projectPath: Id): seq<Id> {
    [FromString("easyfit_app"), FromString("easyfit_shared"), FromString("easyfit_ui"), projectPath]
  }

  predicate IsProjectImport(imp: Id, markers: seq<Id>) {
    exists i :: 0 <= i < |markers| && Contains(imp, markers[i])
  }

  lemma SomeMarkerOccurs(imp: Id, a: Id, b: Id, c: Id, d: Id)
    ensures IsProjectImport(imp, [a, b, c, d]) <==> Occurs(imp, a) || Occurs(imp, b) || Occurs(imp, c) || Occurs(imp, d)
  {
    var markers := [a, b, c, d];
    forall i | 0 <= i < |markers|
      ensures Contains(imp, markers[i]) <==> Occurs(imp, markers[i])
    {
      ContainsIff(imp, markers[i]);
    }
    assert markers[0] == a && markers[1] == b && markers[2] == c && markers[3] == d;
  }

  /** An import belongs to the project exactly if one of the three package names or the path of the
      project occurs somewhere in it. */
  lemma ProjectImportIff(imp: Id, projectPath: Id)
    ensures IsProjectImport(imp, Markers(projectPath)) <==>
              || Occurs(imp, FromString("easyfit_app")) || Occurs(imp, FromString("easyfit_shared"))
              || Occurs(imp, FromString("easyfit_ui")) || Occurs(imp, projectPath)
  {
    SomeMarkerOccurs(imp, FromString("easyfit_app"), FromString("easyfit_shared"), FromString("easyfit_ui"),
                     projectPath);
  }

  /** Every compiled unit is a task with an activation rule the kernel does not know. */
  function TaskUnit(id: Id, dependencies: seq<Id>): Unit {
    Unit(id, Task, dependencies, [], Activation(Other(RULE), [], []), NoGate)
  }

  function ImportEdge(from: Id, to: Id): Edge {
    Edge(from, to, OtherKind(IMPORT_EDGE))
  }

  // ----- What the compiler keeps of a file list -----

  /** The dependency units that a file's imports ask for. */
  function DepIds(imports: seq<Id>, markers: seq<Id>): set<Id> {
    set imp | imp in imports && IsProjectImport(imp, markers) :: DepId(imp)
  }

  /** The unit ids after compiling `files`. */
  function Seen(files: seq<FileNode>, markers: seq<Id>): set<Id> {
    if files == [] then {}
    else
      var before, f := Seen(files[..|files| - 1], markers), files[|files| - 1];
      if f.isDir || f.path in before then before else before + {f.path} + DepIds(f.imports, markers)
  }

  /** A file is compiled unless it is a directory or its id is taken. */
  predicate Kept(files: seq<FileNode>, markers: seq<Id>, i: nat)
    requires i < |files|
  {
    !files[i].isDir && files[i].path !in Seen(files[..i], markers)
  }

  /** The dependencies of a file, in the order and as often as its project imports occur. */
  function FileDeps(imports: seq<Id>, markers: seq<Id>): seq<Id> {
    if imports == [] then []
    else
      var imp := imports[|imports| - 1];
      FileDeps(imports[..|imports| - 1], markers) + if IsProjectImport(imp, markers) then [DepId(imp)] else []
  }

  lemma {:induction false} FileDepsAre(imports: seq<Id>, markers: seq<Id>)
    ensures forall dep :: dep in FileDeps(imports, markers) <==> dep in DepIds(imports, markers)
  {
    if imports != [] {
      FileDepsAre(imports[..|imports| - 1], markers);
      DepIdsGrow(imports, markers, |imports| - 1);
      assert imports[..|imports|] == imports;
    }
  }

  /** One edge for every project import of a file, in the order and as often as they occur. */
  function FileEdges(id: Id, imports: seq<Id>, markers: seq<Id>): seq<Edge> {
    if imports == [] then []
    else
      var imp := imports[|imports| - 1];
      FileEdges(id, imports[..|imports| - 1], markers) + if IsProjectImport(imp, markers)
          then [ImportEdge(id, DepId(imp))] else []
  }

  function EdgesOf(files: seq<FileNode>, markers: seq<Id>): seq<Edge> {
    if files == [] then []
    else
      var shorter, f := files[..|files| - 1], files[|files| - 1];
      EdgesOf(shorter, markers) + if Kept(files, markers, |files| - 1)
          then FileEdges(f.path, f.imports, markers) else []
  }

  lemma {:induction false} FileEdgesAre(id: Id, imports: seq<Id>, markers: seq<Id>)
    ensures forall e :: e in FileEdges(id, imports, markers) <==>
            e == ImportEdge(id, e.to) && e.to in DepIds(imports, markers)
  {
    if imports != [] {
      var shorter := imports[..|imports| - 1];
      FileEdgesAre(id, shorter, markers);
      DepIdsGrow(imports, markers, |imports| - 1);
      assert imports[..|imports|] == imports;
    }
  }

  /** The edges there are: from a kept file to the dependency unit of a project import of it. */
  ghost predicate IsImport(files: seq<FileNode>, markers: seq<Id>, from: Id, to: Id) {
    exists k: nat :: ImportsAt(files, markers, k, from, to)
  }

  ghost predicate EdgesAre(files: seq<FileNode>, markers: seq<Id>, edges: seq<Edge>) {
    && (forall e :: e in edges ==> e == ImportEdge(e.from, e.to) && IsImport(files, markers, e.from, e.to))
    && (forall from, to :: IsImport(files, markers, from, to) ==> ImportEdge(from, to) in edges)
  }

  ghost predicate UnitsAre(ids: set<Id>, units: seq<Unit>) {
    && UniqueIds(units)
    && (forall i :: 0 <= i < |units| ==> units[i].id in ids)
    && (forall n :: n in ids ==> exists i :: 0 <= i < |units| && units[i].id == n)
    && (forall i :: 0 <= i < |units| ==> units[i] == TaskUnit(units[i].id, units[i].dependencies))
  }

  /** Edges run between known ids, and a unit depends on exactly the targets of its edges. */
  ghost predicate Tied(ids: set<Id>, units: seq<Unit>, edges: seq<Edge>) {
    && (forall e :: e in edges ==> e == ImportEdge(e.from, e.to) && e.from in ids && e.to in ids)
    && (forall i, dep :: 0 <= i < |units| ==> (dep in units[i].dependencies <==> ImportEdge(units[i].id, dep) in edges))
  }

  lemma TieEdge(ids: set<Id>, units: seq<Unit>, edges: seq<Edge>, id: Id, dep: Id)
    requires Tied(ids, units, edges) && id in ids && forall i :: 0 <= i < |units| ==> units[i].id != id
    ensures Tied(ids + {dep}, units, edges + [ImportEdge(id, dep)])
  {
  }

  lemma TieUnit(ids: set<Id>, units: seq<Unit>, edges: seq<Edge>, id: Id, dependencies: seq<Id>)
    requires Tied(ids, units, edges)
    requires forall dep :: dep in dependencies <==> ImportEdge(id, dep) in edges
    ensures Tied(ids, units + [TaskUnit(id, dependencies)], edges)
  {
  }

  lemma AppendUnit(ids: set<Id>, units: seq<Unit>, id: Id, dependencies: seq<Id>)
    requires UnitsAre(ids, units) && id !in ids
    ensures UnitsAre(ids + {id}, units + [TaskUnit(id, dependencies)])
  {
    var after := units + [TaskUnit(id, dependencies)];
    forall n | n in ids + {id}
      ensures exists i :: 0 <= i < |after| && after[i].id == n
    {
      if n in ids {
        var i :| 0 <= i < |units| && units[i].id == n;
        assert after[i].id == n;
      } else {
        assert after[|units|].id == n;
      }
    }
  }

  /** Adds an edge to a dependency unit, and the unit itself when its id is new. */
  method AddDependency(id: Id, dep: Id, units0: seq<Unit>, edges0: seq<Edge>, ids0: set<Id>)
    returns (units: seq<Unit>, edges: seq<Edge>, ids: set<Id>)
    requires id in ids0 && UnitsAre(ids0 - {id}, units0) && Tied(ids0, units0, edges0)
    ensures ids == ids0 + {dep} && edges == edges0 + [ImportEdge(id, dep)]
    ensures UnitsAre(ids - {id}, units) && Tied(ids, units, edges)
  {
    units, edges, ids := units0, edges0, ids0;
    TieEdge(ids, units, edges, id, dep);
    if dep !in ids {
      AppendUnit(ids - {id}, units, dep, []);
      assert ids - {id} + {dep} == ids + {dep} - {id};
      ids := ids + {dep};
      TieUnit(ids, units, edges + [ImportEdge(id, dep)], dep, []);
      units := units + [TaskUnit(dep, [])];
      edges := edges + [ImportEdge(id, dep)];
    } else {
      assert ids + {dep} == ids;
      edges := edges + [ImportEdge(id, dep)];
    }
  }

  /** Adds the dependency units and edges of one file. */
  method CompileImports(id: Id, imports: seq<Id>, markers: seq<Id>, units0: seq<Unit>, edges0: seq<Edge>, ids0: set<Id>)
    returns (units: seq<Unit>, edges: seq<Edge>, ids: set<Id>, dependencies: seq<Id>)
    requires id in ids0 && UnitsAre(ids0 - {id}, units0) && Tied(ids0, units0, edges0)
    ensures ids == ids0 + DepIds(imports, markers)
    ensures UnitsAre(ids - {id}, units) && Tied(ids, units, edges)
    ensures edges == edges0 + FileEdges(id, imports, markers)
    ensures dependencies == FileDeps(imports, markers)
  {
    units, edges, ids, dependencies := units0, edges0, ids0, [];
    for k := 0 to |imports|
      invariant ids == ids0 + DepIds(imports[..k], markers)
      invariant UnitsAre(ids - {id}, units) && Tied(ids, units, edges)
      invariant edges == edges0 + FileEdges(id, imports[..k], markers)
      invariant dependencies == FileDeps(imports[..k], markers)
    {
      NextImport(id, imports, markers, k);
      if !IsProjectImport(imports[k], markers) {
        continue;
      }
      var dep := DepId(imports[k]);
      ImportJoins(ids0, DepIds(imports[..k], markers), dep, edges0, FileEdges(id, imports[..k], markers), id);
      units, edges, ids := AddDependency(id, dep, units, edges, ids);
      dependencies := dependencies + [dep];
    }
    assert imports[..|imports|] == imports;
  }

  lemma ImportJoins(ids0: set<Id>, deps: set<Id>, dep: Id, edges0: seq<Edge>, done: seq<Edge>, id: Id)
    ensures ids0 + deps + {dep} == ids0 + (deps + {dep})
    ensures edges0 + done + [ImportEdge(id, dep)] == edges0 + (done + [ImportEdge(id, dep)])
  {
  }

  lemma NextImport(id: Id, imports: seq<Id>, markers: seq<Id>, k: nat)
    requires k < |imports|
    ensures if IsProjectImport(imports[k], markers)
            then && FileEdges(id, imports[..k + 1], markers) == FileEdges(id, imports[..k], markers)
                + [ImportEdge(id, DepId(imports[k]))]
                 && FileDeps(imports[..k + 1], markers) == FileDeps(imports[..k], markers) + [DepId(imports[k])]
                 && DepIds(imports[..k + 1], markers) == DepIds(imports[..k], markers) + {DepId(imports[k])}
            else && FileEdges(id, imports[..k + 1], markers) == FileEdges(id, imports[..k], markers)
                 && FileDeps(imports[..k + 1], markers) == FileDeps(imports[..k], markers)
                 && DepIds(imports[..k + 1], markers) == DepIds(imports[..k], markers)
  {
    assert imports[..k + 1][..k] == imports[..k];
    DepIdsGrow(imports, markers, k);
  }

  lemma DepIdsGrow(imports: seq<Id>, markers: seq<Id>, k: nat)
    requires k < |imports|
    ensures DepIds(imports[..k + 1], markers)
         == DepIds(imports[..k], markers) + if IsProjectImport(imports[k], markers) then {DepId(imports[k])} else {}
  {
    assert imports[..k + 1] == imports[..k] + [imports[k]];
  }

  /** What is known of the output for the files compiled so far. */
  ghost predicate Compiled(files: seq<FileNode>, markers: seq<Id>, units: seq<Unit>, edges: seq<Edge>, ids: set<Id>) {
    && ids == Seen(files, markers)
    && UnitsAre(ids, units)
    && Tied(ids, units, edges)
    && edges == EdgesOf(files, markers)
    && EdgesAre(files, markers, edges)
  }

  lemma NoEdgesYet(ids: set<Id>, units: seq<Unit>, edges: seq<Edge>, id: Id)
    requires Tied(ids, units, edges)
    ensures Tied(ids + {id}, units, edges)
  {
  }

  /** All edges from a new file are those of its own imports. */
  lemma FileTies(before: seq<Edge>, after: seq<Edge>, id: Id, deps: set<Id>, ids: set<Id>)
    requires id !in ids && forall e :: e in before ==> e.from in ids
    requires forall e :: e in after <==> e in before || (e == ImportEdge(id, e.to) && e.to in deps)
    ensures forall dep :: dep in deps <==> ImportEdge(id, dep) in after
  {
    forall dep
      ensures dep in deps <==> ImportEdge(id, dep) in after
    {
      assert ImportEdge(id, dep).to == dep && ImportEdge(id, dep).from == id;
    }
  }

  method Compile(files: seq<FileNode>, project: Id, markers: seq<Id>) returns (rir: Rir)
    ensures Compiled(files, markers, rir.units, rir.edges, Seen(files, markers))
    ensures rir == Assembled(project, rir.units, rir.edges)
  {
    var units: seq<Unit>, edges: seq<Edge>, ids: set<Id> := [], [], {};
    for i := 0 to |files|
      invariant Compiled(files[..i], markers, units, edges, ids)
    {
      var f := files[i];
      assert files[..i + 1][..i] == files[..i] && files[..i + 1][i] == f;
      ghost var edges0, ids0 := edges, ids;
      if f.isDir || f.path in ids {
        SkippedFile(files, markers, i, edges);
      } else {
        assert ids + {f.path} - {f.path} == ids;
        NoEdgesYet(ids, units, edges, f.path);
        var dependencies;
        units, edges, ids, dependencies := CompileImports(f.path, f.imports, markers, units, edges, ids + {f.path});
        FileEdgesAre(f.path, f.imports, markers);
        FileDepsAre(f.imports, markers);
        FileTies(edges0, edges, f.path, DepIds(f.imports, markers), ids0);
        TieUnit(ids, units, edges, f.path, dependencies);
        AppendUnit(ids - {f.path}, units, f.path, dependencies);
        assert ids - {f.path} + {f.path} == ids;
        units := units + [TaskUnit(f.path, dependencies)];
        KeptFile(files, markers, i, edges0, edges);
      }
    }
    assert files[..|files|] == files;
    rir := Assembled(project, units, edges);
  }

  function Assembled(project: Id, units: seq<Unit>, edges: seq<Edge>): Rir {
    Rir(Loader.SCHEMA_VERSION, Loader.MODE, 1, Concat(HASH_PREFIX, project), units, edges, [])
  }

  lemma KeptEarlier(files: seq<FileNode>, markers: seq<Id>, i: nat, k: nat)
    requires i < k <= |files|
    ensures Kept(files[..k], markers, i) == Kept(files, markers, i)
  {
    assert files[..k][..i] == files[..i];
  }

  /** File `k` is kept and imports `to` from `from`. */
  ghost predicate ImportsAt(files: seq<FileNode>, markers: seq<Id>, k: nat, from: Id, to: Id) {
    k < |files| && Kept(files, markers, k) && files[k].path == from && to in DepIds(files[k].imports, markers)
  }

  lemma ImportsAtPrefix(files: seq<FileNode>, markers: seq<Id>, k: nat, i: nat, from: Id, to: Id)
    requires i <= |files|
    ensures ImportsAt(files[..i], markers, k, from, to) <==> k < i && ImportsAt(files, markers, k, from, to)
  {
    if k < i {
      KeptEarlier(files, markers, k, i);
    }
  }

  lemma ImportsStay(files: seq<FileNode>, markers: seq<Id>, i: nat, from: Id, to: Id)
    requires i < |files| && IsImport(files[..i], markers, from, to)
    ensures IsImport(files[..i + 1], markers, from, to)
  {
    var k: nat :| ImportsAt(files[..i], markers, k, from, to);
    ImportsAtPrefix(files, markers, k, i, from, to);
    ImportsAtPrefix(files, markers, k, i + 1, from, to);
    assert ImportsAt(files[..i + 1], markers, k, from, to);
  }

  lemma ImportsCome(files: seq<FileNode>, markers: seq<Id>, i: nat, from: Id, to: Id)
    requires i < |files| && IsImport(files[..i + 1], markers, from, to)
    ensures IsImport(files[..i], markers, from, to) || ImportsAt(files, markers, i, from, to)
  {
    var k: nat :| ImportsAt(files[..i + 1], markers, k, from, to);
    ImportsAtPrefix(files, markers, k, i + 1, from, to);
    if k < i {
      ImportsAtPrefix(files, markers, k, i, from, to);
      assert ImportsAt(files[..i], markers, k, from, to);
    }
  }

  lemma ImportsGrow(files: seq<FileNode>, markers: seq<Id>, i: nat, from: Id, to: Id)
    requires i < |files|
    ensures IsImport(files[..i + 1], markers, from, to) <==>
              IsImport(files[..i], markers, from, to) || ImportsAt(files, markers, i, from, to)
  {
    if IsImport(files[..i + 1], markers, from, to) {
      ImportsCome(files, markers, i, from, to);
    }
    if IsImport(files[..i], markers, from, to) {
      ImportsStay(files, markers, i, from, to);
    }
    ImportsAtPrefix(files, markers, i, i + 1, from, to);
  }

  lemma SkippedFile(files: seq<FileNode>, markers: seq<Id>, i: nat, edges: seq<Edge>)
    requires i < |files| && !Kept(files, markers, i) && EdgesAre(files[..i], markers, edges)
    ensures EdgesAre(files[..i + 1], markers, edges)
  {
    forall from, to
      ensures IsImport(files[..i + 1], markers, from, to) <==> IsImport(files[..i], markers, from, to)
    {
      ImportsGrow(files, markers, i, from, to);
    }
  }

  lemma KeptFile(files: seq<FileNode>, markers: seq<Id>, i: nat, before: seq<Edge>, after: seq<Edge>)
    requires i < |files| && Kept(files, markers, i) && EdgesAre(files[..i], markers, before)
    requires forall e :: e in after <==>
               e in before || (e == ImportEdge(files[i].path, e.to) && e.to in DepIds(files[i].imports, markers))
    ensures EdgesAre(files[..i + 1], markers, after)
  {
    forall e | e in after
      ensures e == ImportEdge(e.from, e.to) && IsImport(files[..i + 1], markers, e.from, e.to)
    {
      ImportsGrow(files, markers, i, e.from, e.to);
    }
    forall from, to | IsImport(files[..i + 1], markers, from, to)
      ensures ImportEdge(from, to) in after
    {
      ImportsGrow(files, markers, i, from, to);
    }
  }
}
