/** What the compiler's output is worth to the loader, the builder and the kernel. */
module Compilation {
  import opened Ids
  import opened Plans
  import opened Digraph
  import opened Wiring
  import opened Builder
  import opened Statuses
  import opened Compiler
  import opened Verifying
  import Kernel
  import Loader

  /** Units and edges come from compiling `files`. */
  ghost predicate IsCompiled(files: seq<FileNode>, markers: seq<Id>, rir: Rir) {
    Compiled(files, markers, rir.units, rir.edges, Seen(files, markers))
  }

  lemma UnitsAreSeen(files: seq<FileNode>, markers: seq<Id>, rir: Rir)
    requires IsCompiled(files, markers, rir)
    ensures UnitIds(rir.units) == Seen(files, markers)
  {
  }

  /** The loader accepts whatever the compiler produces. */
  lemma CompiledIsValid(files: seq<FileNode>, project: Id, markers: seq<Id>, rir: Rir)
    requires IsCompiled(files, markers, rir) && rir == Assembled(project, rir.units, rir.edges)
    ensures Loader.ValidRir(rir)
  {
    forall i | 0 <= i < |rir.units|
      ensures Loader.UnitIsSound(rir.units, rir.units[i])
    {
      forall dep | dep in rir.units[i].dependencies
        ensures Loader.Resolved(rir.units, dep)
      {
        assert ImportEdge(rir.units[i].id, dep) in rir.edges;
        assert ImportEdge(rir.units[i].id, dep).to == dep;
      }
    }
    assert HASH_PREFIX.Char?;
  }

  lemma {:induction false} KeptIsSeen(files: seq<FileNode>, markers: seq<Id>, k: nat)
    requires k < |files| && Kept(files, markers, k)
    ensures files[k].path in Seen(files, markers)
    ensures DepIds(files[k].imports, markers) <= Seen(files, markers)
  {
    var before := files[..|files| - 1];
    if k < |files| - 1 {
      assert before[..k] == files[..k];
      KeptIsSeen(before, markers, k);
    }
  }

  lemma ImportsAreArcs(files: seq<FileNode>, markers: seq<Id>, rir: Rir, u: Id, v: Id)
    requires EdgesAre(files, markers, rir.edges)
    ensures (u, v) in Declared(rir).arcs <==> IsImport(files, markers, u, v)
  {
    if (u, v) in Declared(rir).arcs {
      var e :| e in rir.edges && (e.from, e.to) == (u, v);
    }
    if IsImport(files, markers, u, v) {
      assert ImportEdge(u, v) in rir.edges;
      assert (ImportEdge(u, v).from, ImportEdge(u, v).to) == (u, v);
    }
  }

  /** Both ends of every edge are units. */
  lemma CompiledIsClosed(files: seq<FileNode>, markers: seq<Id>, rir: Rir)
    requires IsCompiled(files, markers, rir)
    ensures SourcesDeclared(Declared(rir)) && TargetsDeclared(Declared(rir))
    ensures forall u, v :: (u, v) in Declared(rir).arcs ==> u in UnitIds(rir.units) && v in UnitIds(rir.units)
  {
    UnitsAreSeen(files, markers, rir);
    forall u, v | (u, v) in Declared(rir).arcs
      ensures u in UnitIds(rir.units) && v in UnitIds(rir.units)
    {
      ImportsAreArcs(files, markers, rir, u, v);
      var k: nat :| ImportsAt(files, markers, k, u, v);
      KeptIsSeen(files, markers, k);
    }
  }

  /** A unit depends on exactly what the kept file of that path imports from the project. */
  lemma DependenciesAreImports(files: seq<FileNode>, markers: seq<Id>, rir: Rir, i: nat, dep: Id)
    requires IsCompiled(files, markers, rir) && i < |rir.units|
    ensures dep in rir.units[i].dependencies <==> IsImport(files, markers, rir.units[i].id, dep)
  {
    var e := ImportEdge(rir.units[i].id, dep);
    assert e.from == rir.units[i].id && e.to == dep;
    assert dep in rir.units[i].dependencies <==> e in rir.edges;
  }

  /** A kept file imports an id exactly if that is `import:` followed by one of its imports in which a
      marker of the project occurs. */
  lemma ImportIff(files: seq<FileNode>, markers: seq<Id>, from: Id, to: Id)
    ensures IsImport(files, markers, from, to) <==>
              exists k: nat, imp, marker :: Imports(files, markers, k, from, to, imp, marker)
  {
    if k: nat :| ImportsAt(files, markers, k, from, to) {
      var imp :| imp in files[k].imports && IsProjectImport(imp, markers) && to == DepId(imp);
      var i :| 0 <= i < |markers| && Contains(imp, markers[i]);
      ContainsIff(imp, markers[i]);
      assert Imports(files, markers, k, from, to, imp, markers[i]);
    }
    if k: nat, imp, marker :| Imports(files, markers, k, from, to, imp, marker) {
      var i :| 0 <= i < |markers| && markers[i] == marker;
      ContainsIff(imp, markers[i]);
      assert ImportsAt(files, markers, k, from, to);
    }
  }

  ghost predicate Imports(files: seq<FileNode>, markers: seq<Id>, k: nat, from: Id, to: Id, imp: Id, marker: Id) {
    && k < |files| && Kept(files, markers, k) && files[k].path == from
    && imp in files[k].imports && marker in markers && Occurs(imp, marker)
    && to == Concat(FromString("import:"), imp)
  }

  // ----- Chains of imports -----

  /** Some kept file is itself what another kept file's import stands for, and has imports. */
  ghost predicate Chained(files: seq<FileNode>, markers: seq<Id>) {
    exists u, v, w :: IsImport(files, markers, u, v) && IsImport(files, markers, v, w)
  }

  lemma {:induction false} ConcatHasPrefix(a: Id, b: Id)
    ensures HasPrefix(Concat(a, b), a)
  {
    if a.Char? {
      ConcatHasPrefix(a.tail, b);
    }
  }

  predicate LooksImported(path: Id) {
    HasPrefix(path, IMPORT_PREFIX)
  }

  lemma DepIdLooksImported(imp: Id)
    ensures LooksImported(DepId(imp))
  {
    var prefix := IMPORT_PREFIX;
    ConcatHasPrefix(prefix, imp);
  }

  /** A chain needs a file whose path starts like a dependency id. */
  lemma ChainsNeedPrefix(files: seq<FileNode>, markers: seq<Id>)
    requires Chained(files, markers)
    ensures exists i :: 0 <= i < |files| && LooksImported(files[i].path)
  {
    var u, v, w :| IsImport(files, markers, u, v) && IsImport(files, markers, v, w);
    var j: nat :| ImportsAt(files, markers, j, u, v);
    var k: nat :| ImportsAt(files, markers, k, v, w);
    var imp :| imp in files[j].imports && DepId(imp) == v;
    DepIdLooksImported(imp);
    assert LooksImported(files[k].path);
  }

  lemma ChainIsWalk(files: seq<FileNode>, markers: seq<Id>, rir: Rir)
    requires EdgesAre(files, markers, rir.edges) && Chained(files, markers)
    ensures !Flat(Declared(rir))
  {
    var u, v, w :| IsImport(files, markers, u, v) && IsImport(files, markers, v, w);
    ImportsAreArcs(files, markers, rir, u, v);
    ImportsAreArcs(files, markers, rir, v, w);
    ArcsMakeWalk(Declared(rir), u, v, w);
  }

  lemma WalkIsChain(files: seq<FileNode>, markers: seq<Id>, rir: Rir, p: seq<Id>)
    requires EdgesAre(files, markers, rir.edges) && Walk(Declared(rir), p) && |p| > 2
    ensures Chained(files, markers)
  {
    var u, v, w := WalkSteps(Declared(rir), p);
    ImportsAreArcs(files, markers, rir, u, v);
    ImportsAreArcs(files, markers, rir, v, w);
  }

  /** The compiled graph is at most two units deep exactly when imports do not chain. */
  lemma FlatIff(files: seq<FileNode>, markers: seq<Id>, rir: Rir)
    requires IsCompiled(files, markers, rir)
    ensures Flat(Declared(rir)) <==> !Chained(files, markers)
  {
    if Chained(files, markers) {
      ChainIsWalk(files, markers, rir);
    }
    if !Flat(Declared(rir)) {
      var p :| Walk(Declared(rir), p) && |p| > 2;
      WalkIsChain(files, markers, rir, p);
    }
  }

  /** Ids of which each imports the next. */
  ghost predicate ImportChain(files: seq<FileNode>, markers: seq<Id>, p: seq<Id>) {
    p != [] && forall i :: 0 <= i < |p| - 1 ==> IsImport(files, markers, p[i], p[i + 1])
  }

  ghost predicate ClosedChain(files: seq<FileNode>, markers: seq<Id>, p: seq<Id>) {
    ImportChain(files, markers, p) && |p| >= 2 && p[0] == p[|p| - 1]
  }

  lemma ChainsAreWalks(files: seq<FileNode>, markers: seq<Id>, rir: Rir, p: seq<Id>)
    requires IsCompiled(files, markers, rir)
    ensures ImportChain(files, markers, p) <==> Walk(Declared(rir), p)
    ensures ImportChain(files, markers, p) && |p| >= 2 ==> Inside(Declared(rir), p)
  {
    CompiledIsClosed(files, markers, rir);
    forall i | 0 <= i < |p| - 1
      ensures IsImport(files, markers, p[i], p[i + 1]) <==> (p[i], p[i + 1]) in Declared(rir).arcs
    {
      ImportsAreArcs(files, markers, rir, p[i], p[i + 1]);
    }
    if Walk(Declared(rir), p) && |p| >= 2 {
      WalksStayInside(Declared(rir), p);
    }
  }

  lemma WalksStayInside(g: Graph, p: seq<Id>)
    requires forall u, v :: (u, v) in g.arcs ==> u in g.nodes && v in g.nodes
    requires Walk(g, p) && |p| >= 2
    ensures Inside(g, p)
  {
    forall i | 0 <= i < |p|
      ensures p[i] in g.nodes
    {
      if i == 0 {
        assert (p[0], p[0 + 1]) in g.arcs;
      } else {
        assert (p[i - 1], p[i - 1 + 1]) in g.arcs;
      }
    }
  }

  /** The compiled graph has a cycle exactly when some imports lead back to where they started. */
  lemma CyclicIff(files: seq<FileNode>, markers: seq<Id>, rir: Rir)
    requires IsCompiled(files, markers, rir)
    ensures Cyclic(Declared(rir)) <==> exists p :: ClosedChain(files, markers, p)
  {
    forall p
      ensures IsCycle(Declared(rir), p) <==> ClosedChain(files, markers, p)
    {
      ChainsAreWalks(files, markers, rir, p);
    }
  }

  /** How often `v` is imported by name: the occurrences in the kept files' import lists. */
  function Occurrences(files: seq<FileNode>, markers: seq<Id>, v: Id): nat {
    if files == [] then 0
    else
      Occurrences(files[..|files| - 1], markers, v)
      + if Kept(files, markers, |files| - 1) then Mentions(files[|files| - 1].imports, markers, v) else 0
  }

  function Mentions(imports: seq<Id>, markers: seq<Id>, v: Id): nat {
    if imports == [] then 0
    else
      var imp := imports[|imports| - 1];
      Mentions(imports[..|imports| - 1], markers, v)
      + if IsProjectImport(imp, markers) && DepId(imp) == v then 1 else 0
  }

  lemma {:induction false} MentionsAreEdges(id: Id, imports: seq<Id>, markers: seq<Id>, v: Id)
    ensures |Sources(FileEdges(id, imports, markers), v)| == Mentions(imports, markers, v)
  {
    if imports != [] {
      var shorter, imp := imports[..|imports| - 1], imports[|imports| - 1];
      MentionsAreEdges(id, shorter, markers, v);
      if IsProjectImport(imp, markers) {
        OneSource(FileEdges(id, shorter, markers), ImportEdge(id, DepId(imp)), v);
      } else {
        assert FileEdges(id, imports, markers) == FileEdges(id, shorter, markers);
      }
    }
  }

  lemma OneSource(edges: seq<Edge>, e: Edge, v: Id)
    ensures Sources(edges + [e], v) == Sources(edges, v) + if e.to == v then [e.from] else []
  {
    assert (edges + [e])[..|edges|] == edges;
  }

  /** A compiled unit has as many predecessors as it has occurrences. */
  lemma {:induction false} OccurrencesAreEdges(files: seq<FileNode>, markers: seq<Id>, v: Id)
    ensures |Sources(EdgesOf(files, markers), v)| == Occurrences(files, markers, v)
  {
    if files != [] {
      var shorter, f := files[..|files| - 1], files[|files| - 1];
      OccurrencesAreEdges(shorter, markers, v);
      MentionsAreEdges(f.path, f.imports, markers, v);
      if Kept(files, markers, |files| - 1) {
        SourcesJoin(EdgesOf(shorter, markers), FileEdges(f.path, f.imports, markers), v);
      } else {
        assert EdgesOf(files, markers) == EdgesOf(shorter, markers);
      }
    }
  }

  lemma WideIff(files: seq<FileNode>, markers: seq<Id>, rir: Rir, v: Id)
    requires IsCompiled(files, markers, rir)
    ensures WideUnit(rir, v) <==> Occurrences(files, markers, v) > MAX_IN_DEGREE
  {
    OccurrencesAreEdges(files, markers, v);
    SourcesAre(rir.edges, v);
    CompiledIsClosed(files, markers, rir);
    if Sources(rir.edges, v) != [] {
      var u := Sources(rir.edges, v)[0];
      assert u in Sources(rir.edges, v) && (u, v) in Declared(rir).arcs;
    }
  }

  ghost predicate ShortChains(files: seq<FileNode>, markers: seq<Id>) {
    forall p :: ImportChain(files, markers, p) ==> |p| <= MAX_DEPTH
  }

  lemma ShortChainsIff(files: seq<FileNode>, markers: seq<Id>, rir: Rir)
    requires IsCompiled(files, markers, rir)
    ensures !Cyclic(Declared(rir)) && !TooDeep(rir) <==> ShortChains(files, markers)
  {
    var depth := MAX_DEPTH;
    CompiledIsClosed(files, markers, rir);
    ShallowIff(Declared(rir), depth);
    forall p
      ensures ImportChain(files, markers, p) <==> Walk(Declared(rir), p)
      ensures ImportChain(files, markers, p) && |p| >= 2 ==> Inside(Declared(rir), p)
    {
      ChainsAreWalks(files, markers, rir, p);
    }
  }

  lemma NarrowIff(files: seq<FileNode>, markers: seq<Id>, rir: Rir)
    requires IsCompiled(files, markers, rir)
    ensures (forall n :: !WideUnit(rir, n)) <==> forall v :: Occurrences(files, markers, v) <= MAX_IN_DEGREE
  {
    if v :| Occurrences(files, markers, v) > MAX_IN_DEGREE {
      WideIff(files, markers, rir, v);
    }
    if n :| WideUnit(rir, n) {
      WideIff(files, markers, rir, n);
    }
  }

  lemma ReachesAnyway(files: seq<FileNode>, markers: seq<Id>, rir: Rir)
    requires IsCompiled(files, markers, rir) && !Cyclic(Declared(rir))
    ensures ReachesEnough(rir)
  {
    CompiledIsClosed(files, markers, rir);
    ReachabilityNeverRejects(rir);
  }

  /** The builder accepts compiled output exactly when no import chain is longer than 128 ids, a
      closed one being endless, and no id occurs more than 1024 times. */
  lemma CompiledAcceptance(files: seq<FileNode>, markers: seq<Id>, rir: Rir)
    requires IsCompiled(files, markers, rir)
    ensures Acceptable(rir) <==>
            && (forall p :: ImportChain(files, markers, p) ==> |p| <= 128)
            && (forall v :: Occurrences(files, markers, v) <= 1024)
    ensures (exists p :: ClosedChain(files, markers, p)) ==> !ShortChains(files, markers)
  {
    ShortChainsIff(files, markers, rir);
    CyclicIff(files, markers, rir);
    NarrowIff(files, markers, rir);
    if !Cyclic(Declared(rir)) {
      ReachesAnyway(files, markers, rir);
    }
  }

  /** Without a closed chain, the recorded depth is the number of ids in the longest chain. */
  lemma CompiledDepth(files: seq<FileNode>, markers: seq<Id>, rir: Rir, ceg: Ceg)
    requires IsCompiled(files, markers, rir) && Represents(rir, ceg)
    requires !exists p :: ClosedChain(files, markers, p)
    ensures forall p :: ImportChain(files, markers, p) && p[0] in Seen(files, markers) ==> |p| <= ceg.maxDepth
    ensures ceg.maxDepth > 0 ==>
              exists p :: ImportChain(files, markers, p) && p[0] in Seen(files, markers) && |p| == ceg.maxDepth
  {
    CyclicIff(files, markers, rir);
    CompiledIsClosed(files, markers, rir);
    UnitsAreSeen(files, markers, rir);
    DepthIsLongestPath(rir, ceg);
    forall p
      ensures ImportChain(files, markers, p) <==> Walk(Declared(rir), p)
      ensures ImportChain(files, markers, p) && |p| >= 2 ==> Inside(Declared(rir), p)
    {
      ChainsAreWalks(files, markers, rir, p);
    }
  }

  /** Without chains, in particular when no path starts with `import:`, only width can be refused. */
  lemma UnchainedAcceptance(files: seq<FileNode>, markers: seq<Id>, rir: Rir)
    requires IsCompiled(files, markers, rir)
    requires !Chained(files, markers) || forall i :: 0 <= i < |files| ==> !LooksImported(files[i].path)
    ensures !Cyclic(Declared(rir)) && Flat(Declared(rir))
    ensures Acceptable(rir) <==> forall v :: Occurrences(files, markers, v) <= MAX_IN_DEGREE
  {
    if Chained(files, markers) {
      ChainsNeedPrefix(files, markers);
    }
    var depth := MAX_DEPTH;
    FlatIff(files, markers, rir);
    CompiledIsClosed(files, markers, rir);
    FlatIsShallow(Declared(rir), depth);
    ShortChainsIff(files, markers, rir);
    CompiledAcceptance(files, markers, rir);
  }

  /** A file named like the dependency unit of its own import makes the output unbuildable. */
  lemma SelfImportIsRejected(path: Id, imp: Id, project: Id, markers: seq<Id>, rir: Rir)
    requires IsProjectImport(imp, markers) && path == DepId(imp)
    requires IsCompiled([FileNode(path, false, [imp])], markers, rir) && rir == Assembled(project, rir.units, rir.edges)
    ensures Loader.ValidRir(rir) && Cyclic(Declared(rir)) && !Acceptable(rir)
  {
    var files := [FileNode(path, false, [imp])];
    CompiledIsValid(files, project, markers, rir);
    assert files[..0] == [];
    assert ImportsAt(files, markers, 0, path, path);
    ImportsAreArcs(files, markers, rir, path, path);
    KeptIsSeen(files, markers, 0);
    UnitsAreSeen(files, markers, rir);
    LoopIsCycle(Declared(rir), path);
  }

  // ----- Running compiled output -----

  ghost predicate Imported(files: seq<FileNode>, markers: seq<Id>, v: Id) {
    exists u :: IsImport(files, markers, u, v)
  }

  /** No compiled unit can ever start: its rule is not one the kernel evaluates. Everything
      imported stays blocked and the other files end skipped, so the structural check passes
      exactly when there is not a single project import. */
  lemma CompiledNeverRuns(files: seq<FileNode>, markers: seq<Id>, rir: Rir, ceg: Ceg,
                          states: map<Id, Status>)
    requires IsCompiled(files, markers, rir) && Represents(rir, ceg)
    requires Kernel.NeverStarted(ceg, states)
    ensures Kernel.Inert(rir)
    ensures forall v :: v in states ==> states[v] == if Imported(files, markers, v) then Blocked else Skipped
    ensures Sound(ceg, states) <==> rir.edges == []
  {
    ImportedAreBlocked(files, markers, rir, ceg, states);
    CompiledIsClosed(files, markers, rir);
    SoundIffNoEdges(rir, ceg, states);
  }

  lemma ImportedAreBlocked(files: seq<FileNode>, markers: seq<Id>, rir: Rir, ceg: Ceg,
                           states: map<Id, Status>)
    requires EdgesAre(files, markers, rir.edges) && Represents(rir, ceg)
    requires Kernel.NeverStarted(ceg, states)
    ensures forall v :: v in states ==> states[v] == if Imported(files, markers, v) then Blocked else Skipped
  {
    forall v | v in states
      ensures states[v] == if Imported(files, markers, v) then Blocked else Skipped
    {
      ImportedIff(files, markers, rir, ceg, v);
    }
  }

  lemma SoundIffNoEdges(rir: Rir, ceg: Ceg, states: map<Id, Status>)
    requires Represents(rir, ceg) && Kernel.NeverStarted(ceg, states)
    requires forall u, v :: (u, v) in Declared(rir).arcs ==> v in UnitIds(rir.units)
    ensures Sound(ceg, states) <==> rir.edges == []
  {
    if rir.edges != [] {
      var e := rir.edges[0];
      assert (e.from, e.to) in Declared(rir).arcs;
      EdgeBlocks(rir, ceg, states, e);
    } else {
      NoEdgesAllSkipped(rir, ceg, states);
      SkippedIsSound(ceg, states);
    }
  }

  lemma SkippedIsSound(ceg: Ceg, states: map<Id, Status>)
    requires ceg.edges == [] && forall n :: n in ceg.nodes ==> n in states && states[n].Skipped?
    ensures Sound(ceg, states)
  {
  }

  lemma NoEdgesAllSkipped(rir: Rir, ceg: Ceg, states: map<Id, Status>)
    requires Represents(rir, ceg) && Kernel.NeverStarted(ceg, states) && rir.edges == []
    ensures forall n :: n in ceg.nodes ==> n in states && states[n].Skipped?
  {
    forall n | n in ceg.nodes
      ensures n in states && states[n].Skipped?
    {
      assert n in Elements(ceg.nodes);
      SourcesAre(rir.edges, n);
    }
  }

  lemma EdgeBlocks(rir: Rir, ceg: Ceg, states: map<Id, Status>, e: Edge)
    requires Represents(rir, ceg) && Kernel.NeverStarted(ceg, states)
    requires e in rir.edges && e.to in UnitIds(rir.units)
    ensures e.to in ceg.nodes && e.to in states && states[e.to].Blocked?
  {
    SourcesAre(rir.edges, e.to);
    assert e.from in Sources(rir.edges, e.to);
    assert e.to in Elements(ceg.nodes);
  }

  lemma ImportedIff(files: seq<FileNode>, markers: seq<Id>, rir: Rir, ceg: Ceg, v: Id)
    requires EdgesAre(files, markers, rir.edges) && Represents(rir, ceg) && v in ceg.nodeMap
    ensures ceg.inDegree[v] != 0 <==> Imported(files, markers, v)
  {
    SourcesAre(rir.edges, v);
    if ceg.inDegree[v] != 0 {
      var u := Sources(rir.edges, v)[0];
      assert u in Sources(rir.edges, v);
      ImportsAreArcs(files, markers, rir, u, v);
    }
    if u :| IsImport(files, markers, u, v) {
      assert ImportEdge(u, v) in rir.edges;
      assert u in Sources(rir.edges, v);
    }
  }

  // ----- Directories -----

  function FilesOnly(files: seq<FileNode>): seq<FileNode> {
    if files == [] then []
    else FilesOnly(files[..|files| - 1]) + if files[|files| - 1].isDir then [] else [files[|files| - 1]]
  }

  /** Directories in the scan change nothing of what is compiled. */
  lemma {:induction false} DirectoriesDoNotMatter(files: seq<FileNode>, markers: seq<Id>)
    ensures Seen(FilesOnly(files), markers) == Seen(files, markers)
    ensures EdgesOf(FilesOnly(files), markers) == EdgesOf(files, markers)
  {
    if files != [] {
      var shorter, f := files[..|files| - 1], files[|files| - 1];
      DirectoriesDoNotMatter(shorter, markers);
      if f.isDir {
        assert FilesOnly(files) == FilesOnly(shorter);
      } else {
        var kept := FilesOnly(files);
        assert kept[..|kept| - 1] == FilesOnly(shorter) && kept[|kept| - 1] == f;
        assert Kept(kept, markers, |kept| - 1) == Kept(files, markers, |files| - 1);
      }
    }
  }
}
