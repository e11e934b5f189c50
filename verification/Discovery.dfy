/** Module discovery (`graph.rs`) and the tables built from it (`emitter.rs`). Reading, parsing and
    resolving are what the outside world says about a path. */
module Discovery {
  import opened Wrappers

  type Path = string

  datatype Require = Require(name: string, resolved: Option<Path>)

  /** A file that cannot be read or is too large, or its requires and how many errors it has. */
  datatype Outcome = Unreadable | Read(requires_: seq<Require>, errors: nat)

  datatype Dependency = Dependency(name: string, path: Path)

  datatype Module = Module(path: Path, dependencies: seq<Dependency>)

  datatype BuildError = TooManyModules(path: Path) | CannotRead(path: Path) | BadSource(path: Path)
    | Unresolved(name: string)

  const MAX_MODULE_COUNT: nat := 10_000

  function Resolved(rs: seq<Require>): seq<Dependency> {
    if rs == [] then []
    else
      var rest := Resolved(rs[1..]);
      if rs[0].resolved.None? then rest else [Dependency(rs[0].name, rs[0].resolved.value)] + rest
  }

  /** What one module needs, as far as it resolves. */
  function Needs(world: Path -> Outcome, p: Path): seq<Dependency> {
    match world(p)
    case Unreadable => []
    case Read(rs, _) => Resolved(rs)
  }

  // ----- what the world alone says -----

  /** What reading one file reports, in order: that it cannot be read; or each of its own errors, and each
      require that resolves to nothing. */
  function Reported(world: Path -> Outcome, p: Path): seq<BuildError> {
    match world(p)
    case Unreadable => [CannotRead(p)]
    case Read(rs, errors) => BadSources(p, errors) + Unresolveds(rs)
  }

  function BadSources(p: Path, n: nat): seq<BuildError> { if n == 0 then [] else BadSources(p, n - 1) + [BadSource(p)] }

  function Unresolveds(rs: seq<Require>): seq<BuildError> {
    if rs == [] then []
    else (if rs[0].resolved.None? then [Unresolved(rs[0].name)] else []) + Unresolveds(rs[1..])
  }

  /** It can be read, has no errors of its own, and each of its requires resolves. */
  predicate Good(world: Path -> Outcome, p: Path) {
    var outcome := world(p);
    && outcome.Read? && outcome.errors == 0
    && forall k :: 0 <= k < |outcome.requires_| ==> outcome.requires_[k].resolved.Some?
  }

  lemma ReportsIffBad(world: Path -> Outcome, p: Path)
    ensures Reported(world, p) == [] <==> Good(world, p)
  {
    if world(p).Read? {
      UnresolvedsIff(world(p).requires_);
    }
  }

  lemma {:induction false} UnresolvedsIff(rs: seq<Require>)
    ensures Unresolveds(rs) == [] <==> forall k :: 0 <= k < |rs| ==> rs[k].resolved.Some?
  {
    if rs != [] {
      UnresolvedsIff(rs[1..]);
      assert forall k :: 1 <= k < |rs| ==> rs[k] == rs[1..][k - 1];
    }
  }

  predicate NeededBy(world: Path -> Outcome, p: Path, q: Path) {
    exists k :: 0 <= k < |Needs(world, p)| && Needs(world, p)[k].path == q
  }

  /** Each file of the chain needs the next. */
  predicate Chain(world: Path -> Outcome, chain: seq<Path>) {
    chain != [] && forall i :: 0 <= i < |chain| - 1 ==> NeededBy(world, chain[i], chain[i + 1])
  }

  ghost predicate Reachable(world: Path -> Outcome, entry: Path, p: Path) {
    exists chain :: Chain(world, chain) && chain[0] == entry && chain[|chain| - 1] == p
  }

  /** Everything reachable from the entry is good, and it is not too much. */
  ghost predicate Buildable(world: Path -> Outcome, entry: Path) {
    && (forall p :: Reachable(world, entry, p) ==> Good(world, p))
    && exists all: set<Path> :: |all| <= MAX_MODULE_COUNT && Covers(world, entry, all)
  }

  ghost predicate Covers(world: Path -> Outcome, entry: Path, all: set<Path>) {
    forall p :: Reachable(world, entry, p) ==> p in all
  }

  lemma EntryReachable(world: Path -> Outcome, entry: Path)
    ensures Reachable(world, entry, entry)
  {
    assert Chain(world, [entry]);
  }

  lemma NeedReachable(world: Path -> Outcome, entry: Path, p: Path, k: nat)
    requires Reachable(world, entry, p) && k < |Needs(world, p)|
    ensures Reachable(world, entry, Needs(world, p)[k].path)
  {
    var chain :| Chain(world, chain) && chain[0] == entry && chain[|chain| - 1] == p;
    var more := chain + [Needs(world, p)[k].path];
    assert NeededBy(world, p, Needs(world, p)[k].path);
    forall i | 0 <= i < |more| - 1
      ensures NeededBy(world, more[i], more[i + 1])
    {
      assert i < |chain| - 1 ==> NeededBy(world, chain[i], chain[i + 1]);
    }
    assert Chain(world, more);
  }

  /** What has the entry and, with a file, all that it needs, has everything reachable. */
  lemma {:induction false} ClosedHasChain(world: Path -> Outcome, found: set<Path>, chain: seq<Path>)
    requires Chain(world, chain) && chain[0] in found
    requires forall p, k :: p in found && 0 <= k < |Needs(world, p)| ==> Needs(world, p)[k].path in found
    ensures chain[|chain| - 1] in found
    decreases |chain|
  {
    if |chain| > 1 {
      assert NeededBy(world, chain[0], chain[1]);
      assert Chain(world, chain[1..]) by {
        forall i | 0 <= i < |chain| - 2
          ensures NeededBy(world, chain[1..][i], chain[1..][i + 1])
        {
          assert NeededBy(world, chain[i + 1], chain[i + 2]);
        }
      }
      ClosedHasChain(world, found, chain[1..]);
    }
  }

  /** Whatever a module depends on is a module or waits. */
  predicate Met(modules: seq<Module>, pathToId: map<Path, nat>, queue: seq<Path>) {
    forall i, k :: 0 <= i < |modules| && 0 <= k < |modules[i].dependencies| ==>
      modules[i].dependencies[k].path in pathToId || modules[i].dependencies[k].path in queue
  }

  lemma NothingMet(queue: seq<Path>)
    ensures Met([], map[], queue)
  {
  }

  lemma MetInTheEnd(modules: seq<Module>, pathToId: map<Path, nat>)
    ensures Met(modules, pathToId, []) ==>
              forall i, k :: 0 <= i < |modules| && 0 <= k < |modules[i].dependencies| ==>
                modules[i].dependencies[k].path in pathToId
  {
  }

  lemma MetSkips(modules: seq<Module>, pathToId: map<Path, nat>, path: Path, queue: seq<Path>)
    requires Met(modules, pathToId, [path] + queue) && path in pathToId
    ensures Met(modules, pathToId, queue)
  {
  }

  lemma MetGrows(modules: seq<Module>, pathToId: map<Path, nat>, path: Path, before: seq<Path>, queue: seq<Path>,
                 needs: seq<Dependency>, id: nat)
    requires Met(modules, pathToId, [path] + before) && before <= queue
    requires forall k :: 0 <= k < |needs| ==> needs[k].path in pathToId || needs[k].path in queue
    ensures Met(modules + [Module(path, needs)], pathToId[path := id], queue)
  {
    forall i, k | 0 <= i < |modules| && 0 <= k < |modules[i].dependencies|
      ensures modules[i].dependencies[k].path in pathToId || modules[i].dependencies[k].path == path
              || modules[i].dependencies[k].path in queue
    {
      assert modules[i].dependencies[k].path in pathToId || modules[i].dependencies[k].path in [path] + before;
    }
  }

  lemma ChainStarts(world: Path -> Outcome, chain: seq<Path>)
    requires Chain(world, chain)
    ensures chain != []
  {
  }

  lemma BadIsNotBuildable(world: Path -> Outcome, entry: Path, p: Path)
    requires Reachable(world, entry, p)
    ensures Buildable(world, entry) ==> Good(world, p)
  {
    hide Good, Reachable;
  }

  lemma {:induction false} DistinctCount(paths: seq<Path>, all: set<Path>)
    requires forall i, j :: 0 <= i < j < |paths| ==> paths[i] != paths[j]
    requires forall p :: p in all <==> p in paths
    ensures |all| == |paths|
    decreases |paths|
  {
    if paths == [] {
      assert all == {};
    } else {
      var n := |paths| - 1;
      var fewer := all - {paths[n]};
      forall p
        ensures p in fewer <==> p in paths[..n]
      {
        if p in paths {
          var i :| 0 <= i < |paths| && paths[i] == p;
          assert i < n ==> paths[..n][i] == p;
        }
      }
      DistinctCount(paths[..n], fewer);
      assert all == fewer + {paths[n]};
    }
  }

  lemma SubsetIsSmaller(a: set<Path>, b: set<Path>)
    requires a <= b
    ensures |a| <= |b|
  {
    var more := b - a;
    assert b == a + more && a * more == {};
    assert |a + more| == |a| + |more|;
  }

  /** What the queue has from `from` on are targets of these dependencies. */
  predicate Targets(dependencies: seq<Dependency>, queue: seq<Path>, from: nat) {
    forall k :: from <= k < |queue| ==> IsTarget(dependencies, queue[k])
  }

  predicate IsTarget(dependencies: seq<Dependency>, p: Path) {
    exists i :: 0 <= i < |dependencies| && dependencies[i].path == p
  }

  lemma NoTargets(queue: seq<Path>)
    ensures Targets([], queue, |queue|)
  {
  }

  lemma NothingLeft()
    ensures Resolved([]) == [] && Unresolveds([]) == []
  {
  }

  lemma StepsOn(rs: seq<Require>, i: nat)
    requires i < |rs|
    ensures var rest := rs[i + 1..];
            && Resolved(rs[i..])
               == (if rs[i].resolved.None? then [] else [Dependency(rs[i].name, rs[i].resolved.value)]) + Resolved(rest)
            && Unresolveds(rs[i..])
               == (if rs[i].resolved.None? then [Unresolved(rs[i].name)] else []) + Unresolveds(rest)
  {
    assert rs[i..][1..] == rs[i + 1..] && rs[i..][0] == rs[i];
  }

  lemma TargetsGrow(before: seq<Dependency>, waiting: seq<Path>, queue: seq<Path>, d: Dependency, from: nat)
    requires Targets(before, waiting, from) && (queue == waiting || queue == waiting + [d.path])
    ensures Targets(before + [d], queue, from)
  {
    var after := before + [d];
    forall k | from <= k < |queue|
      ensures IsTarget(after, queue[k])
    {
      if k < |waiting| {
        assert IsTarget(before, waiting[k]);
        var i :| 0 <= i < |before| && before[i].path == waiting[k];
        assert after[i].path == queue[k];
      } else {
        assert after[|before|].path == queue[k];
      }
    }
  }

  lemma TargetsReachable(world: Path -> Outcome, entry: Path, p: Path, before: seq<Path>, queue: seq<Path>)
    requires Reachable(world, entry, p) && before <= queue && Targets(Needs(world, p), queue, |before|)
    requires forall k :: 0 <= k < |before| ==> Reachable(world, entry, before[k])
    ensures forall k :: 0 <= k < |queue| ==> Reachable(world, entry, queue[k])
  {
    hide Reachable;
    forall k | 0 <= k < |queue|
      ensures Reachable(world, entry, queue[k])
    {
      if |before| <= k {
        assert IsTarget(Needs(world, p), queue[k]);
        var i :| 0 <= i < |Needs(world, p)| && Needs(world, p)[i].path == queue[k];
        NeedReachable(world, entry, p, i);
      } else {
        assert queue[k] == before[k];
      }
    }
  }

  /** Errors are there exactly where some module found is not good, or the run has stopped for one. */
  ghost predicate Judged(world: Path -> Outcome, entry: Path, modules: seq<Module>, errors: seq<BuildError>) {
    && (errors == [] ==> forall i :: 0 <= i < |modules| ==> Good(world, modules[i].path))
    && (errors != [] ==> !Buildable(world, entry))
  }

  lemma NothingReported(a: seq<BuildError>, b: seq<BuildError>)
    ensures a + b == [] ==> a == [] && b == []
  {
  }

  lemma GoodIsRead(world: Path -> Outcome, p: Path)
    ensures Good(world, p) ==> !world(p).Unreadable?
  {
  }

  lemma ThreeParts(a: seq<BuildError>, b: seq<BuildError>, c: seq<BuildError>)
    ensures (a + b) + c == a + (b + c)
  {
  }

  lemma NothingJudged(world: Path -> Outcome, entry: Path)
    ensures Judged(world, entry, [], [])
  {
  }

  lemma JudgedOn(world: Path -> Outcome, entry: Path, modules: seq<Module>, errors: seq<BuildError>, p: Path,
                 read: seq<Module>)
    requires Judged(world, entry, modules, errors) && Reachable(world, entry, p)
    requires read == modules || read == modules + [Module(p, Needs(world, p))]
    ensures Judged(world, entry, read, errors + Reported(world, p))
  {
    hide Good, Reachable, Buildable;
    ReportsIffBad(world, p);
    BadIsNotBuildable(world, entry, p);
  }

  predicate Listed(modules: seq<Module>, p: Path) { exists i :: 0 <= i < |modules| && modules[i].path == p }

  class GraphBuilder {
    const world: Path -> Outcome
    var modules: seq<Module>
    var pathToId: map<Path, nat>
    var queue: seq<Path>
    var errors: seq<BuildError>

    constructor (world: Path -> Outcome)
      ensures this.world == world && modules == [] && pathToId == map[] && queue == [] && errors == []
      ensures Valid()
    {
      this.world := world;
      modules := [];
      pathToId := map[];
      queue := [];
      errors := [];
    }

    /** The table maps each path to the module it is the path of, and nothing else. */
    ghost predicate Valid()
      reads this
    {
      && (forall p :: p in pathToId ==> pathToId[p] < |modules| && modules[pathToId[p]].path == p)
      && (forall i :: 0 <= i < |modules| ==> modules[i].path in pathToId && pathToId[modules[i].path] == i)
      && (forall i :: 0 <= i < |modules| ==> modules[i].dependencies == Needs(world, modules[i].path))
    }

    /** Without errors, whatever a module depends on is a module or waits in the queue. */
    ghost predicate Pending()
      reads this
    {
      errors == [] ==> Met(modules, pathToId, queue)
    }

    /** Only what can be reached from the entry has been found. */
    ghost predicate Within(entry: Path)
      reads this
    {
      && (forall p :: p in pathToId ==> Reachable(world, entry, p))
      && (forall k :: 0 <= k < |queue| ==> Reachable(world, entry, queue[k]))
    }

    /** Resolves the requires of a module, reports those that resolve to nothing, and puts the files not yet
        seen in the queue. */
    method Enqueue(rs: seq<Require>) returns (dependencies: seq<Dependency>)
      modifies this`queue, this`errors
      ensures dependencies == Resolved(rs) && errors == old(errors) + Unresolveds(rs)
      ensures old(queue) <= queue
      ensures Targets(dependencies, queue, |old(queue)|)
      ensures forall k :: 0 <= k < |dependencies| ==> dependencies[k].path in pathToId || dependencies[k].path in queue
    {
      hide Resolved, Unresolveds, Targets;
      dependencies := [];
      NoTargets(queue);
      assert rs[0..] == rs;
      for i := 0 to |rs|
        invariant old(queue) <= queue
        invariant dependencies + Resolved(rs[i..]) == Resolved(rs)
        invariant errors + Unresolveds(rs[i..]) == old(errors) + Unresolveds(rs)
        invariant Targets(dependencies, queue, |old(queue)|)
        invariant forall k :: 0 <= k < |dependencies| ==>
                    dependencies[k].path in pathToId || dependencies[k].path in queue
      {
        StepsOn(rs, i);
        ghost var (before, waiting) := (dependencies, queue);
        match rs[i].resolved {
          case Some(target) =>
            if target !in pathToId {
              queue := queue + [target];
            }
            dependencies := dependencies + [Dependency(rs[i].name, target)];
            TargetsGrow(before, waiting, queue, Dependency(rs[i].name, target), |old(queue)|);
          case None =>
            errors := errors + [Unresolved(rs[i].name)];
        }
      }
      assert rs[|rs|..] == [];
      NothingLeft();
    }

    method ReportErrors(path: Path, count: nat)
      modifies this`errors
      ensures errors == old(errors) + BadSources(path, count)
    {
      for i := 0 to count
        invariant errors == old(errors) + BadSources(path, i)
      {
        errors := errors + [BadSource(path)];
      }
    }

    method ProcessModule(path: Path, ghost entry: Path)
      requires Valid() && path !in pathToId && Within(entry) && Reachable(world, entry, path)
      modifies this
      ensures Valid() && Within(entry) && errors == old(errors) + Reported(world, path)
      ensures world(path).Unreadable? ==>
                modules == old(modules) && pathToId == old(pathToId) && queue == old(queue)
      ensures !world(path).Unreadable? ==>
                && modules == old(modules) + [Module(path, Needs(world, path))]
                && pathToId == old(pathToId)[path := |old(modules)|]
                && old(queue) <= queue
                && (forall k :: 0 <= k < |Needs(world, path)| ==>
                      Needs(world, path)[k].path in old(pathToId) || Needs(world, path)[k].path in queue)
    {
      hide Reachable, Targets, Resolved, Unresolveds, BadSources;
      var outcome := world(path);
      if outcome.Unreadable? {
        errors := errors + [CannotRead(path)];
        return;
      }
      ReportErrors(path, outcome.errors);
      var dependencies := Enqueue(outcome.requires_);
      assert dependencies == Needs(world, path);
      TargetsReachable(world, entry, path, old(queue), queue);
      ThreeParts(old(errors), BadSources(path, outcome.errors), Unresolveds(outcome.requires_));
      pathToId := pathToId[path := |modules|];
      modules := modules + [Module(path, dependencies)];
    }

    /** Walks out from the entry until nothing waits. It ends, finds only what is reachable, and reports
        nothing if and only if everything reachable is good and within the limit; then it has found it all. */
    method Discover(entry: Path)
      requires Valid() && modules == [] && queue == [] && errors == []
      modifies this
      ensures Valid() && |modules| <= MAX_MODULE_COUNT
      ensures forall p :: p in pathToId ==> Reachable(world, entry, p)
      ensures errors == [] <==> Buildable(world, entry)
      ensures Complete(entry)
    {
      hide Met, Buildable, Reachable, Good, Reported, Judged, Needs, Complete;
      queue := queue + [entry];
      NothingMet(queue);
      NothingJudged(world, entry);
      EntryReachable(world, entry);
      while queue != []
        invariant Valid() && Within(entry) && Pending() && Judged(world, entry, modules, errors)
        invariant |modules| <= MAX_MODULE_COUNT
        invariant errors == [] ==> entry in pathToId || entry in queue
        decreases MAX_MODULE_COUNT - |modules|, |queue|
      {
        var path := queue[0];
        ghost var waiting := queue;
        queue := queue[1..];
        assert waiting == [path] + queue;
        ghost var (ms, ids, rest, reported) := (modules, pathToId, queue, errors);
        if path !in pathToId {
          if |modules| >= MAX_MODULE_COUNT {
            TooMany(entry, path);
            errors := errors + [TooManyModules(path)];
            break;
          }
          ProcessModule(path, entry);
          JudgedOn(world, entry, ms, reported, path, modules);
          if errors == [] {
            NothingReported(reported, Reported(world, path));
            ReportsIffBad(world, path);
            assert !world(path).Unreadable? by { GoodIsRead(world, path); }
            MetGrows(ms, ids, path, rest, queue, Needs(world, path), |ms|);
          }
        } else if errors == [] {
          MetSkips(ms, ids, path, rest);
        }
      }
      Conclude(entry);
    }

    /** Where the walk ends, or stops for the limit. */
    lemma Conclude(entry: Path)
      requires Valid() && |modules| <= MAX_MODULE_COUNT
      requires || (errors != [] && !Buildable(world, entry))
               || (queue == [] && Pending() && Judged(world, entry, modules, errors)
                   && (errors == [] ==> entry in pathToId))
      ensures Complete(entry) && (errors == [] <==> Buildable(world, entry))
    {
      hide Met, Buildable, Good;
      MetInTheEnd(modules, pathToId);
      if errors == [] {
        AllFound(entry);
      }
    }

    /** One more than the limit is too much to build. */
    lemma TooMany(entry: Path, path: Path)
      requires Valid() && Within(entry) && Reachable(world, entry, path) && path !in pathToId
      requires |modules| >= MAX_MODULE_COUNT
      ensures !Buildable(world, entry)
    {
      hide Reachable, Good;
      if Buildable(world, entry) {
        var all: set<Path> :| |all| <= MAX_MODULE_COUNT && Covers(world, entry, all);
        PathsAreMany();
        assert pathToId.Keys + {path} <= all;
        SubsetIsSmaller(pathToId.Keys + {path}, all);
      }
    }

    lemma PathsAreMany()
      requires Valid()
      ensures |pathToId.Keys| == |modules|
    {
      var paths := seq(|modules|, i requires 0 <= i < |modules| reads this => modules[i].path);
      forall i, j | 0 <= i < j < |paths|
        ensures paths[i] != paths[j]
      {
        assert pathToId[paths[i]] == i && pathToId[paths[j]] == j;
      }
      assert forall p :: p in pathToId ==> paths[pathToId[p]] == p;
      DistinctCount(paths, pathToId.Keys);
    }

    lemma HasReachable(entry: Path)
      requires Valid() && Complete(entry) && errors == []
      ensures forall p :: Reachable(world, entry, p) ==> p in pathToId && Listed(modules, p)
    {
      forall p | Reachable(world, entry, p)
        ensures p in pathToId && Listed(modules, p)
      {
        var chain :| Chain(world, chain) && chain[0] == entry && chain[|chain| - 1] == p;
        forall q, k | q in pathToId.Keys && 0 <= k < |Needs(world, q)|
          ensures Needs(world, q)[k].path in pathToId.Keys
        {
          assert modules[pathToId[q]].dependencies[k].path in pathToId;
        }
        ChainStarts(world, chain);
        ClosedHasChain(world, pathToId.Keys, chain);
        assert modules[pathToId[p]].path == p;
      }
    }

    /** Without errors everything reachable has been found, so it can be built. */
    lemma AllFound(entry: Path)
      requires Valid() && Complete(entry) && errors == [] && |modules| <= MAX_MODULE_COUNT
      requires forall i :: 0 <= i < |modules| ==> Good(world, modules[i].path)
      ensures Buildable(world, entry)
    {
      hide Good, Reachable;
      PathsAreMany();
      HasReachable(entry);
      forall p | Reachable(world, entry, p)
        ensures p in pathToId && Good(world, p)
      {
        assert modules[pathToId[p]].path == p;
      }
      assert Covers(world, entry, pathToId.Keys);
    }

    /** Without errors, what the modules depend on are modules. */
    ghost predicate Complete(entry: Path)
      reads this
    {
      errors == [] ==>
        && entry in pathToId
        && (forall i, k :: 0 <= i < |modules| && 0 <= k < |modules[i].dependencies| ==>
              modules[i].dependencies[k].path in pathToId)
    }

    /** The entry's number, where discovery reported nothing. Whatever order of the modules the sort then
        finds, the tables have what they ask for. */
    method Finish(entry: Path) returns (entryId: Option<nat>)
      requires Valid() && Complete(entry)
      ensures entryId.Some? <==> errors == []
      ensures entryId.Some? ==> entryId.value < |modules| && modules[entryId.value].path == entry
      ensures entryId.Some? ==> forall order :: IsOrder(order, |modules|) ==> Graph(modules, order, entryId.value)
    {
      if errors != [] {
        return None;
      }
      entryId := Some(pathToId[entry]);
      forall order | IsOrder(order, |modules|)
        ensures Graph(modules, order, entryId.value)
      {
        forall i, k | 0 <= i < |modules| && 0 <= k < |modules[i].dependencies|
          ensures exists j :: 0 <= j < |modules| && modules[j].path == modules[i].dependencies[k].path
        {
          assert modules[pathToId[modules[i].dependencies[k].path]].path == modules[i].dependencies[k].path;
        }
        forall i, j | 0 <= i < j < |modules|
          ensures modules[i].path != modules[j].path
        {
          assert pathToId[modules[i].path] == i && pathToId[modules[j].path] == j;
        }
      }
    }
  }

  datatype DependencyGraph = DependencyGraph(modules: seq<Module>, order: seq<nat>, entry: nat)

  /** `build_graph`: discovery, then some order of the modules. There is a graph if and only if everything
      reachable from the entry is good and within the limit, and then it has exactly that. */
  method BuildGraph(world: Path -> Outcome, sort: seq<Module> -> seq<nat>, entry: Path)
    returns (graph: Option<DependencyGraph>)
    requires forall ms :: IsOrder(sort(ms), |ms|)
    ensures graph.Some? <==> Buildable(world, entry)
    ensures graph.Some? ==>
              var g := graph.value;
              && Graph(g.modules, g.order, g.entry) && g.modules[g.entry].path == entry
              && (forall m :: m in g.modules ==>
                  Reachable(world, entry, m.path) && m.dependencies == Needs(world, m.path))
              && (forall p :: Reachable(world, entry, p) ==> Listed(g.modules, p))
  {
    hide Buildable, Reachable;
    var builder := new GraphBuilder(world);
    builder.Discover(entry);
    var entryId := builder.Finish(entry);
    if entryId.None? {
      return None;
    }
    graph := Some(DependencyGraph(builder.modules, sort(builder.modules), entryId.value));
    builder.HasReachable(entry);
  }

  // ----- slots -----

  /** `order` has every number below `n`, once each. */
  predicate IsOrder(order: seq<nat>, n: nat) {
    && (forall i :: 0 <= i < |order| ==> order[i] < n)
    && (forall i, j :: 0 <= i < j < |order| ==> order[i] != order[j])
    && (forall id: nat :: id < n ==> id in order)
  }

  /** What discovery hands on: a table of modules closed under dependencies, and an order of them all. */
  predicate Graph(modules: seq<Module>, order: seq<nat>, entry: nat) {
    && entry < |modules|
    && (forall i, j :: 0 <= i < j < |modules| ==> modules[i].path != modules[j].path)
    && IsOrder(order, |modules|)
    && (forall i, k :: 0 <= i < |modules| && 0 <= k < |modules[i].dependencies| ==>
          exists j :: 0 <= j < |modules| && modules[j].path == modules[i].dependencies[k].path)
  }

  predicate EntryRequired(modules: seq<Module>, entry: nat)
    requires entry < |modules|
  {
    exists i, k :: 0 <= i < |modules| && 0 <= k < |modules[i].dependencies|
                   && modules[i].dependencies[k].path == modules[entry].path
  }

  method IsEntryRequired(modules: seq<Module>, entry: nat) returns (required: bool)
    requires entry < |modules|
    ensures required == EntryRequired(modules, entry)
  {
    for i := 0 to |modules|
      invariant forall i', k :: 0 <= i' < i && 0 <= k < |modules[i'].dependencies| ==>
                  modules[i'].dependencies[k].path != modules[entry].path
    {
      for k := 0 to |modules[i].dependencies|
        invariant forall k' :: 0 <= k' < k ==> modules[i].dependencies[k'].path != modules[entry].path
      {
        if modules[i].dependencies[k].path == modules[entry].path {
          return true;
        }
      }
    }
    return false;
  }

  /** Luau: a numbered slot per module other than the entry, in order, and one for the entry where
      something requires it. */
  method AssignSlots(modules: seq<Module>, order: seq<nat>, entry: nat) returns (slotOf: map<Path, nat>)
    requires Graph(modules, order, entry)
    ensures forall i, k :: 0 <= i < |modules| && 0 <= k < |modules[i].dependencies| ==>
              modules[i].dependencies[k].path in slotOf
    ensures forall j :: 0 <= j < |modules| && j != entry ==> modules[j].path in slotOf
    ensures forall p :: p in slotOf ==> exists j :: 0 <= j < |modules| && modules[j].path == p
    ensures forall p, q :: p in slotOf && q in slotOf && slotOf[p] == slotOf[q] ==> p == q
  {
    slotOf := map[];
    var slot := 0;
    for i := 0 to |order|
      invariant forall p :: p in slotOf ==> 1 <= slotOf[p] <= slot
      invariant forall p, q :: p in slotOf && q in slotOf && slotOf[p] == slotOf[q] ==> p == q
      invariant forall j :: 0 <= j < i && order[j] != entry ==> modules[order[j]].path in slotOf
      invariant forall p :: p in slotOf ==> exists j :: 0 <= j < |modules| && modules[j].path == p
    {
      if order[i] != entry {
        slot := slot + 1;
        slotOf := slotOf[modules[order[i]].path := slot];
      }
    }
    var required := IsEntryRequired(modules, entry);
    if required {
      slot := slot + 1;
      slotOf := slotOf[modules[entry].path := slot];
    }
    forall j: nat | j < |modules| && j != entry
      ensures modules[j].path in slotOf
    {
      assert j in order;
    }
    forall i, k | 0 <= i < |modules| && 0 <= k < |modules[i].dependencies|
      ensures modules[i].dependencies[k].path in slotOf
    {
      var j :| 0 <= j < |modules| && modules[j].path == modules[i].dependencies[k].path;
      if j == entry {
        assert EntryRequired(modules, entry);
      }
    }
  }

  /** What the bundle assigns to slots before it calls the entry: to each the function of a module. */
  method Registrations(modules: seq<Module>, order: seq<nat>, entry: nat, slotOf: map<Path, nat>)
    returns (filled: map<nat, nat>)
    requires Graph(modules, order, entry)
    requires forall j :: 0 <= j < |modules| && j != entry ==> modules[j].path in slotOf
    requires forall p :: p in slotOf ==> exists j :: 0 <= j < |modules| && modules[j].path == p
    requires forall p, q :: p in slotOf && q in slotOf && slotOf[p] == slotOf[q] ==> p == q
    ensures forall p :: p in slotOf ==> Holds(modules, filled, slotOf[p], p)
  {
    filled := map[];
    for i := 0 to |order|
      invariant forall j :: 0 <= j < i && order[j] != entry ==>
                  slotOf[modules[order[j]].path] in filled && filled[slotOf[modules[order[j]].path]] == order[j]
    {
      if order[i] != entry {
        filled := filled[slotOf[modules[order[i]].path] := order[i]];
      }
    }
    if modules[entry].path in slotOf {
      filled := filled[slotOf[modules[entry].path] := entry];
    }
    forall p | p in slotOf
      ensures Holds(modules, filled, slotOf[p], p)
    {
      var j: nat :| j < |modules| && modules[j].path == p;
      assert j in order;
    }
  }

  /** The slot has the function of the module at `path`. */
  predicate Holds(modules: seq<Module>, filled: map<nat, nat>, slot: nat, path: Path) {
    slot in filled && filled[slot] < |modules| && modules[filled[slot]].path == path
  }

  /** Luau, all together: every rewritten require of every module names a slot that has been filled with
      the function of the very file the require resolves to. */
  method RegisterByFile(g: DependencyGraph) returns (slotOf: map<Path, nat>, filled: map<nat, nat>)
    requires Graph(g.modules, g.order, g.entry)
    ensures forall i, k :: 0 <= i < |g.modules| && 0 <= k < |g.modules[i].dependencies| ==>
              var d := g.modules[i].dependencies[k];
              d.path in slotOf && Holds(g.modules, filled, slotOf[d.path], d.path)
  {
    slotOf := AssignSlots(g.modules, g.order, g.entry);
    filled := Registrations(g.modules, g.order, g.entry, slotOf);
  }

  // ----- the by-name table -----

  function DependenciesOf(modules: seq<Module>, order: seq<nat>): seq<Dependency>
    requires forall i :: 0 <= i < |order| ==> order[i] < |modules|
  {
    if order == [] then []
    else DependenciesOf(modules, order[..|order| - 1]) + modules[order[|order| - 1]].dependencies
  }

  /** The file the first dependency called `name` resolves to. */
  function FirstTarget(deps: seq<Dependency>, name: string): Option<Path> {
    if deps == [] then None
    else
      var earlier := FirstTarget(deps[..|deps| - 1], name);
      if earlier.Some? then earlier
      else if deps[|deps| - 1].name == name then Some(deps[|deps| - 1].path)
      else None
  }

  ghost predicate TableOf(deps: seq<Dependency>, targetOf: map<string, Path>) {
    forall name :: FirstTarget(deps, name) == (if name in targetOf then Some(targetOf[name]) else None)
  }

  lemma TableGrows(deps: seq<Dependency>, targetOf: map<string, Path>, dep: Dependency)
    requires TableOf(deps, targetOf)
    ensures TableOf(deps + [dep], if dep.name in targetOf then targetOf else targetOf[dep.name := dep.path])
  {
    assert (deps + [dep])[..|deps|] == deps;
    forall name
      ensures FirstTarget(deps + [dep], name)
              == (if FirstTarget(deps, name).Some? then FirstTarget(deps, name)
                  else if dep.name == name then Some(dep.path) else None)
    {
    }
  }

  /** By name: each require string, at its first occurrence in order, keyed to the file it resolves to
      there. */
  method NameSlots(modules: seq<Module>, order: seq<nat>, entry: nat)
    returns (slots: seq<string>, targetOf: map<string, Path>)
    requires Graph(modules, order, entry)
    ensures TableOf(DependenciesOf(modules, order), targetOf)
    ensures forall name :: name in slots <==> name in targetOf
    ensures forall i, j :: 0 <= i < j < |slots| ==> slots[i] != slots[j]
  {
    targetOf := map[];
    slots := [];
    for i := 0 to |order|
      invariant TableOf(DependenciesOf(modules, order[..i]), targetOf)
      invariant forall name :: name in slots <==> name in targetOf
      invariant forall i, j :: 0 <= i < j < |slots| ==> slots[i] != slots[j]
    {
      assert order[..i + 1][..i] == order[..i];
      var deps := modules[order[i]].dependencies;
      ghost var before := DependenciesOf(modules, order[..i]);
      assert before + deps[..0] == before;
      for k := 0 to |deps|
        invariant TableOf(before + deps[..k], targetOf)
        invariant forall name :: name in slots <==> name in targetOf
        invariant forall i, j :: 0 <= i < j < |slots| ==> slots[i] != slots[j]
      {
        TableGrows(before + deps[..k], targetOf, deps[k]);
        assert before + deps[..k] + [deps[k]] == before + deps[..k + 1];
        if deps[k].name !in targetOf {
          slots := slots + [deps[k].name];
          targetOf := targetOf[deps[k].name := deps[k].path];
        }
      }
      assert deps[..|deps|] == deps;
    }
    assert order[..|order|] == order;
  }

  lemma {:induction false} DependencyListed(modules: seq<Module>, order: seq<nat>, i: nat, k: nat)
    requires forall j :: 0 <= j < |order| ==> order[j] < |modules|
    requires i < |order| && k < |modules[order[i]].dependencies|
    ensures modules[order[i]].dependencies[k] in DependenciesOf(modules, order)
    decreases |order|
  {
    if i < |order| - 1 {
      DependencyListed(modules, order[..|order| - 1], i, k);
    }
  }

  lemma {:induction false} FirstTargetListed(deps: seq<Dependency>, name: string)
    ensures FirstTarget(deps, name).Some? <==> exists k :: 0 <= k < |deps| && deps[k].name == name
    ensures FirstTarget(deps, name).Some? ==> Dependency(name, FirstTarget(deps, name).value) in deps
  {
    if deps != [] {
      FirstTargetListed(deps[..|deps| - 1], name);
      assert forall k :: 0 <= k < |deps| - 1 ==> deps[..|deps| - 1][k] == deps[k];
    }
  }

  /** Every dependency's name is in the table; the table sends every dependency to its own file exactly
      when no name stands for two files. */
  lemma NamesCoverDependencies(deps: seq<Dependency>, targetOf: map<string, Path>)
    requires TableOf(deps, targetOf)
    ensures forall d :: d in deps ==> d.name in targetOf
    ensures (forall d :: d in deps ==> d.name in targetOf && targetOf[d.name] == d.path)
            <==> (forall d, e :: d in deps && e in deps && d.name == e.name ==> d.path == e.path)
  {
    forall d | d in deps
      ensures d.name in targetOf && Dependency(d.name, targetOf[d.name]) in deps
    {
      FirstTargetListed(deps, d.name);
    }
  }

  // ----- registration by name -----

  /** The strings that reach each module, in the order of the slots. */
  ghost predicate Groups(modules: seq<Module>, slots: seq<string>, targetOf: map<string, Path>,
                         strings: map<nat, seq<string>>) {
    && (forall id :: id in strings ==> id < |modules| && strings[id] != [])
    && (forall id, name :: id in strings && name in strings[id] ==>
          name in slots && name in targetOf && modules[id].path == targetOf[name])
    && (forall name :: name in slots ==> Reached(modules, targetOf, strings, name))
  }

  ghost predicate Reached(modules: seq<Module>, targetOf: map<string, Path>, strings: map<nat, seq<string>>,
                          name: string) {
    exists id :: id in strings && id < |modules| && name in strings[id]
  }

  method PathTable(modules: seq<Module>) returns (pathToId: map<Path, nat>)
    requires forall i, j :: 0 <= i < j < |modules| ==> modules[i].path != modules[j].path
    ensures forall p :: p in pathToId ==> pathToId[p] < |modules| && modules[pathToId[p]].path == p
    ensures forall i :: 0 <= i < |modules| ==> modules[i].path in pathToId
  {
    pathToId := map[];
    for i := 0 to |modules|
      invariant forall p :: p in pathToId ==> pathToId[p] < i && modules[pathToId[p]].path == p
      invariant forall j :: 0 <= j < i ==> modules[j].path in pathToId
    {
      pathToId := pathToId[modules[i].path := i];
    }
  }

  lemma NoGroups(modules: seq<Module>, targetOf: map<string, Path>)
    ensures Groups(modules, [], targetOf, map[])
  {
  }

  lemma GroupGrows(modules: seq<Module>, slots: seq<string>, targetOf: map<string, Path>, before: map<nat, seq<string>>,
                   name: string, id: nat)
    requires Groups(modules, slots, targetOf, before)
    requires id < |modules| && name in targetOf && modules[id].path == targetOf[name]
    ensures Groups(modules, slots + [name], targetOf, before[id := (if id in before then before[id] else []) + [name]])
  {
    var strings := before[id := (if id in before then before[id] else []) + [name]];
    forall n | n in slots + [name]
      ensures Reached(modules, targetOf, strings, n)
    {
      if n == name {
        assert n in strings[id];
      } else {
        assert Reached(modules, targetOf, before, n);
        var k :| k in before && k < |modules| && n in before[k];
        assert n in strings[k];
      }
    }
  }

  method GroupNames(modules: seq<Module>, slots: seq<string>, targetOf: map<string, Path>)
    returns (strings: map<nat, seq<string>>)
    requires forall i, j :: 0 <= i < j < |modules| ==> modules[i].path != modules[j].path
    requires forall name :: name in slots ==>
               name in targetOf && exists j :: 0 <= j < |modules| && modules[j].path == targetOf[name]
    ensures Groups(modules, slots, targetOf, strings)
  {
    var pathToId := PathTable(modules);
    strings := map[];
    hide Groups;
    NoGroups(modules, targetOf);
    for i := 0 to |slots|
      invariant Groups(modules, slots[..i], targetOf, strings)
    {
      assert slots[i] in slots;
      var id := pathToId[targetOf[slots[i]]];
      GroupGrows(modules, slots[..i], targetOf, strings, slots[i], id);
      assert slots[..i] + [slots[i]] == slots[..i + 1];
      var group := if id in strings then strings[id] else [];
      strings := strings[id := group + [slots[i]]];
    }
    assert slots[..|slots|] == slots;
  }

  /** The assignments of the bundle: a module's first string gets its function, every further one is an
      alias of the first; the entry's strings come last. */
  method RegisterNames(modules: seq<Module>, order: seq<nat>, entry: nat, strings: map<nat, seq<string>>)
    returns (table: map<string, nat>)
    requires Graph(modules, order, entry)
    requires forall id :: id in strings ==> id < |modules| && strings[id] != []
    requires forall a, b, name :: a in strings && b in strings && name in strings[a] && name in strings[b] ==> a == b
    ensures forall id, name :: id in strings && name in strings[id] ==> name in table && table[name] == id
  {
    table := map[];
    for i := 0 to |order|
      invariant forall j :: 0 <= j < i && order[j] != entry ==> Registered(strings, table, order[j])
    {
      var id := order[i];
      if id != entry && id in strings {
        ghost var before := table;
        table := RegisterModule(strings, table, id);
        forall j | 0 <= j < i && order[j] != entry
          ensures Registered(strings, table, order[j])
        {
          assert Registered(strings, before, order[j]);
        }
      }
    }
    if entry in strings {
      ghost var before := table;
      for a := 0 to |strings[entry]|
        invariant forall name :: name in strings[entry][..a] ==> name in table && table[name] == entry
        invariant forall name :: name !in strings[entry] && name in before ==>
                    name in table && table[name] == before[name]
      {
        table := table[strings[entry][a] := entry];
      }
      assert strings[entry][..|strings[entry]|] == strings[entry];
    }
    forall id, name | id in strings && name in strings[id]
      ensures name in table && table[name] == id
    {
      assert id in order;
      if id != entry {
        assert entry in strings ==> name !in strings[entry];
      }
    }
  }

  predicate Registered(strings: map<nat, seq<string>>, table: map<string, nat>, id: nat) {
    id in strings ==> forall name :: name in strings[id] ==> name in table && table[name] == id
  }

  method RegisterModule(strings: map<nat, seq<string>>, before: map<string, nat>, id: nat)
    returns (table: map<string, nat>)
    requires id in strings && strings[id] != []
    ensures Registered(strings, table, id)
    ensures forall name :: name !in strings[id] && name in before ==> name in table && table[name] == before[name]
  {
    var first := strings[id][0];
    table := before[first := id];
    for a := 1 to |strings[id]|
      invariant first in table && table[first] == id
      invariant forall name :: name in strings[id][..a] ==> name in table && table[name] == id
      invariant forall name :: name !in strings[id] && name in before ==> name in table && table[name] == before[name]
    {
      table := table[strings[id][a] := table[first]];
    }
    assert strings[id][..|strings[id]|] == strings[id];
  }

  /** By name, all together: every rewritten require of every module names a string that has been given a
      function before the entry is called, that of the file the first dependency of that name resolves to.
      It is each require's own file if and only if no name stands for two files. */
  method RegisterByName(g: DependencyGraph) returns (table: map<string, nat>)
    requires Graph(g.modules, g.order, g.entry)
    ensures forall i, k :: 0 <= i < |g.modules| && 0 <= k < |g.modules[i].dependencies| ==>
              var name := g.modules[i].dependencies[k].name;
              name in table && table[name] < |g.modules|
              && Some(g.modules[table[name]].path) == FirstTarget(DependenciesOf(g.modules, g.order), name)
    ensures (forall i, k :: 0 <= i < |g.modules| && 0 <= k < |g.modules[i].dependencies| ==>
               var d := g.modules[i].dependencies[k];
               d.name in table && table[d.name] < |g.modules| && g.modules[table[d.name]].path == d.path)
            <==> Unambiguous(g.modules)
  {
    var slots, targetOf := NameSlots(g.modules, g.order, g.entry);
    ghost var deps := DependenciesOf(g.modules, g.order);
    forall name | name in slots
      ensures name in targetOf && exists j :: 0 <= j < |g.modules| && g.modules[j].path == targetOf[name]
    {
      FirstTargetListed(deps, name);
      ListedIsDependency(g.modules, g.order, Dependency(name, targetOf[name]));
    }
    var strings := GroupNames(g.modules, slots, targetOf);
    GroupsApart(g, slots, targetOf, strings);
    table := RegisterNames(g.modules, g.order, g.entry, strings);
    hide Graph, Groups, TableOf, Unambiguous;
    forall i, k | 0 <= i < |g.modules| && 0 <= k < |g.modules[i].dependencies|
      ensures var name := g.modules[i].dependencies[k].name;
              name in table && table[name] < |g.modules| && name in targetOf
              && g.modules[table[name]].path == targetOf[name] && FirstTarget(deps, name) == Some(targetOf[name])
    {
      DependencyReached(g, slots, targetOf, strings, table, i, k);
    }
    OwnFilesIff(g, targetOf);
  }

  lemma NameInTable(deps: seq<Dependency>, targetOf: map<string, Path>, d: Dependency)
    requires TableOf(deps, targetOf) && d in deps
    ensures d.name in targetOf && FirstTarget(deps, d.name) == Some(targetOf[d.name])
  {
    FirstTargetListed(deps, d.name);
    hide FirstTarget;
    var k :| 0 <= k < |deps| && deps[k] == d;
    assert deps[k].name == d.name;
  }

  lemma NameReached(modules: seq<Module>, slots: seq<string>, targetOf: map<string, Path>,
                    strings: map<nat, seq<string>>, table: map<string, nat>, name: string)
    requires Groups(modules, slots, targetOf, strings) && name in slots && name in targetOf
    requires forall id, n :: id in strings && n in strings[id] ==> n in table && table[n] == id
    ensures name in table && table[name] < |modules| && modules[table[name]].path == targetOf[name]
  {
    assert Reached(modules, targetOf, strings, name);
    var id :| id in strings && id < |modules| && name in strings[id];
    assert table[name] == id;
  }

  lemma GroupsApart(g: DependencyGraph, slots: seq<string>, targetOf: map<string, Path>, strings: map<nat, seq<string>>)
    requires Graph(g.modules, g.order, g.entry) && Groups(g.modules, slots, targetOf, strings)
    ensures forall id :: id in strings ==> id < |g.modules| && strings[id] != []
    ensures forall a, b, name :: a in strings && b in strings && name in strings[a] && name in strings[b] ==> a == b
  {
    forall a, b, name | a in strings && b in strings && name in strings[a] && name in strings[b]
      ensures a == b
    {
      assert g.modules[a].path == targetOf[name] && g.modules[b].path == targetOf[name];
    }
  }

  lemma DependencyReached(g: DependencyGraph, slots: seq<string>, targetOf: map<string, Path>,
                          strings: map<nat, seq<string>>, table: map<string, nat>, i: nat, k: nat)
    requires Graph(g.modules, g.order, g.entry) && Groups(g.modules, slots, targetOf, strings)
    requires TableOf(DependenciesOf(g.modules, g.order), targetOf)
    requires forall name :: name in slots <==> name in targetOf
    requires forall id, name :: id in strings && name in strings[id] ==> name in table && table[name] == id
    requires i < |g.modules| && k < |g.modules[i].dependencies|
    ensures var name := g.modules[i].dependencies[k].name;
            && name in table && table[name] < |g.modules| && name in targetOf
            && g.modules[table[name]].path == targetOf[name]
            && FirstTarget(DependenciesOf(g.modules, g.order), name) == Some(targetOf[name])
  {
    hide FirstTarget, DependenciesOf, TableOf, Groups;
    var name := g.modules[i].dependencies[k].name;
    EveryDependencyListed(g, i, k);
    NameInTable(DependenciesOf(g.modules, g.order), targetOf, g.modules[i].dependencies[k]);
    NameReached(g.modules, slots, targetOf, strings, table, name);
  }

  /** No name resolves to two files, wherever it is required. */
  predicate Unambiguous(modules: seq<Module>) {
    forall i, k, j, l :: 0 <= i < |modules| && 0 <= k < |modules[i].dependencies|
                         && 0 <= j < |modules| && 0 <= l < |modules[j].dependencies|
                         && modules[i].dependencies[k].name == modules[j].dependencies[l].name ==>
                         modules[i].dependencies[k].path == modules[j].dependencies[l].path
  }

  lemma EveryDependencyListed(g: DependencyGraph, i: nat, k: nat)
    requires Graph(g.modules, g.order, g.entry) && i < |g.modules| && k < |g.modules[i].dependencies|
    ensures g.modules[i].dependencies[k] in DependenciesOf(g.modules, g.order)
  {
    assert i in g.order;
    var at :| 0 <= at < |g.order| && g.order[at] == i;
    DependencyListed(g.modules, g.order, at, k);
  }

  lemma {:induction false} ListedIsDependency(modules: seq<Module>, order: seq<nat>, d: Dependency)
    requires forall j :: 0 <= j < |order| ==> order[j] < |modules|
    requires d in DependenciesOf(modules, order)
    ensures exists i, k :: 0 <= i < |modules| && 0 <= k < |modules[i].dependencies| && modules[i].dependencies[k] == d
    decreases |order|
  {
    var last := order[|order| - 1];
    if d in modules[last].dependencies {
      var k :| 0 <= k < |modules[last].dependencies| && modules[last].dependencies[k] == d;
    } else {
      ListedIsDependency(modules, order[..|order| - 1], d);
    }
  }

  lemma OwnFilesIff(g: DependencyGraph, targetOf: map<string, Path>)
    requires Graph(g.modules, g.order, g.entry) && TableOf(DependenciesOf(g.modules, g.order), targetOf)
    ensures (forall i, k :: 0 <= i < |g.modules| && 0 <= k < |g.modules[i].dependencies| ==>
               var d := g.modules[i].dependencies[k]; d.name in targetOf && targetOf[d.name] == d.path)
            <==> Unambiguous(g.modules)
  {
    var deps := DependenciesOf(g.modules, g.order);
    forall i, k | 0 <= i < |g.modules| && 0 <= k < |g.modules[i].dependencies|
      ensures var d := g.modules[i].dependencies[k];
              d.name in targetOf && (Unambiguous(g.modules) ==> targetOf[d.name] == d.path)
    {
      var d := g.modules[i].dependencies[k];
      EveryDependencyListed(g, i, k);
      FirstTargetListed(deps, d.name);
      ListedIsDependency(g.modules, g.order, Dependency(d.name, targetOf[d.name]));
    }
  }

  // ----- a prefix that occurs in no source -----

  predicate Occurs(s: string, part: string) { exists i :: 0 <= i <= |s| && OccursAt(s, part, i) }

  predicate OccursAt(s: string, part: string, i: int) { 0 <= i <= |s| - |part| && s[i..i + |part|] == part }

  function Decimal(n: nat): string {
    var last := [('0' as int + n % 10) as char];
    if n < 10 then last else Decimal(n / 10) + last
  }

  function Candidate(n: nat): string { if n == 0 then "__luck_" else "__luck" + Decimal(n) + "_" }

  function Power(n: nat): (r: nat)
    ensures r >= 1
  {
    if n == 0 then 1 else 10 * Power(n - 1)
  }

  /** A number of at least `10^k` has more than `k` digits. */
  lemma {:induction false} DecimalGrows(n: nat, k: nat)
    requires Power(k) <= n
    ensures k < |Decimal(n)|
    decreases k
  {
    if k > 0 {
      DecimalGrows(n / 10, k - 1);
    }
  }

  function Longest(sources: seq<string>): (r: nat)
    ensures forall i :: 0 <= i < |sources| ==> |sources[i]| <= r
  {
    if sources == [] then 0
    else
      var rest := Longest(sources[1..]);
      if rest < |sources[0]| then |sources[0]| else rest
  }

  predicate Taken(sources: seq<string>, candidate: string) {
    exists i :: 0 <= i < |sources| && Occurs(sources[i], candidate)
  }

  /** A candidate longer than every source occurs in none. */
  lemma LateCandidateIsFree(sources: seq<string>, n: nat)
    requires Power(Longest(sources)) <= n
    ensures !Taken(sources, Candidate(n))
  {
    DecimalGrows(n, Longest(sources));
  }

  /** The first candidate that occurs in no source. */
  method ChoosePrefix(sources: seq<string>) returns (prefix: string, ghost n: nat)
    ensures prefix == Candidate(n) && !Taken(sources, prefix)
    ensures forall m :: 0 <= m < n ==> Taken(sources, Candidate(m))
    ensures n <= Power(Longest(sources))
  {
    prefix := "__luck_";
    var counter: nat := 0;
    n := 0;
    LateCandidateIsFree(sources, Power(Longest(sources)));
    while Taken(sources, prefix)
      invariant prefix == Candidate(counter) && counter <= Power(Longest(sources))
      invariant forall m :: 0 <= m < counter ==> Taken(sources, Candidate(m))
      decreases Power(Longest(sources)) - counter
    {
      counter := counter + 1;
      prefix := "__luck" + Decimal(counter) + "_";
    }
    n := counter;
  }
}
