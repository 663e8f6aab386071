/** The packages to install for the ones asked for: them, and everything they require that the
    image does not provide yet. Requirements and provisions are the names of their entries. */
module InstallClosure {
  import opened Wrappers

  datatype Package = Package(name: string, file: string, offers: seq<string>, needs: seq<string>)

  /** A dictionary of packages by name, in the order its names were first put in. */
  datatype Repo = Repo(order: seq<string>, info: map<string, Package>) {

    ghost predicate Valid() {
      (forall i | 0 <= i < |order| :: order[i] in info) && (forall name | name in info :: name in order)
    }
  }

  /** The image's names, the two repositories, and the main package of each port built. */
  datatype World = World(packages: Repo, system: Repo, image: set<string>, built: map<string, string>) {

    ghost predicate Valid() {
      packages.Valid() && system.Valid() && forall port | port in built :: built[port] in packages.info
    }

    predicate Known(name: string) {
      name in packages.info || name in system.info
    }

    function Info(name: string): Package
      requires Known(name)
    {
      if name in packages.info then packages.info[name] else system.info[name]
    }

    /** The image has a package of this name, or one that provides it. */
    ghost predicate Present(entry: string) {
      || entry in image
      || (exists name | name in system.info && name in image :: entry in system.info[name].offers)
      || (exists name | name in packages.info && name in image :: entry in packages.info[name].offers)
    }

    /** A built package before a system one. */
    function Provider(entry: string): (r: Option<string>)
      requires Valid()
      ensures r.Some? ==> Known(r.value)
    {
      var built := First(packages, packages.order, entry);
      if built.Some? then built else First(system, system.order, entry)
    }

    ghost predicate Requires(name: string, entry: string) {
      Known(name) && entry in Info(name).needs && !Present(entry)
    }

    /** Installing name asks for other. */
    ghost predicate Edge(name: string, other: string)
      requires Valid()
    {
      exists entry | Requires(name, entry) :: Provider(entry) == Some(other)
    }

    ghost predicate Lacks(name: string, entry: string)
      requires Valid()
    {
      Requires(name, entry) && Provider(entry).None?
    }
  }

  predicate Gives(package: Package, name: string, entry: string) {
    entry in package.offers || entry == name
  }

  /** The first of these packages that provides an entry, each also providing its own name. */
  function First(repo: Repo, names: seq<string>, entry: string): (r: Option<string>)
    requires forall i | 0 <= i < |names| :: names[i] in repo.info
    ensures r.None? ==> forall i | 0 <= i < |names| :: !Gives(repo.info[names[i]], names[i], entry)
    ensures r.Some? ==> exists i | 0 <= i < |names| ::
      && names[i] == r.value && Gives(repo.info[names[i]], names[i], entry)
      && forall j | 0 <= j < i :: !Gives(repo.info[names[j]], names[j], entry)
  {
    if names == [] then None
    else
      var n := |names| - 1;
      var before := First(repo, names[..n], entry);
      if before.Some? then before
      else if Gives(repo.info[names[n]], names[n], entry) then Some(names[n])
      else None
  }

  // -- reading a repository

  /** Of two files of one name the later is kept. */
  method ReadRepo(files: seq<Package>) returns (repo: Repo)
    ensures repo.Valid()
    ensures forall i | 0 <= i < |files| :: files[i].name in repo.info
    ensures forall name | name in repo.info :: exists i | 0 <= i < |files| ::
      && files[i] == repo.info[name] && files[i].name == name
      && forall j | i < j < |files| :: files[j].name != name
  {
    repo := Repo([], map[]);
    for k := 0 to |files|
      invariant repo.Valid()
      invariant forall i | 0 <= i < k :: files[i].name in repo.info
      invariant forall name | name in repo.info :: exists i | 0 <= i < k ::
        && files[i] == repo.info[name] && files[i].name == name
        && forall j | i < j < k :: files[j].name != name
    {
      var f := files[k];
      repo := Repo(if f.name in repo.info then repo.order else repo.order + [f.name], repo.info[f.name := f]);
    }
  }

  /** Who provides each entry: setdefault keeps the first. */
  method ProvidesOf(repo: Repo) returns (table: map<string, string>)
    requires repo.Valid()
    ensures forall entry :: Holds(table, entry, First(repo, repo.order, entry))
  {
    table := map[];
    for k := 0 to |repo.order|
      invariant forall entry :: Holds(table, entry, First(repo, repo.order[..k], entry))
    {
      var name := repo.order[k];
      var entries := repo.info[name].offers + [name];
      ghost var was := table;
      for e := 0 to |entries|
        invariant forall entry :: Holds(table, entry,
          if entry in was then Some(was[entry]) else if entry in entries[..e] then Some(name) else None)
      {
        if entries[e] !in table {
          table := table[entries[e] := name];
        }
      }
      assert repo.order[..k + 1][..k] == repo.order[..k];
      assert entries[..|entries|] == entries;
    }
    assert repo.order[..|repo.order|] == repo.order;
  }

  ghost predicate Holds(table: map<string, string>, entry: string, value: Option<string>) {
    if value.Some? then entry in table && table[entry] == value.value else entry !in table
  }

  /** Everything the image provides. */
  method InImage(w: World) returns (present: set<string>)
    requires w.Valid()
    ensures forall entry :: entry in present <==> w.Present(entry)
  {
    present := w.image;
    present := AddProvided(w.system, w.image, present);
    present := AddProvided(w.packages, w.image, present);
  }

  method AddProvided(repo: Repo, image: set<string>, present: set<string>) returns (r: set<string>)
    requires repo.Valid()
    ensures forall entry :: entry in r <==>
      entry in present || exists name | name in repo.info && name in image :: entry in repo.info[name].offers
  {
    r := present;
    for k := 0 to |repo.order|
      invariant forall entry :: entry in r <==>
        entry in present || exists i | 0 <= i < k && repo.order[i] in image :: entry in repo.info[repo.order[i]].offers
    {
      var name := repo.order[k];
      if name in image {
        r := r + set p | p in repo.info[name].offers;
      }
    }
  }

  // -- what is asked for

  datatype Error = NothingBuilt(spec: string) | NothingProvides(name: string, entry: string)

  /** A package, or the main package of a port that was built. */
  function RootOf(w: World, spec: string): Option<string> {
    if w.Known(spec) then Some(spec) else if spec in w.built then Some(w.built[spec]) else None
  }

  method Roots(w: World, specs: seq<string>) returns (r: Result<seq<string>, Error>)
    ensures r.Success? ==> |r.value| == |specs| && forall i | 0 <= i < |specs| ::
      RootOf(w, specs[i]) == Some(r.value[i])
    ensures r.Failure? ==> exists i | 0 <= i < |specs| :: RootOf(w, specs[i]).None? && r.error == NothingBuilt(specs[i])
  {
    var todo: seq<string> := [];
    for i := 0 to |specs|
      invariant |todo| == i && forall k | 0 <= k < i :: RootOf(w, specs[k]) == Some(todo[k])
    {
      var root := RootOf(w, specs[i]);
      if root.None? {
        return Failure(NothingBuilt(specs[i]));
      }
      todo := todo + [root.value];
    }
    r := Success(todo);
  }

  // -- what that needs

  /** A set that holds the roots and whatever its members ask for. */
  ghost predicate Closed(w: World, roots: seq<string>, s: set<string>)
    requires w.Valid()
  {
    && (forall root | root in roots :: root in s)
    && forall name, other | name in s && w.Edge(name, other) :: other in s
  }

  /** In every such set, so in the least of them. */
  ghost predicate Needed(w: World, roots: seq<string>, name: string)
    requires w.Valid()
  {
    forall s | Closed(w, roots, s) :: name in s
  }

  ghost predicate Chain(w: World, roots: seq<string>, path: seq<string>)
    requires w.Valid()
  {
    path != [] && path[0] in roots && forall i, j | 0 <= i < j < |path| && j == i + 1 :: w.Edge(path[i], path[j])
  }

  lemma {:induction false} ChainIsNeeded(w: World, roots: seq<string>, path: seq<string>)
    requires w.Valid() && Chain(w, roots, path)
    ensures Needed(w, roots, path[|path| - 1])
    decreases |path|
  {
    var n := |path| - 1;
    if n > 0 {
      assert Chain(w, roots, path[..n]);
      ChainIsNeeded(w, roots, path[..n]);
      assert w.Edge(path[n - 1], path[n]);
    }
  }

  ghost predicate Reached(w: World, roots: seq<string>, name: string)
    requires w.Valid()
  {
    exists path :: Chain(w, roots, path) && path[|path| - 1] == name
  }

  lemma {:induction false} ReachedStep(w: World, roots: seq<string>, name: string, other: string)
    requires w.Valid() && Reached(w, roots, name) && w.Edge(name, other)
    ensures Reached(w, roots, other)
  {
    var path :| Chain(w, roots, path) && path[|path| - 1] == name;
    var longer := path + [other];
    assert Chain(w, roots, longer) && longer[|longer| - 1] == other;
  }

  /** The least closed set is what chains of requirements reach. */
  lemma {:induction false} NeededIsReached(w: World, roots: seq<string>, name: string)
    requires w.Valid() && forall root | root in roots :: w.Known(root)
    ensures Needed(w, roots, name) <==> Reached(w, roots, name)
  {
    if Reached(w, roots, name) {
      var path :| Chain(w, roots, path) && path[|path| - 1] == name;
      ChainIsNeeded(w, roots, path);
    }
    if Needed(w, roots, name) {
      var s := set x | x in w.packages.info.Keys + w.system.info.Keys && Reached(w, roots, x);
      ReachedIsClosed(w, roots, s);
    }
  }

  lemma {:induction false} ReachedIsClosed(w: World, roots: seq<string>, s: set<string>)
    requires w.Valid() && forall root | root in roots :: w.Known(root)
    requires s == set x | x in w.packages.info.Keys + w.system.info.Keys && Reached(w, roots, x)
    ensures Closed(w, roots, s)
  {
    forall root | root in roots
      ensures root in s
    {
      assert Chain(w, roots, [root]);
    }
    forall x, y | x in s && w.Edge(x, y)
      ensures y in s
    {
      ReachedStep(w, roots, x, y);
    }
  }

  ghost predicate Distinct(s: seq<string>) {
    forall i, j | 0 <= i < j < |s| :: s[i] != s[j]
  }

  /** Each one asked for, or required by one before it. */
  ghost predicate Justified(w: World, roots: seq<string>, closure: seq<string>)
    requires w.Valid()
  {
    forall i | 0 <= i < |closure| :: closure[i] in roots || exists j | 0 <= j < i :: w.Edge(closure[j], closure[i])
  }

  /** The packages, without duplicates: exactly those needed, unless one of them requires
      something that nothing provides. */
  ghost predicate Answers(w: World, roots: seq<string>, r: Result<seq<string>, Error>)
    requires w.Valid()
  {
    match r
    case Success(closure) =>
      && Distinct(closure) && Justified(w, roots, closure)
      && (forall name :: name in closure <==> Needed(w, roots, name))
      && forall name, entry | Needed(w, roots, name) :: !w.Lacks(name, entry)
    case Failure(NothingProvides(name, entry)) => Needed(w, roots, name) && w.Lacks(name, entry)
    case Failure(NothingBuilt(_)) => false
  }

  /** What one package asks for, or the first of its requirements that nothing provides. */
  method Expand(w: World, name: string, present: set<string>, built: map<string, string>, base: map<string, string>)
    returns (r: Result<seq<string>, Error>)
    requires w.Valid() && w.Known(name) && forall entry :: entry in present <==> w.Present(entry)
    requires forall entry :: Holds(built, entry, First(w.packages, w.packages.order, entry))
    requires forall entry :: Holds(base, entry, First(w.system, w.system.order, entry))
    ensures r.Success? ==>
      (forall other :: other in r.value <==> w.Edge(name, other)) && forall entry :: !w.Lacks(name, entry)
    ensures r.Failure? ==> exists entry :: w.Lacks(name, entry) && r.error == NothingProvides(name, entry)
  {
    var more: seq<string> := [];
    var needs := w.Info(name).needs;
    for k := 0 to |needs|
      invariant forall other | other in more :: w.Edge(name, other)
      invariant forall i | 0 <= i < k && !w.Present(needs[i]) ::
        var to := w.Provider(needs[i]);
        to.Some? && to.value in more
    {
      var entry := needs[k];
      if entry !in present {
        assert w.Requires(name, entry);
        assert Holds(built, entry, First(w.packages, w.packages.order, entry));
        if entry in built {
          more := more + [built[entry]];
        } else if entry in base {
          more := more + [base[entry]];
        } else {
          assert w.Lacks(name, entry);
          return Failure(NothingProvides(name, entry));
        }
      }
    }
    r := Success(more);
  }

  /** Between two rounds of the worklist. */
  ghost predicate Progress(w: World, roots: seq<string>, closure: seq<string>, todo: seq<string>)
    requires w.Valid()
  {
    && Distinct(closure) && Justified(w, roots, closure)
    && (forall name | name in closure || name in todo :: w.Known(name) && Needed(w, roots, name))
    && (forall name | name in todo :: name in roots || AskedFor(w, closure, name))
    && (forall root | root in roots :: root in closure || root in todo)
    && (forall name, other | name in closure && w.Edge(name, other) :: other in closure || other in todo)
    && forall name, entry | name in closure :: !w.Lacks(name, entry)
  }

  ghost predicate AskedFor(w: World, closure: seq<string>, name: string)
    requires w.Valid()
  {
    exists j | 0 <= j < |closure| :: w.Edge(closure[j], name)
  }

  lemma {:induction false} Skipped(w: World, roots: seq<string>, closure: seq<string>, todo: seq<string>)
    requires w.Valid() && todo != [] && todo[0] in closure && Progress(w, roots, closure, todo)
    ensures Progress(w, roots, closure, todo[1..])
  {
    assert todo == [todo[0]] + todo[1..];
  }

  lemma {:induction false} Expanded(w: World, roots: seq<string>, closure: seq<string>, todo: seq<string>,
                                    more: seq<string>)
    requires w.Valid() && todo != [] && todo[0] !in closure && Progress(w, roots, closure, todo)
    requires (forall other :: other in more <==> w.Edge(todo[0], other)) && forall entry :: !w.Lacks(todo[0], entry)
    ensures Progress(w, roots, closure + [todo[0]], todo[1..] + more)
  {
    var name := todo[0];
    var after := closure + [name];
    assert todo == [name] + todo[1..];
    assert Justified(w, roots, after) by {
      forall i | 0 <= i < |after|
        ensures after[i] in roots || exists j | 0 <= j < i :: w.Edge(after[j], after[i])
      {
        if i == |closure| && name !in roots {
          var j :| 0 <= j < |closure| && w.Edge(closure[j], name);
          assert after[j] == closure[j];
        } else if i < |closure| && closure[i] !in roots {
          var j :| 0 <= j < i && w.Edge(closure[j], closure[i]);
          assert after[j] == closure[j];
        }
      }
    }
    forall x | x in todo[1..] + more && x !in roots
      ensures AskedFor(w, after, x)
    {
      if x in more {
        assert w.Edge(after[|closure|], x);
      } else {
        var j :| 0 <= j < |closure| && w.Edge(closure[j], x);
        assert after[j] == closure[j];
      }
    }
    forall x | x in more
      ensures w.Known(x) && Needed(w, roots, x)
    {
      assert w.Edge(name, x);
    }
  }

  lemma {:induction false} Finished(w: World, roots: seq<string>, closure: seq<string>)
    requires w.Valid() && Progress(w, roots, closure, [])
    ensures Answers(w, roots, Success(closure))
  {
    var s := set name | name in closure;
    assert Closed(w, roots, s);
  }

  lemma {:induction false} OneMore(names: set<string>, closure: seq<string>, name: string)
    requires name in names && name !in closure
    ensures |names - set x | x in closure + [name]| < |names - set x | x in closure|
  {
    var left := names - set x | x in closure;
    assert names - (set x | x in closure + [name]) == left - {name};
  }

  method Close(w: World, roots: seq<string>) returns (r: Result<seq<string>, Error>)
    requires w.Valid() && forall root | root in roots :: w.Known(root)
    ensures Answers(w, roots, r)
  {
    var built := ProvidesOf(w.packages);
    var base := ProvidesOf(w.system);
    var present := InImage(w);
    var todo, closure: seq<string> := roots, [];
    ghost var names := w.packages.info.Keys + w.system.info.Keys;
    while todo != []
      invariant Progress(w, roots, closure, todo)
      decreases |names - set x | x in closure|, |todo|
    {
      var name := todo[0];
      if name in closure {
        Skipped(w, roots, closure, todo);
        todo := todo[1..];
      } else {
        var more := Expand(w, name, present, built, base);
        if more.Failure? {
          return more;
        }
        Expanded(w, roots, closure, todo, more.value);
        OneMore(names, closure, name);
        closure, todo := closure + [name], todo[1..] + more.value;
      }
    }
    Finished(w, roots, closure);
    r := Success(closure);
  }

  /** The files to install. */
  method Closure(w: World, specs: seq<string>) returns (r: Result<seq<string>, Error>)
    requires w.Valid()
    ensures (exists i | 0 <= i < |specs| :: RootOf(w, specs[i]).None?) <==> r.Failure? && r.error.NothingBuilt?
    ensures !(r.Failure? && r.error.NothingBuilt?) ==> exists roots, closure ::
      && |roots| == |specs| && (forall i | 0 <= i < |specs| :: RootOf(w, specs[i]) == Some(roots[i]))
      && Answers(w, roots, closure)
      && match r
         case Success(files) =>
           && closure.Success? && |files| == |closure.value|
           && forall i | 0 <= i < |files| :: w.Known(closure.value[i]) && files[i] == w.Info(closure.value[i]).file
         case Failure(error) => closure == Failure(error)
  {
    var roots :- Roots(w, specs);
    var closure :- Close(w, roots);
    var files: seq<string> := [];
    for i := 0 to |closure|
      invariant |files| == i && forall k | 0 <= k < i :: w.Known(closure[k]) && files[k] == w.Info(closure[k]).file
    {
      files := files + [w.Info(closure[i]).file];
    }
    r := Success(files);
  }

  /** So a list of packages is what is returned exactly when everything needed can be had. */
  lemma {:induction false} FailsExactlyWhenLacking(w: World, roots: seq<string>, r: Result<seq<string>, Error>)
    requires w.Valid() && Answers(w, roots, r)
    ensures r.Failure? <==> exists name, entry :: Needed(w, roots, name) && w.Lacks(name, entry)
  {
  }
}
