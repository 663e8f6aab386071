/** Building a port and what it needs first: a recursion over any graph of requirements, cyclic
    or not, with what failed and what is under way remembered. */
module Building {
  import opened Wrappers
  import opened Providers

  /** What does not change in a run. works: the ports, by name and full version, whose sources
      are fetched and whose phases and packaging succeed. resumed: those with sources to resume. */
  datatype World = World(recipes: map<string, seq<Recipe>>, index: map<string, seq<Candidate>>, base: set<string>,
                         works: set<(string, string)>, resumed: set<string>, forceAll: bool, forceArch: bool)

  datatype Status = Status(built: bool, version: string)

  datatype Port = Port(name: string, recipe: Recipe)

  datatype BuildError =
    | NoRecipe(name: string)
    | NothingProvides(entry: string)
    | EarlierFailure(name: string)
    | Cycle(path: seq<string>)
    | MarkedBroken(name: string)
    | UnbuiltPackage(name: string, entry: string)
    | NoSuchFile(file: Hpkg)
    | PhaseFailed(name: string)
    | PortFailed(name: string, cause: BuildError)

  /** A port by name, and by version or the newest. */
  function FindPort(w: World, name: string, version: Option<string>): (r: Result<Port, BuildError>)
    ensures r.Success? ==> r.value.name == name && name in w.recipes && r.value.recipe in w.recipes[name]
    ensures r.Success? && version.Some? ==> FirstOf(w.recipes[name], version.value, r.value.recipe)
    ensures r.Success? && version.None? ==> IsNewest(w.recipes[name], r.value.recipe)
    ensures r.Failure? ==> r.error == NoRecipe(name) && (name in w.recipes ==>
      w.recipes[name] == [] || (version.Some? && forall recipe | recipe in w.recipes[name] ::
        recipe.version != version.value))
  {
    if name !in w.recipes || w.recipes[name] == [] then Failure(NoRecipe(name))
    else if version.None? then Success(Port(name, Newest(w.recipes[name])))
    else
      var recipe := OfVersion(w.recipes[name], version.value);
      if recipe.None? then Failure(NoRecipe(name)) else Success(Port(name, recipe.value))
  }

  predicate InRecipes(w: World, port: Port) {
    port.name in w.recipes && port.recipe in w.recipes[port.name]
  }

  ghost predicate Distinct(s: seq<string>) {
    forall i, j | 0 <= i < j < |s| :: s[i] != s[j]
  }

  // -- what a sysroot holds

  ghost predicate IsFileOf(w: World, c: Candidate, recipe: Recipe, file: Hpkg) {
    && c.name in w.recipes && recipe in w.recipes[c.name] && recipe.version == c.version
    && recipe.FileOf(c.suffix) == Some(file)
  }

  ghost predicate Provides(w: World, entry: string, file: Hpkg) {
    entry in w.index && exists c, recipe | c in w.index[entry] :: IsFileOf(w, c, recipe, file)
  }

  /** An entry the base system has, or a candidate's package that is activated. */
  ghost predicate Met(w: World, activated: set<Hpkg>, entry: string) {
    entry in w.base || exists file | file in activated :: Provides(w, entry, file)
  }

  /** A port's package of a suffix. */
  datatype Dep = Dep(port: Port, suffix: string, file: Hpkg) {
    function Runtime(): seq<string> {
      port.recipe.Runtime(suffix)
    }
  }

  ghost predicate IsDep(w: World, dep: Dep) {
    InRecipes(w, dep.port) && dep.port.recipe.FileOf(dep.suffix) == Some(dep.file)
  }

  /** A file of some recipe whose runtime requirements are met or still to be looked at. */
  ghost predicate Settled(w: World, port: Port, activated: set<Hpkg>, todo: seq<string>, file: Hpkg) {
    exists dep | IsDep(w, dep) && dep.file == file ::
      forall entry | entry in dep.Runtime() && entry !in port.recipe.tools ::
        Met(w, activated, entry) || entry in todo
  }

  /** What the port requires, and what every activated package requires, is met; the
      build-time tools may be missing. */
  ghost predicate Complete(w: World, port: Port, activated: set<Hpkg>, todo: seq<string>) {
    && (forall entry | entry in port.recipe.needs && entry !in port.recipe.tools ::
          Met(w, activated, entry) || entry in todo)
    && forall file | file in activated :: Settled(w, port, activated, todo, file)
  }

  lemma {:induction false} CompleteSkips(w: World, port: Port, activated: set<Hpkg>, todo: seq<string>)
    requires todo != [] && Complete(w, port, activated, todo)
    requires Met(w, activated, todo[0]) || todo[0] in port.recipe.tools
    ensures Complete(w, port, activated, todo[1..])
  {
    assert todo == [todo[0]] + todo[1..];
    forall file | file in activated
      ensures Settled(w, port, activated, todo[1..], file)
    {
      var dep :| IsDep(w, dep) && dep.file == file
        && forall entry | entry in dep.Runtime() && entry !in port.recipe.tools ::
             Met(w, activated, entry) || entry in todo;
    }
  }

  lemma {:induction false} CompleteActivates(w: World, port: Port, activated: set<Hpkg>, todo: seq<string>,
                                             dep: Dep)
    requires todo != [] && Complete(w, port, activated, todo)
    requires Provides(w, todo[0], dep.file) && IsDep(w, dep)
    ensures Complete(w, port, activated + {dep.file}, todo[1..] + dep.Runtime())
  {
    assert todo == [todo[0]] + todo[1..];
    var now, left := activated + {dep.file}, todo[1..] + dep.Runtime();
    forall f | f in now
      ensures Settled(w, port, now, left, f)
    {
      if f in activated {
        var settled :| IsDep(w, settled) && settled.file == f
          && forall entry | entry in settled.Runtime() && entry !in port.recipe.tools ::
               Met(w, activated, entry) || entry in todo;
      }
    }
  }

  /** All the package files there could be: what bounds the worklist. */
  function FilesOf(recipe: Recipe): set<Hpkg> {
    set i | 0 <= i < |recipe.files| :: recipe.files[i].1
  }

  ghost function AllFiles(w: World): set<Hpkg> {
    set name, recipe, file | name in w.recipes && recipe in w.recipes[name] && file in FilesOf(recipe) :: file
  }

  lemma {:induction false} FileIsKnown(w: World, dep: Dep)
    requires IsDep(w, dep)
    ensures dep.file in AllFiles(w)
  {
    assert dep.file in FilesOf(dep.port.recipe);
  }

  // -- the order things are built in

  /** Every hard requirement is in the base system or provided by a port that is ready. */
  ghost predicate Supplied(w: World, port: Port, ready: set<string>) {
    forall entry | entry in port.recipe.needs && entry !in port.recipe.tools ::
      entry in w.base || SuppliedBy(w, ready, entry)
  }

  ghost predicate SuppliedBy(w: World, ready: set<string>, entry: string) {
    entry in w.index && exists c | c in w.index[entry] :: c.name in ready
  }

  ghost function Names(ports: seq<Port>): set<string> {
    set i | 0 <= i < |ports| :: ports[i].name
  }

  /** Each port built was built after ports that supply it. */
  ghost predicate InOrder(w: World, finished: seq<Port>, reused: set<string>) {
    && (forall i | 0 <= i < |finished| :: InRecipes(w, finished[i]))
    && forall i | 0 <= i < |finished| :: finished[i].name !in w.resumed ==>
         Supplied(w, finished[i], Names(finished[..i]) + reused)
  }

  /** Each of these ports has a hard requirement that only they provide: a cycle, say. */
  ghost predicate Deadlocked(w: World, names: set<string>) {
    forall port | InRecipes(w, port) && port.name in names ::
      exists entry | entry in port.recipe.needs && entry !in port.recipe.tools ::
        entry !in w.base && !SuppliedBy(w, w.recipes.Keys - names, entry)
  }

  lemma {:induction false} NotSuppliedOutside(w: World, names: set<string>, ready: set<string>, port: Port)
    requires Deadlocked(w, names) && InRecipes(w, port) && port.name in names && ready <= w.recipes.Keys - names
    ensures !Supplied(w, port, ready)
  {
    var entry :| entry in port.recipe.needs && entry !in port.recipe.tools
      && entry !in w.base && !SuppliedBy(w, w.recipes.Keys - names, entry);
    assert !SuppliedBy(w, ready, entry);
  }

  /** None of them is ever built, unless the run found one up to date or resumed one. */
  lemma {:induction false} DeadlockIsNeverBuilt(w: World, finished: seq<Port>, reused: set<string>, names: set<string>)
    requires InOrder(w, finished, reused) && Deadlocked(w, names)
    requires names !! reused && names !! w.resumed && reused <= w.recipes.Keys
    ensures names !! Names(finished)
  {
    var n := |finished| - 1;
    if n >= 0 {
      var before, port := finished[..n], finished[n];
      assert InOrder(w, before, reused) by {
        assert forall i | 0 <= i < n :: before[i] == finished[i] && before[..i] == finished[..i];
      }
      DeadlockIsNeverBuilt(w, before, reused, names);
      assert finished == before + [port];
      if port.name in names {
        NotSuppliedOutside(w, names, Names(before) + reused, port);
      }
    }
  }

  lemma {:induction false} InOrderExtends(w: World, finished: seq<Port>, reused: set<string>, port: Port)
    requires InOrder(w, finished, reused) && InRecipes(w, port)
    requires port.name in w.resumed || Supplied(w, port, Names(finished) + reused)
    ensures InOrder(w, finished + [port], reused)
    ensures Names(finished + [port]) == Names(finished) + {port.name}
  {
    var now := finished + [port];
    forall i | 0 <= i < |now| && now[i].name !in w.resumed
      ensures Supplied(w, now[i], Names(now[..i]) + reused)
    {
      assert now[..i] == finished[..i];
      assert i == |finished| ==> finished[..i] == finished;
    }
    assert now[|finished|] == port;
    forall name | name in Names(finished)
      ensures name in Names(now)
    {
      var i :| 0 <= i < |finished| && finished[i].name == name;
      assert now[i].name == name;
    }
  }

  lemma {:induction false} InOrderReuses(w: World, finished: seq<Port>, reused: set<string>, more: set<string>)
    requires InOrder(w, finished, reused) && reused <= more
    ensures InOrder(w, finished, more)
  {
  }

  ghost predicate SuppliedBut(w: World, port: Port, ready: set<string>, todo: seq<string>) {
    forall entry | entry in port.recipe.needs && entry !in port.recipe.tools ::
      entry in todo || entry in w.base || SuppliedBy(w, ready, entry)
  }

  /** The entries to be looked at were asked for, and those of the port's that were looked at went
      well. */
  ghost predicate Accounted(w: World, port: Port, building: seq<string>, activated: set<Hpkg>, todo: seq<string>) {
    && (forall entry | entry in todo :: Asked(w, port, activated, entry))
    && forall entry | entry in port.recipe.needs + port.recipe.tools ::
         entry in todo || Granted(w, port, building, entry)
  }

  lemma {:induction false} AccountedFor(w: World, port: Port, building: seq<string>, activated: set<Hpkg>,
                                        todo: seq<string>, tried: Tried)
    requires todo != [] && Accounted(w, port, building, activated, todo)
    requires TriedRight(w, todo[0], tried) && TriedBecause(w, building, tried)
    ensures Asked(w, port, activated, todo[0])
    ensures EntryOutcome(w, port, todo[0], tried).Success? ==> Accounted(w, port, building, activated, todo[1..])
  {
    assert todo == [todo[0]] + todo[1..];
    assert EntryOutcome(w, port, todo[0], tried).Success? ==> WentWell(w, port, building, todo[0], tried);
  }

  lemma {:induction false} AccountedActivates(w: World, port: Port, building: seq<string>, activated: set<Hpkg>,
                                              todo: seq<string>, dep: Dep)
    requires todo != [] && Accounted(w, port, building, activated, todo[1..]) && IsDep(w, dep)
    ensures Accounted(w, port, building, activated + {dep.file}, todo[1..] + dep.Runtime())
  {
    forall entry | entry in todo[1..] + dep.Runtime()
      ensures Asked(w, port, activated + {dep.file}, entry)
    {
      if entry in todo[1..] {
        assert Asked(w, port, activated, entry);
      }
    }
  }

  /** A provider that was built is a dependency that provides the entry. */
  lemma {:induction false} OutcomeProvides(w: World, port: Port, entry: string, tried: Tried)
    requires TriedRight(w, entry, tried)
    ensures EntryOutcome(w, port, entry, tried) == Success(None) ==> entry in w.base || entry in port.recipe.tools
    ensures var r := EntryOutcome(w, port, entry, tried);
      r.Success? && r.value.Some? ==>
        tried.Tried? && tried.result.Success? && IsDep(w, r.value.value) && Provides(w, entry, r.value.value.file)
  {
    var r := EntryOutcome(w, port, entry, tried);
    if r.Success? && r.value.Some? {
      assert IsFileOf(w, tried.candidate, r.value.value.port.recipe, r.value.value.file);
    }
  }

  /** Between two rounds of the worklist of _prepare_sysroot. */
  ghost predicate Preparing(w: World, port: Port, activated: set<Hpkg>, todo: seq<string>, ready: set<string>) {
    Complete(w, port, activated, todo) && activated <= AllFiles(w) && SuppliedBut(w, port, ready, todo)
  }

  lemma {:induction false} PreparingSkips(w: World, port: Port, activated: set<Hpkg>, todo: seq<string>,
                                          ready: set<string>, now: set<string>)
    requires todo != [] && Preparing(w, port, activated, todo, ready) && ready <= now
    requires Met(w, activated, todo[0]) || todo[0] in port.recipe.tools
    requires todo[0] in w.base || todo[0] in port.recipe.tools || SuppliedBy(w, now, todo[0])
    ensures Preparing(w, port, activated, todo[1..], now)
  {
    assert todo == [todo[0]] + todo[1..];
    CompleteSkips(w, port, activated, todo);
  }

  lemma {:induction false} PreparingActivates(w: World, port: Port, activated: set<Hpkg>, todo: seq<string>,
                                              ready: set<string>, now: set<string>, dep: Dep)
    requires todo != [] && Preparing(w, port, activated, todo, ready) && ready <= now
    requires Provides(w, todo[0], dep.file) && IsDep(w, dep) && SuppliedBy(w, now, todo[0])
    ensures Preparing(w, port, activated + {dep.file}, todo[1..] + dep.Runtime(), now)
    ensures dep.file in AllFiles(w)
  {
    assert todo == [todo[0]] + todo[1..];
    CompleteActivates(w, port, activated, todo, dep);
    FileIsKnown(w, dep);
  }

  // -- why a build fails

  /** Not in the base system, and no port's. */
  predicate Unprovided(w: World, entry: string) {
    entry !in w.base && (entry !in w.index || w.index[entry] == [])
  }

  /** The candidate whose build was asked for, and what came of it. */
  datatype Tried = NotTried | Tried(candidate: Candidate, result: Result<Port, BuildError>)

  /** The candidate chosen, for what was built by then; any will do when all are variants. */
  ghost predicate IsChoice(w: World, candidates: seq<Candidate>, c: Candidate) {
    var r := if Variant(c.name) then None else Some(c);
    exists built :: Chosen(w.recipes, candidates, built, r)
  }

  /** Nothing is tried exactly for what the base system has and for what nothing provides. */
  ghost predicate TriedRight(w: World, entry: string, tried: Tried) {
    && (tried.NotTried? <==> entry in w.base || Unprovided(w, entry))
    && (tried.Tried? ==>
          && entry in w.index && tried.candidate in w.index[entry]
          && IsChoice(w, w.index[entry], tried.candidate)
          && (tried.result.Success? ==>
                tried.result == FindPort(w, tried.candidate.name, Some(tried.candidate.version))))
  }

  /** What becomes of one entry: a tool whose build failed is passed over, but not one that nothing
      provides, nor one whose port has no package of the suffix. */
  function EntryOutcome(w: World, port: Port, entry: string, tried: Tried): Result<Option<Dep>, BuildError> {
    match tried
    case NotTried => if entry in w.base then Success(None) else Failure(NothingProvides(entry))
    case Tried(_, Failure(error)) => if entry in port.recipe.tools then Success(None) else Failure(error)
    case Tried(c, Success(dep)) =>
      match dep.recipe.FileOf(c.suffix)
      case None => Failure(UnbuiltPackage(port.name, entry))
      case Some(file) => Success(Some(Dep(dep, c.suffix, file)))
  }

  /** A port built without the package that was asked for. */
  predicate Packageless(tried: Tried) {
    tried.Tried? && tried.result.Success? && tried.result.value.recipe.FileOf(tried.candidate.suffix).None?
  }

  /** A tool stops a build exactly when nothing provides it, or its port was built without the
      package it is in. */
  lemma {:induction false} ToolStops(w: World, port: Port, entry: string, tried: Tried)
    requires entry in port.recipe.tools && TriedRight(w, entry, tried)
    ensures var r := EntryOutcome(w, port, entry, tried);
      && (r.Failure? <==> Unprovided(w, entry) || Packageless(tried))
      && (Unprovided(w, entry) ==> r == Failure(NothingProvides(entry)))
      && (r.Failure? && !Unprovided(w, entry) ==> r == Failure(UnbuiltPackage(port.name, entry)))
      && (tried.Tried? && tried.result.Failure? ==> r == Success(None))
  {
  }

  /** The port requires the entry, or a package activated for it does. */
  ghost predicate Asked(w: World, port: Port, activated: set<Hpkg>, entry: string) {
    || entry in port.recipe.needs + port.recipe.tools
    || exists dep | IsDep(w, dep) && dep.file in activated :: entry in dep.Runtime()
  }

  /** A sysroot is not to be had for this entry: it fails, or its file is not there. */
  ghost predicate StopsAt(w: World, port: Port, repo: set<Hpkg>, entry: string, tried: Tried, error: BuildError) {
    TriedRight(w, entry, tried) &&
    match EntryOutcome(w, port, entry, tried)
    case Failure(cause) => error == cause
    case Success(None) => false
    case Success(Some(dep)) => dep.file !in repo && error == NoSuchFile(dep.file)
  }

  ghost predicate Stops(w: World, port: Port, repo: set<Hpkg>, error: BuildError) {
    exists entry, tried, activated | Asked(w, port, activated, entry) :: StopsAt(w, port, repo, entry, tried, error)
  }

  predicate Refused(w: World, port: Port) {
    port.recipe.arch == Broken && !w.forceArch
  }

  predicate Works(w: World, port: Port) {
    (port.name, port.recipe.FullVersion()) in w.works
  }

  /** Every reason there is for a port's build to fail, with its error. */
  ghost predicate Explained(w: World, port: Port, repo: set<Hpkg>, error: BuildError) {
    if Refused(w, port) then error == MarkedBroken(port.name)
    else
      && error.PortFailed? && error.name == port.name
      && ((error.cause == PhaseFailed(port.name) && !Works(w, port))
          || (port.name !in w.resumed && Stops(w, port, repo, error.cause)))
  }

  ghost predicate Blamed(w: World, name: string, error: BuildError) {
    exists port, repo | InRecipes(w, port) && port.name == name :: Explained(w, port, repo, error)
  }

  /** Why a build that was asked for fails: there is no such recipe, it failed before, it is under
      way, or one of the reasons above. */
  ghost predicate Because(w: World, building: seq<string>, name: string, version: Option<string>, error: BuildError) {
    var found := FindPort(w, name, version);
    if found.Failure? then error == found.error
    else
      || (error == EarlierFailure(name) && exists earlier :: Blamed(w, name, earlier))
      || (error == Cycle(building + [name]) && name in building)
      || Blamed(w, name, error)
  }

  ghost predicate TriedBecause(w: World, building: seq<string>, tried: Tried) {
    tried.Tried? && tried.result.Failure? ==>
      Because(w, building, tried.candidate.name, Some(tried.candidate.version), tried.result.error)
  }

  /** The base system has the entry, or its chosen port was built with the package that is asked
      for, or, for a tool, could not be built for one of those reasons. */
  ghost predicate WentWell(w: World, port: Port, building: seq<string>, entry: string, tried: Tried) {
    TriedRight(w, entry, tried) && EntryOutcome(w, port, entry, tried).Success? && TriedBecause(w, building, tried)
  }

  ghost predicate Granted(w: World, port: Port, building: seq<string>, entry: string) {
    exists tried :: WentWell(w, port, building, entry, tried)
  }

  /** None of the reasons to fail: what is then said of the port. */
  ghost predicate Unhindered(w: World, port: Port, building: seq<string>) {
    && !Refused(w, port) && Works(w, port)
    && (port.name in w.resumed
        || forall entry | entry in port.recipe.needs + port.recipe.tools :: Granted(w, port, building, entry))
  }

  /** What is granted is provided, and its chosen port was not built without the package. */
  lemma {:induction false} GrantedIsProvided(w: World, port: Port, building: seq<string>, entry: string)
    requires Granted(w, port, building, entry)
    ensures !Unprovided(w, entry)
    ensures exists tried :: WentWell(w, port, building, entry, tried) && !Packageless(tried)
  {
    var tried :| WentWell(w, port, building, entry, tried);
    assert !Packageless(tried);
  }

  // -- when a port is not built again

  /** All its files are there, and the version on record is the recipe's, built or failed. */
  predicate UpToDate(results: map<string, Status>, repo: set<Hpkg>, port: Port) {
    && (forall i | 0 <= i < |port.recipe.files| :: port.recipe.files[i].1 in repo)
    && port.name in results && results[port.name].version == port.recipe.FullVersion()
  }

  /** Asked for again, by force or because everything is to be. */
  predicate AskedAgain(w: World, done: set<string>, name: string, force: bool) {
    force || (w.forceAll && name !in done)
  }

  /** A port found up to date, with its status and the files that were there. */
  datatype Found = Found(port: Port, status: Status, repo: set<Hpkg>)

  ghost predicate WasUpToDate(w: World, name: string, found: Found) {
    && InRecipes(w, found.port) && found.port.name == name
    && UpToDate(map[name := found.status], found.repo, found.port)
  }

  /** What is on record of a name was there before the run, or the name was entered. */
  ghost predicate OnRecord(before: map<string, Status>, entered: multiset<string>, name: string, status: Status) {
    (name in before && before[name] == status) || entered[name] > 0
  }

  ghost predicate Records(before: map<string, Status>, results: map<string, Status>, entered: multiset<string>,
                          found: map<string, Found>)
  {
    && (forall name | name in results :: OnRecord(before, entered, name, results[name]))
    && (forall name | name in found :: OnRecord(before, entered, name, found[name].status))
  }

  lemma {:induction false} FoundNow(w: World, results: map<string, Status>, repo: set<Hpkg>, port: Port)
    requires InRecipes(w, port) && UpToDate(results, repo, port)
    ensures WasUpToDate(w, port.name, Found(port, results[port.name], repo))
  {
  }

  lemma {:induction false} RecordsFind(before: map<string, Status>, results: map<string, Status>,
                                       entered: multiset<string>, found: map<string, Found>, name: string, seen: Found)
    requires Records(before, results, entered, found) && name in results && results[name] == seen.status
    ensures Records(before, results, entered, found[name := seen])
  {
  }

  lemma {:induction false} RecordsEnter(before: map<string, Status>, results: map<string, Status>,
                                        entered: multiset<string>, found: map<string, Found>, name: string)
    requires Records(before, results, entered, found)
    ensures Records(before, results, entered + multiset{name}, found)
  {
    forall other, status | OnRecord(before, entered, other, status)
      ensures OnRecord(before, entered + multiset{name}, other, status)
    {
    }
  }

  lemma {:induction false} RecordsStatus(before: map<string, Status>, results: map<string, Status>,
                                         entered: multiset<string>, found: map<string, Found>, name: string,
                                         status: Status)
    requires Records(before, results, entered, found) && entered[name] > 0
    ensures Records(before, results[name := status], entered, found)
  {
  }

  /** A name is entered once, and from then on is under way, done or failed: one of the three. */
  ghost predicate Ledger(w: World, building: seq<string>, done: set<string>, failed: set<string>,
                         entered: multiset<string>)
  {
    && Distinct(building) && done !! failed
    && (forall name | name in building :: name in w.recipes && name !in done && name !in failed)
    && forall name :: entered[name] == if name in building || name in done || name in failed then 1 else 0
  }

  lemma {:induction false} LedgerEnters(w: World, building: seq<string>, done: set<string>, failed: set<string>,
                                        entered: multiset<string>, name: string)
    requires Ledger(w, building, done, failed, entered)
    requires name in w.recipes && name !in building && name !in done && name !in failed
    ensures Ledger(w, building + [name], done, failed, entered + multiset{name})
  {
  }

  lemma {:induction false} OneMoreBlamed(w: World, failed: map<string, BuildError>, name: string, error: BuildError)
    requires AllBlamed(w, failed) && Blamed(w, name, error)
    ensures AllBlamed(w, failed[name := error]) && failed[name := error].Keys == failed.Keys + {name}
  {
  }

  lemma {:induction false} LedgerLeaves(w: World, building: seq<string>, done: set<string>, failed: set<string>,
                                        entered: multiset<string>)
    requires Ledger(w, building, done, failed, entered) && building != []
    ensures var n := |building| - 1;
      && Ledger(w, building[..n], done + {building[n]}, failed, entered)
      && Ledger(w, building[..n], done, failed + {building[n]}, entered)
  {
    var n := |building| - 1;
    assert building == building[..n] + [building[n]];
  }

  ghost predicate AllBuilt(done: set<string>, results: map<string, Status>) {
    forall name | name in done :: name in results && results[name].built
  }

  ghost predicate AllBlamed(w: World, failed: map<string, BuildError>) {
    forall name | name in failed :: Blamed(w, name, failed[name])
  }

  ghost predicate AllFound(w: World, found: map<string, Found>) {
    forall name | name in found :: WasUpToDate(w, name, found[name])
  }

  class Builder {
    const w: World
    var results: map<string, Status>
    var repo: set<Hpkg>
    var building: seq<string>
    var failed: map<string, BuildError>
    var done: set<string>

    /** How often _build was entered for each name, the ports built in the order they were
        finished, those found up to date and how, and what was on record before the run. */
    ghost var entered: multiset<string>
    ghost var finished: seq<Port>
    ghost var reused: set<string>
    ghost var found: map<string, Found>
    ghost const before: map<string, Status>

    ghost predicate Valid()
      reads this
    {
      && Ledger(w, building, done, failed.Keys, entered)
      && AllBuilt(done, results) && AllBlamed(w, failed) && AllFound(w, found)
      && Names(finished) == done && InOrder(w, finished, reused)
      && reused == found.Keys && reused <= w.recipes.Keys
      && Records(before, results, entered, found)
    }

    /** Nothing done, failed or entered is forgotten, and what is under way is as before. */
    twostate predicate Grows()
      reads this
    {
      building == old(building) && Remembers() && OnlyFrom(finished, old(repo), repo)
    }

    twostate predicate Remembers()
      reads this
    {
      && old(done) <= done
      && (forall name | name in old(failed) :: name in failed && failed[name] == old(failed)[name])
      && old(entered) <= entered
      && old(reused) <= reused
      && old(finished) <= finished
    }

    constructor (w: World, results: map<string, Status>, repo: set<Hpkg>)
      ensures Valid() && this.w == w && this.results == results == before && this.repo == repo
      ensures building == [] && done == {} && failed == map[] && entered == multiset{} && reused == {}
    {
      this.w, this.results, this.repo, before := w, results, repo, results;
      building, failed, done := [], map[], {};
      entered, finished, reused, found := multiset{}, [], {}, map[];
    }

    /** How many names could still be entered. */
    ghost function Left(): nat
      reads this
    {
      |w.recipes.Keys - Under()|
    }

    ghost function Under(): set<string>
      reads this
    {
      set name | name in building
    }

    /** None if the base system provides the entry. */
    method ProviderOf(entry: string) returns (r: Result<Option<Candidate>, BuildError>)
      ensures r.Failure? <==> Unprovided(w, entry)
      ensures r.Failure? ==> r.error == NothingProvides(entry)
      ensures r == Success(None) <==> entry in w.base
      ensures r.Success? && r.value.Some? ==> entry in w.index && r.value.value in w.index[entry]
      ensures r.Success? && r.value.Some? ==>
        var built := set name | name in results && results[name].built;
        Chosen(w.recipes, w.index[entry], built, if Variant(r.value.value.name) then None else r.value)
    {
      if entry in w.base {
        return Success(None);
      }
      if entry !in w.index || w.index[entry] == [] {
        return Failure(NothingProvides(entry));
      }
      var built := set name | name in results && results[name].built;
      var chosen := ChooseProvider(w.recipes, w.index[entry], built);
      r := Success(if chosen.Some? then chosen else Some(w.index[entry][0]));
    }

    /** The port is there, and is not built: it was in this run, or it is up to date and not asked
        for again. */
    predicate Stays(name: string, version: Option<string>, force: bool)
      reads this
    {
      var port := FindPort(w, name, version);
      port.Success? && (name in done || (UpToDate(results, repo, port.value) && !AskedAgain(w, done, name, force)))
    }

    method Build(name: string, version: Option<string>, force: bool) returns (r: Result<Port, BuildError>)
      requires Valid()
      modifies this
      ensures Valid() && Grows()
      ensures r.Success? ==> FindPort(w, name, version) == r && (name in done || name in reused)
      ensures r.Failure? ==> Because(w, building, name, version, r.error)
      ensures r.Failure? && FindPort(w, name, version).Success? ==>
        if name in old(failed) then r.error == EarlierFailure(name)
        else if name in building then r.error == Cycle(building + [name])
        else name in failed && failed[name] == r.error
      ensures r.Success? && entered == old(entered) <==> old(Stays(name, version, force))
      ensures old(Stays(name, version, force)) ==>
        results == old(results) && repo == old(repo) && done == old(done) && failed == old(failed)
      ensures r.Success? && name !in done ==>
        && UpToDate(old(results), old(repo), r.value) && !force && !w.forceAll
        && found == old(found)[name := Found(r.value, old(results)[name], old(repo))]
      ensures r.Success? && !old(Stays(name, version, force)) ==>
        name in done && name !in old(done) && Stored(results, repo, r.value)
      decreases Left(), 1
    {
      var port :- FindPort(w, name, version);
      var recipe := port.recipe;
      var built := forall i | 0 <= i < |recipe.files| :: recipe.files[i].1 in repo;
      var upToDate := built && name in results && results[name].version == recipe.FullVersion();
      var again := force || (w.forceAll && name !in done);
      if (upToDate && !again) || name in done {
        if name !in done {
          Reuse(port);
        }
        return Success(port);
      }
      if name in failed {
        assert Blamed(w, name, failed[name]);
        return Failure(EarlierFailure(name));
      }
      if name in building {
        return Failure(Cycle(building + [name]));
      }
      r := Attempt(port);
    }

    /** The port is under way while it is built, and on every exit no longer. */
    method Attempt(port: Port) returns (r: Result<Port, BuildError>)
      requires Valid() && InRecipes(w, port)
      requires port.name !in building && port.name !in done && port.name !in failed
      modifies this
      ensures Valid() && Grows()
      ensures r.Success? ==> r.value == port && port.name in done
      ensures r.Success? ==> Stored(results, repo, port)
      ensures r.Failure? ==> port.name in failed && failed[port.name] == r.error
      ensures if r.Success? then Unhindered(w, port, building + [port.name]) else Explained(w, port, repo, r.error)
      decreases Left(), 0
    {
      Enter(port.name);
      assert building[..|building| - 1] == old(building);
      r := BuildAndLeave(port);
    }

    method BuildAndLeave(port: Port) returns (r: Result<Port, BuildError>)
      requires Valid() && InRecipes(w, port) && building != [] && building[|building| - 1] == port.name
      modifies this
      ensures Valid() && Remembers() && building == old(building)[..|old(building)| - 1]
      ensures OnlyFrom(finished, old(repo), repo)
      ensures r.Success? ==> r.value == port && port.name in done
      ensures r.Success? ==> Stored(results, repo, port)
      ensures r.Failure? ==> port.name in failed && failed[port.name] == r.error
      ensures if r.Success? then Unhindered(w, port, old(building)) else Explained(w, port, repo, r.error)
      decreases Left(), 7
    {
      var outcome := BuildPort(port);
      ghost var stored := repo;
      Leave(port, outcome);
      assert repo == stored && OnlyFrom(finished, old(repo), repo);
      r := if outcome.Success? then Success(port) else Failure(outcome.error);
    }

    ghost method Reuse(port: Port)
      requires Valid() && InRecipes(w, port) && UpToDate(results, repo, port)
      modifies this`reused, this`found
      ensures Valid() && reused == old(reused) + {port.name}
      ensures found == old(found)[port.name := Found(port, results[port.name], repo)]
    {
      var seen := Found(port, results[port.name], repo);
      InOrderReuses(w, finished, reused, reused + {port.name});
      FoundNow(w, results, repo, port);
      RecordsFind(before, results, entered, found, port.name, seen);
      reused := reused + {port.name};
      found := found[port.name := seen];
    }

    method Enter(name: string)
      requires Valid() && name in w.recipes && name !in building && name !in done && name !in failed
      modifies this`building, this`entered
      ensures Valid() && building == old(building) + [name] && entered == old(entered) + multiset{name}
      ensures Left() < old(Left())
    {
      ghost var under := Under();
      LedgerEnters(w, building, done, failed.Keys, entered, name);
      RecordsEnter(before, results, entered, found, name);
      building := building + [name];
      entered := entered + multiset{name};
      assert w.recipes.Keys - Under() == (w.recipes.Keys - under) - {name};
    }

    /** What was under way is done or failed. */
    method Leave(port: Port, outcome: Result<(), BuildError>)
      requires Valid() && InRecipes(w, port) && building != [] && building[|building| - 1] == port.name
      requires outcome.Success? ==> port.name in results && results[port.name].built
      requires outcome.Success? ==> port.name in w.resumed || Supplied(w, port, done + reused)
      requires outcome.Failure? ==> Blamed(w, port.name, outcome.error)
      modifies this`building, this`done, this`failed, this`finished
      ensures Valid() && building == old(building)[..|old(building)| - 1]
      ensures done == if outcome.Success? then old(done) + {port.name} else old(done)
      ensures failed == if outcome.Success? then old(failed) else old(failed)[port.name := outcome.error]
      ensures finished == if outcome.Success? then old(finished) + [port] else old(finished)
    {
      if outcome.Success? {
        LeaveDone(port);
      } else {
        LeaveFailed(port.name, outcome.error);
      }
    }

    method LeaveDone(port: Port)
      requires Valid() && InRecipes(w, port) && building != [] && building[|building| - 1] == port.name
      requires port.name in results && results[port.name].built
      requires port.name in w.resumed || Supplied(w, port, done + reused)
      modifies this`building, this`done, this`finished
      ensures Valid() && building == old(building)[..|old(building)| - 1]
      ensures done == old(done) + {port.name} && finished == old(finished) + [port]
    {
      LedgerLeaves(w, building, done, failed.Keys, entered);
      InOrderExtends(w, finished, reused, port);
      finished := finished + [port];
      done := done + {port.name};
      building := building[..|building| - 1];
    }

    method LeaveFailed(name: string, error: BuildError)
      requires Valid() && building != [] && building[|building| - 1] == name && Blamed(w, name, error)
      modifies this`building, this`failed
      ensures Valid() && building == old(building)[..|old(building)| - 1]
      ensures failed == old(failed)[name := error]
    {
      LedgerLeaves(w, building, done, failed.Keys, entered);
      OneMoreBlamed(w, failed, name, error);
      failed := failed[name := error];
      building := building[..|building| - 1];
    }

    /** _build: the sysroot unless sources are resumed, the phases, the packages. */
    method BuildPort(port: Port) returns (r: Result<(), BuildError>)
      requires Valid() && InRecipes(w, port) && building != [] && building[|building| - 1] == port.name
      modifies this
      ensures Valid() && building == old(building) && Remembers()
      ensures OnlyFrom(if r.Success? then finished + [port] else finished, old(repo), repo)
      ensures r.Success? ==> Stored(results, repo, port)
      ensures r.Success? ==> port.name in w.resumed || Supplied(w, port, done + reused)
      ensures if r.Success? then Unhindered(w, port, building) else Explained(w, port, repo, r.error)
      ensures r.Failure? && !Refused(w, port) ==>
        port.name in results && results[port.name] == Status(false, port.recipe.FullVersion())
      ensures Refused(w, port) ==> r.Failure? && results == old(results)
      ensures port.name in w.resumed && !Refused(w, port) ==> (r.Success? <==> Works(w, port))
      decreases Left(), 6
    {
      if port.recipe.arch == Broken && !w.forceArch {
        return Failure(MarkedBroken(port.name));
      }
      var outcome := PrepareAndRun(port);
      if outcome.Success? {
        ghost var was := repo;
        Package(port.recipe.files);
        PackagedIs(was, port, repo);
        OnlyFromThen(finished, finished + [port], old(repo), was, repo);
      }
      Record(port.name, Status(outcome.Success?, port.recipe.FullVersion()));
      r := if outcome.Success? then Success(()) else Failure(PortFailed(port.name, outcome.error));
    }

    /** What happens within the log: the sysroot and the sources unless they are resumed, the phases. */
    method PrepareAndRun(port: Port) returns (r: Result<(), BuildError>)
      requires Valid() && InRecipes(w, port)
      modifies this
      ensures Valid() && Grows()
      ensures r.Success? ==> Works(w, port)
      ensures r.Success? ==> port.name in w.resumed || Supplied(w, port, done + reused)
      ensures r.Success? && port.name !in w.resumed ==>
        forall entry | entry in port.recipe.needs + port.recipe.tools :: Granted(w, port, building, entry)
      ensures r.Failure? ==>
        || (r.error == PhaseFailed(port.name) && !Works(w, port))
        || (port.name !in w.resumed && Stops(w, port, repo, r.error))
      decreases Left(), 5
    {
      r := Success(());
      if port.name !in w.resumed {
        ghost var sysroot;
        r, sysroot := PrepareSysroot(port);
      }
      if r.Success? && (port.name, port.recipe.FullVersion()) !in w.works {
        r := Failure(PhaseFailed(port.name));
      }
    }

    /** _record, of a port under way. */
    method Record(name: string, status: Status)
      requires Valid() && name in building
      modifies this`results
      ensures Valid() && results == old(results)[name := status]
    {
      RecordsStatus(before, results, entered, found, name, status);
      results := results[name := status];
    }

    /** The requirements built and activated; a tool that cannot be built is passed over. */
    method PrepareSysroot(port: Port) returns (r: Result<(), BuildError>, ghost sysroot: set<Hpkg>)
      requires Valid() && InRecipes(w, port)
      modifies this
      ensures Valid() && Grows()
      ensures r.Success? ==> Complete(w, port, sysroot, []) && Supplied(w, port, done + reused)
      ensures r.Success? ==>
        forall entry | entry in port.recipe.needs + port.recipe.tools :: Granted(w, port, building, entry)
      ensures r.Failure? ==> Stops(w, port, repo, r.error)
      decreases Left(), 4
    {
      var todo := port.recipe.needs + port.recipe.tools;
      var activated: set<Hpkg> := {};
      sysroot := {};
      ghost var start := repo;
      while todo != []
        invariant Valid() && building == old(building) && Remembers() && OnlyFrom(finished, start, repo)
        invariant Preparing(w, port, activated, todo, done + reused)
        invariant Accounted(w, port, building, activated, todo)
        decreases |AllFiles(w) - activated|, |todo|
      {
        ghost var built, was := finished, repo;
        var turn := Turn(port, activated, todo);
        OnlyFromThen(built, finished, start, was, repo);
        if turn.Failure? {
          return Failure(turn.error), sysroot;
        }
        activated, todo := turn.value.0, turn.value.1;
      }
      sysroot := activated;
      r := Success(());
    }

    /** The first entry to do: passed over, or its package activated and what that requires to do too. */
    method Turn(port: Port, activated: set<Hpkg>, todo: seq<string>)
      returns (r: Result<(set<Hpkg>, seq<string>), BuildError>)
      requires Valid() && InRecipes(w, port) && todo != []
      requires Preparing(w, port, activated, todo, done + reused) && Accounted(w, port, building, activated, todo)
      modifies this
      ensures Valid() && Grows()
      ensures r.Failure? ==> Stops(w, port, repo, r.error)
      ensures r.Success? ==>
        && Preparing(w, port, r.value.0, r.value.1, done + reused)
        && Accounted(w, port, building, r.value.0, r.value.1)
        && if r.value.0 == activated then |r.value.1| < |todo|
           else |AllFiles(w) - r.value.0| < |AllFiles(w) - activated|
      decreases Left(), 3
    {
      var entry := todo[0];
      ghost var ready := done + reused;
      var dep, tried := Require(port, entry);
      AccountedFor(w, port, building, activated, todo, tried);
      OutcomeProvides(w, port, entry, tried);
      if dep.Failure? {
        assert StopsAt(w, port, repo, entry, tried, dep.error);
        return Failure(dep.error);
      }
      if dep.value.None? || dep.value.value.file in activated {
        PreparingSkips(w, port, activated, todo, ready, done + reused);
        return Success((activated, todo[1..]));
      }
      var file := dep.value.value.file;
      if file !in repo {
        assert StopsAt(w, port, repo, entry, tried, NoSuchFile(file));
        return Failure(NoSuchFile(file));
      }
      AccountedActivates(w, port, building, activated, todo, dep.value.value);
      PreparingActivates(w, port, activated, todo, ready, done + reused, dep.value.value);
      OneFewer(AllFiles(w), activated, file);
      r := Success((activated + {file}, todo[1..] + dep.value.value.Runtime()));
    }

    /** One entry: its provider built; nothing when the base system has it, or when it is a tool
        that cannot be built; an error in every other case. */
    method Require(port: Port, entry: string) returns (r: Result<Option<Dep>, BuildError>, ghost tried: Tried)
      requires Valid() && InRecipes(w, port)
      modifies this
      ensures Valid() && Grows()
      ensures TriedRight(w, entry, tried) && r == EntryOutcome(w, port, entry, tried)
      ensures tried.Tried? && tried.result.Success? ==> SuppliedBy(w, done + reused, entry)
      ensures TriedBecause(w, building, tried)
      decreases Left(), 2
    {
      tried := NotTried;
      var provider := ProviderOf(entry);
      if provider.Failure? {
        return Failure(provider.error), tried;
      }
      if provider.value.None? {
        return Success(None), tried;
      }
      var c := provider.value.value;
      var dep := Build(c.name, Some(c.version), false);
      tried := Tried(c, dep);
      if dep.Failure? {
        r := if entry in port.recipe.tools then Success(None) else Failure(dep.error);
        return r, tried;
      }
      var file := dep.value.recipe.FileOf(c.suffix);
      if file.None? {
        return Failure(UnbuiltPackage(port.name, entry)), tried;
      }
      r := Success(Some(Dep(dep.value, c.suffix, file.value)));
    }

    /** Each file replaces the older ones of its package. */
    method Package(files: seq<(string, Hpkg)>)
      modifies this`repo
      ensures forall file :: file in repo <==> Holds(old(repo), files, file)
    {
      for k := 0 to |files|
        invariant forall file :: file in repo <==> Holds(old(repo), files[..k], file)
      {
        assert files[..k + 1][..k] == files[..k];
        var file := files[k].1;
        repo := (set older | older in repo && older.package != file.package) + {file};
      }
      assert files[..|files|] == files;
    }
  }

  /** Of the files made for its package the last, or one that was there when none was made. */
  ghost predicate Holds(repo: set<Hpkg>, files: seq<(string, Hpkg)>, file: Hpkg) {
    if files == [] then file in repo
    else
      var n := |files| - 1;
      if files[n].1.package == file.package then files[n].1 == file else Holds(repo, files[..n], file)
  }

  /** The last file made of a package. */
  ghost predicate LastMade(files: seq<(string, Hpkg)>, file: Hpkg) {
    exists i | 0 <= i < |files| ::
      files[i].1 == file && forall j | i < j < |files| :: files[j].1.package != file.package
  }

  ghost predicate Makes(files: seq<(string, Hpkg)>, package: string) {
    exists i | 0 <= i < |files| :: files[i].1.package == package
  }

  /** Of each of its packages the repository has the last file made, and no other. */
  ghost predicate Housed(repo: set<Hpkg>, files: seq<(string, Hpkg)>) {
    forall file: Hpkg | Makes(files, file.package) :: file in repo <==> LastMade(files, file)
  }

  /** A port is built, and its packages are in the repository. */
  ghost predicate Stored(results: map<string, Status>, repo: set<Hpkg>, port: Port) {
    && port.name in results && results[port.name] == Status(true, port.recipe.FullVersion())
    && Housed(repo, port.recipe.files)
  }

  /** What is new in the repository was made for one of the ports, and what is gone from it was
      replaced by one. */
  ghost predicate OnlyFrom(ports: seq<Port>, was: set<Hpkg>, now: set<Hpkg>) {
    && (forall file | file in now && file !in was :: exists p | p in ports :: LastMade(p.recipe.files, file))
    && forall file | file in was && file !in now :: exists p | p in ports :: Makes(p.recipe.files, file.package)
  }

  lemma {:induction false} OnlyFromThen(ports: seq<Port>, more: seq<Port>, was: set<Hpkg>, middle: set<Hpkg>,
                                        now: set<Hpkg>)
    requires OnlyFrom(ports, was, middle) && OnlyFrom(more, middle, now) && ports <= more
    ensures OnlyFrom(more, was, now)
  {
  }

  lemma {:induction false} HoldsIs(repo: set<Hpkg>, files: seq<(string, Hpkg)>, file: Hpkg)
    ensures Holds(repo, files, file) <==> if Makes(files, file.package) then LastMade(files, file) else file in repo
  {
    if files != [] {
      var n := |files| - 1;
      HoldsIs(repo, files[..n], file);
      assert Makes(files, file.package) <==> files[n].1.package == file.package || Makes(files[..n], file.package);
      if files[n].1.package != file.package {
        assert LastMade(files, file) <==> LastMade(files[..n], file);
      }
    }
  }

  lemma {:induction false} PackagedIs(was: set<Hpkg>, port: Port, now: set<Hpkg>)
    requires forall file :: file in now <==> Holds(was, port.recipe.files, file)
    ensures Housed(now, port.recipe.files) && OnlyFrom([port], was, now)
  {
    forall file: Hpkg
      ensures file in now <==>
        if Makes(port.recipe.files, file.package) then LastMade(port.recipe.files, file) else file in was
    {
      HoldsIs(was, port.recipe.files, file);
    }
    assert port in [port];
  }

  /** A port of which no two packages are of one name is up to date when it has been built: if nothing
      is removed a later run need not build it again. */
  lemma {:induction false} BuiltIsUpToDate(results: map<string, Status>, repo: set<Hpkg>, port: Port)
    requires Stored(results, repo, port)
    requires forall i, j | 0 <= i < j < |port.recipe.files| ::
      port.recipe.files[i].1.package != port.recipe.files[j].1.package
    ensures UpToDate(results, repo, port)
  {
    forall i | 0 <= i < |port.recipe.files|
      ensures port.recipe.files[i].1 in repo
    {
      assert LastMade(port.recipe.files, port.recipe.files[i].1);
    }
  }

  lemma {:induction false} OneFewer(all: set<Hpkg>, activated: set<Hpkg>, file: Hpkg)
    requires file in all && file !in activated
    ensures |all - (activated + {file})| < |all - activated|
  {
    assert all - (activated + {file}) == (all - activated) - {file};
  }

  /** One of the ports asked for. */
  method BuildOne(b: Builder, name: string, version: Option<string>, force: bool) returns (built: bool)
    requires b.Valid() && b.building == []
    modifies b
    ensures b.Valid() && b.building == [] && old(b.done) <= b.done && old(b.reused) <= b.reused
    ensures old(b.failed).Keys <= b.failed.Keys
    ensures !built ==> Lost(b.w, b.failed.Keys, (name, version))
    ensures built ==> name in b.done || name in b.reused
    ensures built && name !in b.done ==> !force && !b.w.forceAll
  {
    var r := b.Build(name, version, force);
    built := r.Success?;
  }

  /** What became of the first n ports asked for: failed, or done, or found up to date when that
      was enough. */
  ghost predicate Answered(specs: seq<(string, Option<string>)>, n: int, failed: seq<(string, Option<string>)>,
                           done: set<string>, reused: set<string>)
    requires n <= |specs|
  {
    forall i | 0 <= i < n :: specs[i] in failed || specs[i].0 in done || specs[i].0 in reused
  }

  /** There is no such port, or it failed. */
  predicate Lost(w: World, failed: set<string>, spec: (string, Option<string>)) {
    FindPort(w, spec.0, spec.1).Failure? || spec.0 in failed
  }

  /** Of the ports asked for these are lost. */
  ghost predicate AllLost(w: World, names: set<string>, specs: seq<(string, Option<string>)>,
                          failed: seq<(string, Option<string>)>)
  {
    forall spec | spec in failed :: spec in specs && Lost(w, names, spec)
  }

  lemma {:induction false} MoreLost(w: World, names: set<string>, more: set<string>,
                                    specs: seq<(string, Option<string>)>, failed: seq<(string, Option<string>)>,
                                    k: nat)
    requires AllLost(w, names, specs, failed) && names <= more && k < |specs|
    ensures AllLost(w, more, specs, failed)
    ensures Lost(w, more, specs[k]) ==> AllLost(w, more, specs, failed + [specs[k]])
  {
  }

  /** A run over the ports asked for, going on after a failure or not. With nothing on record
      before it none is found up to date unless it was entered, and with force none is at all. */
  method BuildAll(b: Builder, specs: seq<(string, Option<string>)>, force: bool, keepGoing: bool)
    returns (failed: seq<(string, Option<string>)>)
    requires b.Valid() && b.building == []
    modifies b
    ensures b.Valid() && b.building == []
    ensures AllLost(b.w, b.failed.Keys, specs, failed)
    ensures keepGoing || failed == [] ==>
      && Answered(specs, |specs|, failed, b.done, b.reused)
      && (force || b.w.forceAll ==> Answered(specs, |specs|, failed, b.done, {}))
      && (b.before == map[] ==> Answered(specs, |specs|, failed, b.done, b.failed.Keys))
    ensures !keepGoing && failed != [] ==>
      exists k | 0 <= k < |specs| :: failed == [specs[k]] && Answered(specs, k, [], b.done, b.reused)
  {
    failed := BuildEach(b, specs, force, keepGoing);
    FoundWereEntered(b);
  }

  method BuildEach(b: Builder, specs: seq<(string, Option<string>)>, force: bool, keepGoing: bool)
    returns (failed: seq<(string, Option<string>)>)
    requires b.Valid() && b.building == []
    modifies b
    ensures b.Valid() && b.building == []
    ensures AllLost(b.w, b.failed.Keys, specs, failed)
    ensures keepGoing || failed == [] ==>
      && Answered(specs, |specs|, failed, b.done, b.reused)
      && (force || b.w.forceAll ==> Answered(specs, |specs|, failed, b.done, {}))
    ensures !keepGoing && failed != [] ==>
      exists k | 0 <= k < |specs| :: failed == [specs[k]] && Answered(specs, k, [], b.done, b.reused)
  {
    failed := [];
    for k := 0 to |specs|
      invariant b.Valid() && b.building == []
      invariant keepGoing || failed == []
      invariant Answered(specs, k, failed, b.done, b.reused)
      invariant force || b.w.forceAll ==> Answered(specs, k, failed, b.done, {})
      invariant AllLost(b.w, b.failed.Keys, specs, failed)
    {
      ghost var done, reused, lost := b.done, b.reused, b.failed.Keys;
      var built := BuildOne(b, specs[k].0, specs[k].1, force);
      OneMoreAnswered(specs, k, failed, done, b.done, reused, b.reused);
      OneMoreAnswered(specs, k, failed, done, b.done, {}, {});
      MoreLost(b.w, lost, b.failed.Keys, specs, failed, k);
      if !built {
        failed := failed + [specs[k]];
        if !keepGoing {
          assert failed == [specs[k]];
          return;
        }
      }
    }
  }

  lemma {:induction false} OneMoreAnswered(specs: seq<(string, Option<string>)>, k: nat,
                                           failed: seq<(string, Option<string>)>, done: set<string>, more: set<string>,
                                           reused: set<string>, again: set<string>)
    requires k < |specs| && done <= more && reused <= again
    ensures Answered(specs, k, failed, done, reused) ==>
      && Answered(specs, k + 1, failed + [specs[k]], more, again)
      && (specs[k].0 in more || specs[k].0 in again ==> Answered(specs, k + 1, failed, more, again))
  {
  }

  /** With nothing on record before the run, what is found up to date was entered in it. */
  lemma {:induction false} FoundWereEntered(b: Builder)
    requires b.Valid() && b.building == []
    ensures b.before == map[] ==> forall name | name in b.reused :: name in b.done || name in b.failed
  {
    if b.before == map[] {
      forall name | name in b.reused
        ensures name in b.done || name in b.failed
      {
        assert OnRecord(b.before, b.entered, name, b.found[name].status);
      }
    }
  }

  /** A build stopped by a tool: one port, all of whose phases work, and nothing for xml_parser. */
  method ToolNobodyProvides() returns (r: Result<Port, BuildError>)
    ensures r == Failure(PortFailed("libdom", NothingProvides("xml_parser")))
  {
    var recipe := Recipe("1.0", 0, "1", Fine, [("", Hpkg("libdom", "1.0-1"))], [], ["xml_parser"], map[]);
    var w := World(map["libdom" := [recipe]], map[], {}, {("libdom", recipe.FullVersion())}, {}, false, false);
    var b := new Builder(w, map[], {});
    var port := Port("libdom", recipe);
    r := b.Attempt(port);
    assert "xml_parser" in port.recipe.needs + port.recipe.tools && Unprovided(w, "xml_parser");
    OnlyTool(w, port, b.repo, r.error.cause);
  }

  /** A port that requires nothing but one tool, in a world where no package requires anything. */
  lemma {:induction false} OnlyTool(w: World, port: Port, repo: set<Hpkg>, error: BuildError)
    requires port.recipe.needs == [] && |port.recipe.tools| == 1 && Unprovided(w, port.recipe.tools[0])
    requires forall dep | IsDep(w, dep) :: dep.Runtime() == []
    requires Stops(w, port, repo, error)
    ensures error == NothingProvides(port.recipe.tools[0])
  {
    forall entry, tried, activated | Asked(w, port, activated, entry) && StopsAt(w, port, repo, entry, tried, error)
      ensures error == NothingProvides(port.recipe.tools[0])
    {
      OnlyItsOwn(w, port, activated, entry);
      NotTriedStops(w, port, repo, entry, tried, error);
    }
  }

  lemma {:induction false} OnlyItsOwn(w: World, port: Port, activated: set<Hpkg>, entry: string)
    requires port.recipe.needs == [] && |port.recipe.tools| == 1
    requires Asked(w, port, activated, entry) && forall dep | IsDep(w, dep) :: dep.Runtime() == []
    ensures entry == port.recipe.tools[0]
  {
    assert port.recipe.needs + port.recipe.tools == [port.recipe.tools[0]];
  }

  lemma {:induction false} NotTriedStops(w: World, port: Port, repo: set<Hpkg>, entry: string, tried: Tried,
                                         error: BuildError)
    requires StopsAt(w, port, repo, entry, tried, error) && Unprovided(w, entry)
    ensures error == NothingProvides(entry)
  {
  }

  // -- a tool whose port lacks its package

  const PERL: Recipe := Recipe("5.36", 0, "1", Fine, [("", Hpkg("perl", "5.36-1"))], [], [], map[])
  const LIBDOM: Recipe := Recipe("1.0", 0, "1", Fine, [("", Hpkg("libdom", "1.0-1"))], [], ["xml_parser"], map[])
  const XML_PARSER: Candidate := Candidate("perl", "5.36", 0, "_xml")

  function PerlWorld(): World {
    World(map["libdom" := [LIBDOM], "perl" := [PERL]], map["xml_parser" := [XML_PARSER]], {},
          {("libdom", LIBDOM.FullVersion()), ("perl", PERL.FullVersion())}, {}, false, false)
  }

  /** Two ports, all of whose phases work, and a tool in a package of perl that is not made. */
  method ToolLacksPackage() returns (r: Result<Port, BuildError>)
    ensures r == Failure(PortFailed("libdom", UnbuiltPackage("libdom", "xml_parser")))
  {
    var b := new Builder(PerlWorld(), map[], {});
    LibdomIsThere(b.w);
    r := b.Attempt(Port("libdom", LIBDOM));
    LibdomFails(b.w, b.building + ["libdom"], b.repo, r);
  }

  lemma {:induction false} LibdomIsThere(w: World)
    requires w == PerlWorld()
    ensures InRecipes(w, Port("libdom", LIBDOM))
  {
  }

  lemma {:induction false} LibdomFails(w: World, building: seq<string>, repo: set<Hpkg>, r: Result<Port, BuildError>)
    requires w == PerlWorld() && "perl" !in building
    requires var port := Port("libdom", LIBDOM);
      if r.Success? then r.value == port && Unhindered(w, port, building) else Explained(w, port, repo, r.error)
    ensures r == Failure(PortFailed("libdom", UnbuiltPackage("libdom", "xml_parser")))
  {
    var port := Port("libdom", LIBDOM);
    PerlIsBuilt(w);
    if r.Success? {
      assert "xml_parser" in port.recipe.needs + port.recipe.tools;
      ToolIsNotGranted(w, port, building);
    } else {
      assert !Refused(w, port) && Works(w, port);
      ToolStopsIt(w, port, repo, r.error.cause);
    }
  }

  lemma {:induction false} PerlIsBuilt(w: World)
    requires w == PerlWorld()
    ensures forall error :: !Blamed(w, "perl", error)
    ensures forall dep | IsDep(w, dep) :: dep.Runtime() == []
    ensures FindPort(w, "perl", Some("5.36")) == Success(Port("perl", PERL))
  {
    forall dep | IsDep(w, dep)
      ensures dep.Runtime() == []
    {
      assert dep.port.recipe == LIBDOM || dep.port.recipe == PERL;
    }
    forall port, repo, error | InRecipes(w, port) && port.name == "perl"
      ensures !Explained(w, port, repo, error)
    {
      assert port.recipe == PERL;
      NothingAsked(w, port);
    }
  }

  /** A port that requires nothing, in a world where no package requires anything. */
  lemma {:induction false} NothingAsked(w: World, port: Port)
    requires port.recipe.needs == [] == port.recipe.tools && forall dep | IsDep(w, dep) :: dep.Runtime() == []
    ensures forall repo, error :: !Stops(w, port, repo, error)
  {
    forall activated, entry
      ensures !Asked(w, port, activated, entry)
    {
    }
  }

  lemma {:induction false} ToolIsNotGranted(w: World, port: Port, building: seq<string>)
    requires w == PerlWorld() && port == Port("libdom", LIBDOM) && "perl" !in building
    requires forall error :: !Blamed(w, "perl", error)
    requires FindPort(w, "perl", Some("5.36")) == Success(Port("perl", PERL))
    ensures !Granted(w, port, building, "xml_parser")
  {
    forall tried | TriedRight(w, "xml_parser", tried) && TriedBecause(w, building, tried)
      ensures EntryOutcome(w, port, "xml_parser", tried).Failure?
    {
      assert tried.Tried? && tried.candidate == XML_PARSER;
      assert tried.result == Success(Port("perl", PERL));
      assert PERL.FileOf("_xml").None?;
    }
  }

  lemma {:induction false} ToolStopsIt(w: World, port: Port, repo: set<Hpkg>, error: BuildError)
    requires w == PerlWorld() && port == Port("libdom", LIBDOM) && Stops(w, port, repo, error)
    requires forall dep | IsDep(w, dep) :: dep.Runtime() == []
    requires FindPort(w, "perl", Some("5.36")) == Success(Port("perl", PERL))
    ensures error == UnbuiltPackage("libdom", "xml_parser")
  {
    var entry, tried, activated :| Asked(w, port, activated, entry) && StopsAt(w, port, repo, entry, tried, error);
    assert entry == "xml_parser";
    assert tried.Tried? && tried.candidate == XML_PARSER;
    assert PERL.FileOf("_xml").None?;
  }
}
