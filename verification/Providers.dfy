/** Recipes, and the port chosen to provide a requirement. Entries are named without their
    version constraints. */
module Providers {
  import opened Wrappers

  datatype Arch = Fine | AnyArch | Untested | Broken

  /** A package file: the package's name, and the rest of the file's. */
  datatype Hpkg = Hpkg(package: string, rest: string)

  /** newness: the place of the version in natural order. files: a package file for each suffix,
      the main package first. */
  datatype Recipe = Recipe(version: string, newness: int, revision: string, arch: Arch, files: seq<(string, Hpkg)>,
                           needs: seq<string>, tools: seq<string>, runtime: map<string, seq<string>>) {

    function FullVersion(): string {
      version + "-" + revision
    }

    /** The package file of a suffix. */
    function FileOf(suffix: string): (r: Option<Hpkg>)
      ensures r.Some? ==> exists i | 0 <= i < |files| ::
        files[i] == (suffix, r.value) && forall j | i < j < |files| :: files[j].0 != suffix
      ensures r.None? ==> forall i | 0 <= i < |files| :: files[i].0 != suffix
    {
      Lookup(files, suffix)
    }

    /** What a package requires when it is in use. */
    function Runtime(suffix: string): seq<string> {
      if suffix in runtime then runtime[suffix] else []
    }
  }

  function Lookup(files: seq<(string, Hpkg)>, suffix: string): (r: Option<Hpkg>)
    ensures r.Some? ==> exists i | 0 <= i < |files| ::
      files[i] == (suffix, r.value) && forall j | i < j < |files| :: files[j].0 != suffix
    ensures r.None? ==> forall i | 0 <= i < |files| :: files[i].0 != suffix
  {
    if files == [] then None
    else
      var n := |files| - 1;
      if files[n].0 == suffix then Some(files[n].1) else Lookup(files[..n], suffix)
  }

  datatype Candidate = Candidate(name: string, version: string, newness: int, suffix: string)

  // -- versions

  function OfVersion(recipes: seq<Recipe>, version: string): (r: Option<Recipe>)
    ensures r.Some? ==> FirstOf(recipes, version, r.value)
    ensures r.None? ==> forall i | 0 <= i < |recipes| :: recipes[i].version != version
  {
    if recipes == [] then None
    else
      var n := |recipes| - 1;
      var first := OfVersion(recipes[..n], version);
      FirstOfMore(recipes, version, first);
      if first.None? && recipes[n].version == version then Some(recipes[n]) else first
  }

  ghost predicate FirstOf(recipes: seq<Recipe>, version: string, r: Recipe) {
    r.version == version && exists i | 0 <= i < |recipes| ::
      recipes[i] == r && forall j | 0 <= j < i :: recipes[j].version != version
  }

  lemma {:induction false} FirstOfMore(recipes: seq<Recipe>, version: string, first: Option<Recipe>)
    requires recipes != []
    requires var before := recipes[..|recipes| - 1];
      if first.Some? then FirstOf(before, version, first.value)
      else forall i | 0 <= i < |before| :: before[i].version != version
    ensures if first.Some? then FirstOf(recipes, version, first.value)
      else forall i | 0 <= i < |recipes| - 1 :: recipes[i].version != version
  {
    var n := |recipes| - 1;
    assert forall i | 0 <= i < n :: recipes[..n][i] == recipes[i];
    if first.Some? {
      var i :| 0 <= i < n && recipes[..n][i] == first.value
        && forall j | 0 <= j < i :: recipes[..n][j].version != version;
      assert recipes[i] == first.value;
    }
  }

  /** The first of the newest that are not broken, or of the newest when all are. */
  ghost predicate IsNewest(recipes: seq<Recipe>, r: Recipe) {
    && (r.arch == Broken ==> forall i | 0 <= i < |recipes| :: recipes[i].arch == Broken)
    && exists i | 0 <= i < |recipes| :: recipes[i] == r && NewestAt(recipes, i)
  }

  predicate NewestAt(recipes: seq<Recipe>, i: int)
    requires 0 <= i < |recipes|
  {
    forall j | 0 <= j < |recipes| ::
      || (recipes[j].arch == Broken && recipes[i].arch != Broken)
      || recipes[j].newness < recipes[i].newness || (recipes[j].newness == recipes[i].newness && i <= j)
  }

  /** Whether a recipe read after the best so far is better. */
  predicate Better(last: Recipe, best: Recipe) {
    if (last.arch == Broken) != (best.arch == Broken) then best.arch == Broken else last.newness > best.newness
  }

  lemma {:induction false} NewestOfMore(recipes: seq<Recipe>, best: Recipe)
    requires |recipes| > 1 && IsNewest(recipes[..|recipes| - 1], best)
    ensures var last := recipes[|recipes| - 1]; IsNewest(recipes, if Better(last, best) then last else best)
  {
    var n := |recipes| - 1;
    var i :| 0 <= i < n && recipes[..n][i] == best && NewestAt(recipes[..n], i);
    assert forall j | 0 <= j < n :: recipes[..n][j] == recipes[j];
    if Better(recipes[n], best) {
      assert NewestAt(recipes, n);
    } else {
      assert NewestAt(recipes, i);
    }
  }

  /** The newest recipe that is not broken, or the newest when all are. */
  function Newest(recipes: seq<Recipe>): (r: Recipe)
    requires recipes != []
    ensures r in recipes && IsNewest(recipes, r)
  {
    var last := recipes[|recipes| - 1];
    if |recipes| == 1 then last
    else
      var best := Newest(recipes[..|recipes| - 1]);
      NewestOfMore(recipes, best);
      if Better(last, best) then last else best
  }

  /** arch_status of a recipe; one that is not known has no ARCHITECTURES. */
  function ArchOf(recipes: map<string, seq<Recipe>>, name: string, version: string): Arch {
    if name !in recipes then Untested
    else
      var recipe := OfVersion(recipes[name], version);
      if recipe.Some? then recipe.value.arch else Untested
  }

  function Cost(arch: Arch): int {
    match arch
    case Untested => 1
    case Broken => 2
    case _ => 0
  }

  // -- names in order

  predicate Less(a: string, b: string) {
    if b == [] then false
    else if a == [] then true
    else if a[0] != b[0] then a[0] < b[0]
    else Less(a[1..], b[1..])
  }

  lemma {:induction false} LessIsTotal(a: string, b: string)
    ensures a == b || Less(a, b) || Less(b, a)
  {
    if a != [] && b != [] && a[0] == b[0] {
      assert a == [a[0]] + a[1..] && b == [b[0]] + b[1..];
      LessIsTotal(a[1..], b[1..]);
    }
  }

  lemma {:induction false} LessIsTransitive(a: string, b: string, c: string)
    requires Less(a, b) && Less(b, c)
    ensures Less(a, c)
  {
    if a != [] && b != [] && a[0] == b[0] == c[0] {
      LessIsTransitive(a[1..], b[1..], c[1..]);
    }
  }

  /** At the first place they differ a has the lower character, or has ended. */
  lemma {:induction false} LessIs(a: string, b: string)
    ensures Less(a, b) <==> exists n: nat :: DiffersAt(a, b, n) && (n == |a| || a[n] < b[n])
  {
    if a != [] && b != [] && a[0] == b[0] {
      LessIs(a[1..], b[1..]);
      if n: nat :| DiffersAt(a, b, n) && (n == |a| || a[n] < b[n]) {
        assert a[1..][..n - 1] == a[..n][1..] && b[1..][..n - 1] == b[..n][1..];
        assert DiffersAt(a[1..], b[1..], n - 1);
      }
      if n: nat :| DiffersAt(a[1..], b[1..], n) && (n == |a[1..]| || a[1..][n] < b[1..][n]) {
        assert a[..n + 1] == [a[0]] + a[1..][..n] && b[..n + 1] == [b[0]] + b[1..][..n];
        assert DiffersAt(a, b, n + 1);
      }
    } else if b != [] {
      assert DiffersAt(a, b, 0);
    }
  }

  predicate DiffersAt(a: string, b: string, n: nat) {
    n <= |a| && n < |b| && a[..n] == b[..n]
  }

  // -- the choice

  predicate CrossAt(name: string, i: int) {
    0 <= i <= |name| - 7 && name[i..i + 7] == "_cross_"
  }

  /** A cross or bootstrap variant never qualifies. */
  predicate Variant(name: string) {
    || (exists i | 0 <= i < |name| :: CrossAt(name, i))
    || (|name| >= 10 && name[|name| - 10..] == "_bootstrap")
  }

  /** Those names that hold one text, or end in the other. */
  lemma {:induction false} VariantIs(name: string)
    ensures Variant(name) <==> (exists a, b :: name == a + "_cross_" + b) || exists a :: name == a + "_bootstrap"
  {
    if i :| 0 <= i < |name| && CrossAt(name, i) {
      assert name == name[..i] + "_cross_" + name[i + 7..];
    }
    if a, b :| name == a + "_cross_" + b {
      assert CrossAt(name, |a|);
    }
    if |name| >= 10 && name[|name| - 10..] == "_bootstrap" {
      assert name == name[..|name| - 10] + "_bootstrap";
    }
  }

  /** One already built, else the architecture supported best, else the first by name. */
  predicate Preferred(recipes: map<string, seq<Recipe>>, built: set<string>, a: Candidate, b: Candidate) {
    var costA, costB := Cost(ArchOf(recipes, a.name, a.version)), Cost(ArchOf(recipes, b.name, b.version));
    if (a.name in built) != (b.name in built) then a.name in built
    else if costA != costB then costA < costB
    else Less(a.name, b.name)
  }

  lemma {:induction false} PreferredIsTransitive(recipes: map<string, seq<Recipe>>, built: set<string>,
                                                 a: Candidate, b: Candidate, c: Candidate)
    requires Preferred(recipes, built, a, b) && Preferred(recipes, built, b, c)
    ensures Preferred(recipes, built, a, c)
  {
    if Less(a.name, b.name) && Less(b.name, c.name) {
      LessIsTransitive(a.name, b.name, c.name);
    }
  }

  /** The newest candidate of its name, the first of those as new. */
  ghost predicate NewestOfName(candidates: seq<Candidate>, i: int) {
    && 0 <= i < |candidates|
    && !Variant(candidates[i].name)
    && forall j | 0 <= j < |candidates| && candidates[j].name == candidates[i].name ::
         candidates[j].newness < candidates[i].newness || (candidates[j].newness == candidates[i].newness && i <= j)
  }

  ghost predicate Chosen(recipes: map<string, seq<Recipe>>, candidates: seq<Candidate>, built: set<string>,
                         r: Option<Candidate>)
  {
    match r
    case None => forall i | 0 <= i < |candidates| :: Variant(candidates[i].name)
    case Some(c) => exists i ::
      && NewestOfName(candidates, i) && candidates[i] == c
      && forall j | NewestOfName(candidates, j) && j != i :: Preferred(recipes, built, c, candidates[j])
  }

  /** There is one choice. */
  lemma {:induction false} OneChoice(recipes: map<string, seq<Recipe>>, candidates: seq<Candidate>, built: set<string>,
                                     r: Option<Candidate>, s: Option<Candidate>)
    requires Chosen(recipes, candidates, built, r) && Chosen(recipes, candidates, built, s)
    ensures r == s
  {
    if r.Some? && s.Some? {
      var i :| NewestOfName(candidates, i) && candidates[i] == r.value
        && forall j | NewestOfName(candidates, j) && j != i :: Preferred(recipes, built, r.value, candidates[j]);
      var k :| NewestOfName(candidates, k) && candidates[k] == s.value
        && forall j | NewestOfName(candidates, j) && j != k :: Preferred(recipes, built, s.value, candidates[j]);
      if i != k {
        NotBothLess(r.value.name, s.value.name);
      }
    }
  }

  /** Of the names that qualify one built is preferred; among those equally built one that may
      work to one untested, and that to one broken; and then the first by name. */
  lemma {:induction false} ChoiceIsBest(recipes: map<string, seq<Recipe>>, candidates: seq<Candidate>,
                                        built: set<string>, c: Candidate, j: int)
    requires Chosen(recipes, candidates, built, Some(c)) && NewestOfName(candidates, j) && candidates[j].name != c.name
    ensures var d := candidates[j];
      && (d.name in built ==> c.name in built)
      && ((c.name in built <==> d.name in built) ==>
           var ours, theirs := ArchOf(recipes, c.name, c.version), ArchOf(recipes, d.name, d.version);
           && (ours == Broken ==> theirs == Broken)
           && (ours == Untested ==> theirs == Untested || theirs == Broken)
           && (ours == theirs || (ours != Untested && theirs != Untested && theirs != Broken) ==> Less(c.name, d.name)))
  {
  }

  lemma {:induction false} NotBothLess(a: string, b: string)
    ensures !(Less(a, b) && Less(b, a))
  {
    if a != [] && b != [] && a[0] == b[0] {
      NotBothLess(a[1..], b[1..]);
    }
  }

  /** What is known of the candidates read so far: best, for each name that qualifies, the place
      of the newest. */
  ghost predicate Read(candidates: seq<Candidate>, names: seq<string>, best: map<string, nat>) {
    && (forall i | 0 <= i < |candidates| && !Variant(candidates[i].name) :: candidates[i].name in best)
    && (forall name | name in best :: NewestOfName(candidates, best[name]) && candidates[best[name]].name == name)
    && (forall i | 0 <= i < |names| :: names[i] in best)
    && (forall name | name in best :: name in names)
  }

  method BestOfEachName(candidates: seq<Candidate>) returns (names: seq<string>, best: map<string, nat>)
    ensures Read(candidates, names, best)
  {
    names, best := [], map[];
    assert candidates[..0] == [];
    for k := 0 to |candidates|
      invariant Read(candidates[..k], names, best)
    {
      var c := candidates[k];
      assert candidates[..k + 1] == candidates[..k] + [c];
      if !Variant(c.name) {
        if c.name !in best {
          names := names + [c.name];
          best := best[c.name := k];
        } else if c.newness > candidates[best[c.name]].newness {
          best := best[c.name := k];
        }
      }
    }
    assert candidates[..|candidates|] == candidates;
  }

  method ChooseProvider(recipes: map<string, seq<Recipe>>, candidates: seq<Candidate>, built: set<string>)
    returns (r: Option<Candidate>)
    ensures Chosen(recipes, candidates, built, r)
  {
    var names, best := BestOfEachName(candidates);
    if names == [] {
      return None;
    }
    var first := best[names[0]];
    for k := 1 to |names|
      invariant NewestOfName(candidates, first)
      invariant forall j | 0 <= j < k && best[names[j]] != first ::
        Preferred(recipes, built, candidates[first], candidates[best[names[j]]])
    {
      var next := best[names[k]];
      if Preferred(recipes, built, candidates[next], candidates[first]) {
        forall j | 0 <= j < k && best[names[j]] != next
          ensures Preferred(recipes, built, candidates[next], candidates[best[names[j]]])
        {
          if best[names[j]] != first {
            PreferredIsTransitive(recipes, built, candidates[next], candidates[first], candidates[best[names[j]]]);
          }
        }
        first := next;
      } else if next != first {
        LessIsTotal(candidates[next].name, candidates[first].name);
      }
    }
    forall j | NewestOfName(candidates, j) && j != first
      ensures Preferred(recipes, built, candidates[first], candidates[j])
    {
      assert best[candidates[j].name] == j;
    }
    r := Some(candidates[first]);
  }
}
