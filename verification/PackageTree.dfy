/** An extracted package as a map of paths, and its listing. */
module PackageTree {
  import opened Wrappers

  type Path = seq<string>

  /** A Haiku attribute: its type and its bytes. */
  datatype Attr = Attr(kind: string, data: seq<int>)

  datatype Node =
    | Dir(mode: int, attrs: map<string, Attr>)
    | File(mode: int, attrs: map<string, Attr>, size: nat)
    | Link(mode: int, attrs: map<string, Attr>, target: string)

  type Tree = map<Path, Node>

  /** Everything is in a directory. */
  ghost predicate WellFormed(t: Tree) {
    forall p | p in t && |p| > 1 :: p[..|p| - 1] in t && t[p[..|p| - 1]].Dir?
  }

  /** What `package list -a` shows of an attribute: its name, its size and its type. */
  type Shown = (string, nat, string)

  /** A line of the listing: no size for a directory, "-> " before a link's target, the
      attributes in sorted order, so as a multiset. */
  datatype Entry = Entry(size: Option<nat>, kind: char, mode: int, link: string, attrs: multiset<Shown>)

  type Contents = map<Path, Entry>

  function AttrSet(attrs: map<string, Attr>): set<Shown> {
    set name | name in attrs :: (name, |attrs[name].data|, attrs[name].kind)
  }

  function EntryOf(node: Node): Entry {
    match node
    case Dir(mode, attrs) => Entry(None, 'd', mode, "", multiset(AttrSet(attrs)))
    case File(mode, attrs, size) => Entry(Some(size), '-', mode, "", multiset(AttrSet(attrs)))
    case Link(mode, attrs, target) => Entry(Some(0), 'l', mode, "-> " + target, multiset(AttrSet(attrs)))
  }

  function Listing(t: Tree): Contents {
    map p | p in t :: EntryOf(t[p])
  }

  function Get<V>(m: map<Path, V>, p: Path): Option<V> {
    if p in m then Some(m[p]) else None
  }

  lemma {:induction false} SameMap<V>(m: map<Path, V>, n: map<Path, V>)
    requires forall p :: Get(m, p) == Get(n, p)
    ensures m == n
  {
    forall p
      ensures p in m <==> p in n
      ensures p in m ==> m[p] == n[p]
    {
      assert Get(m, p) == Get(n, p);
    }
  }

  const MENU: Path := ["data", "deskbar", "menu"]
  const APPLICATIONS: Path := ["data", "deskbar", "menu", "Applications"]

  /** An entry of the Applications menu. */
  function Child(name: string): (p: Path)
    ensures IsChild(p) && p[4] == name
  {
    APPLICATIONS + [name]
  }

  predicate IsChild(p: Path) {
    |p| == 5 && p[..4] == APPLICATIONS
  }

  /** An entry of one of its folders. */
  function Inside(folder: string, name: string): (p: Path)
    ensures IsInside(p) && p[4] == folder && p[5] == name
  {
    APPLICATIONS + [folder, name]
  }

  predicate IsInside(p: Path) {
    |p| == 6 && p[..4] == APPLICATIONS
  }

  lemma {:induction false} ChildIsChild(p: Path)
    ensures IsChild(p) ==> p == Child(p[4])
    ensures IsInside(p) ==> p == Inside(p[4], p[5])
  {
    if IsChild(p) {
      assert p == p[..4] + [p[4]];
    }
    if IsInside(p) {
      assert p == p[..4] + [p[4], p[5]];
    }
  }

  // -- blocked applications

  /** In apps/<name>, or in the Deskbar's menu and so named. */
  predicate Blocked(p: Path, isDir: bool, blocked: set<string>) {
    InBlockedApp(p, blocked) || (InMenu(p) && p[|p| - 1] in blocked && !isDir)
  }

  predicate InBlockedApp(p: Path, names: set<string>) {
    |p| >= 2 && p[0] == "apps" && p[1] in names
  }

  predicate InMenu(p: Path) {
    |p| > 3 && p[..3] == MENU
  }

  /** Below data/deskbar/menu, which is not itself in it. */
  lemma {:induction false} InMenuIs(p: Path)
    ensures InMenu(p) <==> exists below :: below != [] && p == ["data", "deskbar", "menu"] + below
  {
    if InMenu(p) {
      assert p == p[..3] + p[3..];
    }
  }

  function Unblocked(t: Tree, blocked: set<string>): Tree {
    map p | p in t && !Blocked(p, t[p].Dir?, blocked) :: t[p]
  }

  /** The blocked applications and entries themselves, not what is in the applications. */
  function BlockedTops(t: Tree, blocked: set<string>): set<Path> {
    set p | p in t && Blocked(p, t[p].Dir?, blocked) && (InMenu(p) || |p| == 2)
  }

  /** unblocked_listing. */
  function UnblockedListing(contents: Contents, blocked: set<string>): Contents {
    if blocked == {} then contents
    else map p | p in contents && !Blocked(p, contents[p].kind == 'd', blocked) :: contents[p]
  }

  lemma {:induction false} UnblockedListingIsListing(t: Tree, blocked: set<string>)
    ensures UnblockedListing(Listing(t), blocked) == Listing(Unblocked(t, blocked))
  {
  }

  lemma {:induction false} InsideBlockedApp(p: Path, blocked: set<string>)
    requires |p| > 1 && InBlockedApp(p[..|p| - 1], blocked)
    ensures InBlockedApp(p, blocked)
  {
  }

  lemma {:induction false} UnblockedIsWellFormed(t: Tree, blocked: set<string>)
    requires WellFormed(t)
    ensures WellFormed(Unblocked(t, blocked))
  {
    forall p | p in Unblocked(t, blocked) && |p| > 1
      ensures var up := p[..|p| - 1];
        up in Unblocked(t, blocked) && t[up].Dir?
    {
      if InBlockedApp(p[..|p| - 1], blocked) {
        InsideBlockedApp(p, blocked);
      }
    }
  }

  // -- categories

  /** An entry of the Applications menu that goes into a folder: a link whose name has one. */
  predicate Moves(t: Tree, categories: map<string, string>, name: string) {
    Child(name) in t && t[Child(name)].Link? && name in categories
  }

  /** The folder gets the mode and attributes of Applications, and its icon. */
  function NewFolder(apps: Node, folder: string, icons: map<string, seq<int>>): Node {
    Dir(apps.mode, if folder in icons then apps.attrs["BEOS:ICON" := Attr("VICN", icons[folder])] else apps.attrs)
  }

  /** A relative link is followed from one directory further down. */
  function Retarget(target: string): string {
    if |target| > 0 && target[0] == '/' then target else "../" + target
  }

  /** What is at a path when the entries of these names have been moved. */
  ghost function NodeAfter(t: Tree, categories: map<string, string>, icons: map<string, seq<int>>, names: set<string>,
                           p: Path): Option<Node>
    requires WellFormed(t)
  {
    if IsChild(p) then
      if p in t && !(p[4] in names && Moves(t, categories, p[4])) then Some(t[p])
      else if Filled(t, categories, names, p[4]) then
        Some(NewFolder(AppsOf(t, categories, names, p[4]), p[4], icons))
      else None
    else if IsInside(p) && p[5] in names && Moves(t, categories, p[5]) && categories[p[5]] == p[4] then
      var link := t[Child(p[5])];
      Some(Link(link.mode, link.attrs, Retarget(link.target)))
    else Get(t, p)
  }

  /** An entry has been moved into the folder. */
  ghost predicate Filled(t: Tree, categories: map<string, string>, names: set<string>, folder: string) {
    exists name | name in names && Moves(t, categories, name) :: categories[name] == folder
  }

  ghost function AppsOf(t: Tree, categories: map<string, string>, names: set<string>, folder: string): (apps: Node)
    requires WellFormed(t) && Filled(t, categories, names, folder)
    ensures APPLICATIONS in t && apps == t[APPLICATIONS] && apps.Dir?
  {
    var name :| name in names && Moves(t, categories, name) && categories[name] == folder;
    MovesFromDir(t, categories, name);
    t[APPLICATIONS]
  }

  lemma {:induction false} MovesFromDir(t: Tree, categories: map<string, string>, name: string)
    requires WellFormed(t) && Moves(t, categories, name)
    ensures APPLICATIONS in t && t[APPLICATIONS].Dir?
  {
    var p := Child(name);
    assert p[..|p| - 1] == APPLICATIONS;
  }

  predicate Before(order: seq<string>, first: string, second: string) {
    exists i, j | 0 <= i < j < |order| :: order[i] == first && order[j] == second
  }

  /** The folder can be made or is there, and has nothing of the name. A link in its place is taken
      to lead nowhere, so that the folder can be made only once that link is moved itself. */
  predicate Fits(t: Tree, categories: map<string, string>, order: seq<string>, name: string)
    requires name in categories
  {
    var folder := categories[name];
    && (Child(folder) in t ==>
          t[Child(folder)].Dir? || (Moves(t, categories, folder) && Before(order, folder, name)))
    && Inside(folder, name) !in t
  }

  ghost predicate AllFit(t: Tree, categories: map<string, string>, order: seq<string>) {
    forall name | Moves(t, categories, name) :: Fits(t, categories, order, name)
  }

  /** The entries of Applications, in some order. */
  ghost predicate IsOrder(t: Tree, order: seq<string>) {
    (forall i, j | 0 <= i < j < |order| :: order[i] != order[j]) && (set name | name in order) == AllNames(t)
  }

  ghost function AllNames(t: Tree): set<string> {
    set p | p in t && IsChild(p) :: p[4]
  }

  /** after is t with every entry that has a folder moved into it. */
  ghost predicate Categorized(t: Tree, categories: map<string, string>, icons: map<string, seq<int>>, after: Tree)
    requires WellFormed(t)
  {
    forall p :: Get(after, p) == NodeAfter(t, categories, icons, AllNames(t), p)
  }

  // -- the same on listings

  predicate Listed(c: Contents, categories: map<string, string>, name: string) {
    Child(name) in c && c[Child(name)].kind == 'l' && name in categories
  }

  function NewEntry(apps: Entry, folder: string, icons: map<string, seq<int>>): Entry {
    if folder in icons then apps.(attrs := apps.attrs + multiset{("BEOS:ICON", |icons[folder]|, "VICN")}) else apps
  }

  function RetargetText(link: string): string {
    if |link| >= 3 && link[..3] == "-> " && !(|link| >= 4 && link[..4] == "-> /") then "-> ../" + link[3..] else link
  }

  /** The entries under Applications come with Applications itself. */
  ghost predicate HasApplications(c: Contents) {
    forall name | Child(name) in c :: APPLICATIONS in c
  }

  ghost predicate FilledListing(c: Contents, categories: map<string, string>, paths: set<Path>, folder: string) {
    exists name | Child(name) in paths && Listed(c, categories, name) :: categories[name] == folder
  }

  /** What categorized_listing has at a path when these of its entries have been read. */
  ghost function EntryAfter(c: Contents, categories: map<string, string>, icons: map<string, seq<int>>,
                            paths: set<Path>, p: Path): Option<Entry>
    requires paths <= c.Keys && HasApplications(c)
  {
    if IsChild(p) then
      if p in paths && !Listed(c, categories, p[4]) then Some(c[p])
      else if FilledListing(c, categories, paths, p[4]) then Some(NewEntry(c[APPLICATIONS], p[4], icons))
      else None
    else if IsInside(p) && Child(p[5]) in paths && Listed(c, categories, p[5])
            && categories[p[5]] == p[4] then
      var link := c[Child(p[5])];
      Some(link.(link := RetargetText(link.link)))
    else if p in paths then Some(c[p])
    else None
  }

  /** Nothing of a moved entry's name in its folder. */
  ghost predicate ListingFits(c: Contents, categories: map<string, string>) {
    forall name | Listed(c, categories, name) :: Inside(categories[name], name) !in c
  }

  ghost predicate CategorizedListing(c: Contents, categories: map<string, string>, icons: map<string, seq<int>>,
                                     after: Contents)
    requires HasApplications(c)
  {
    forall p :: Get(after, p) == EntryAfter(c, categories, icons, c.Keys, p)
  }
}
