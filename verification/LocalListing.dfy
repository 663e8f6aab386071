/** The listing a package should have once it is copied in, and that it is the listing it gets. */
module LocalListing {
  import opened Wrappers
  import opened PackageTree
  import opened LocalPackages

  /** categorized_listing, the entries read in whatever order they are listed. */
  method CategorizeListing(order: seq<Path>, c: Contents, categories: map<string, string>, icons: map<string, seq<int>>)
    returns (moved: Contents)
    requires HasApplications(c)
    requires (forall i, j | 0 <= i < j < |order| :: order[i] != order[j]) && c.Keys == set p | p in order
    ensures ListingFits(c, categories) ==> CategorizedListing(c, categories, icons, moved)
  {
    moved := map[];
    for i := 0 to |order|
      invariant Paths(order[..i]) <= c.Keys
      invariant ListingFits(c, categories) ==> AfterReading(c, categories, icons, Paths(order[..i]), moved)
    {
      var path := order[i];
      assert order[..i + 1] == order[..i] + [path];
      assert Paths(order[..i + 1]) == Paths(order[..i]) + {path};
      if ListingFits(c, categories) {
        OneMoreRead(c, categories, icons, Paths(order[..i]), moved, path);
      }
      moved := ReadEntry(c, categories, icons, moved, path);
    }
    assert order[..|order|] == order;
  }

  method ReadEntry(c: Contents, categories: map<string, string>, icons: map<string, seq<int>>, now: Contents,
                   path: Path)
    returns (moved: Contents)
    requires HasApplications(c) && path in c
    ensures moved == WithEntry(c, categories, icons, now, path)
  {
    ChildIsChild(path);
    moved := now;
    if IsChild(path) && path[4] in categories && c[path].kind == 'l' {
      var name, folder := path[4], categories[path[4]];
      if Child(folder) !in moved {
        moved := moved[Child(folder) := NewEntry(c[APPLICATIONS], folder, icons)];
      }
      moved := moved[Inside(folder, name) := c[path].(link := RetargetText(c[path].link))];
    } else {
      moved := moved[path := c[path]];
    }
  }

  function Paths(order: seq<Path>): set<Path> {
    set p | p in order
  }

  ghost predicate AfterReading(c: Contents, categories: map<string, string>, icons: map<string, seq<int>>,
                               paths: set<Path>, now: Contents)
    requires paths <= c.Keys && HasApplications(c)
  {
    forall p :: Get(now, p) == EntryAfter(c, categories, icons, paths, p)
  }

  function WithEntry(c: Contents, categories: map<string, string>, icons: map<string, seq<int>>, now: Contents,
                     path: Path): Contents
    requires path in c && (IsChild(path) && Listed(c, categories, path[4]) ==> APPLICATIONS in c)
  {
    if IsChild(path) && Listed(c, categories, path[4]) && path == Child(path[4]) then
      var folder := categories[path[4]];
      var made := if Child(folder) in now then now else now[Child(folder) := NewEntry(c[APPLICATIONS], folder, icons)];
      made[Inside(folder, path[4]) := c[path].(link := RetargetText(c[path].link))]
    else now[path := c[path]]
  }

  lemma {:induction false} OneMoreRead(c: Contents, categories: map<string, string>, icons: map<string, seq<int>>,
                                       paths: set<Path>, now: Contents, path: Path)
    requires HasApplications(c) && paths <= c.Keys && path in c && path !in paths
    requires ListingFits(c, categories) && AfterReading(c, categories, icons, paths, now)
    ensures AfterReading(c, categories, icons, paths + {path}, WithEntry(c, categories, icons, now, path))
  {
    var after := WithEntry(c, categories, icons, now, path);
    ChildIsChild(path);
    forall p
      ensures Get(after, p) == EntryAfter(c, categories, icons, paths + {path}, p)
    {
      assert Get(now, p) == EntryAfter(c, categories, icons, paths, p);
      ChildIsChild(p);
      if IsChild(path) && Listed(c, categories, path[4]) {
        ReadMoved(c, categories, icons, paths, now, path[4], p);
      } else {
        ReadKept(c, categories, icons, paths, now, path, p);
      }
    }
  }

  lemma {:induction false} ReadKept(c: Contents, categories: map<string, string>, icons: map<string, seq<int>>,
                                    paths: set<Path>, now: Contents, path: Path, p: Path)
    requires HasApplications(c) && paths <= c.Keys && path in c && path !in paths && ListingFits(c, categories)
    requires forall name :: path == Child(name) ==> !Listed(c, categories, name)
    requires Get(now, p) == EntryAfter(c, categories, icons, paths, p)
    ensures Get(now[path := c[path]], p) == EntryAfter(c, categories, icons, paths + {path}, p)
  {
    ChildIsChild(p);
    if IsChild(p) && FilledListing(c, categories, paths + {path}, p[4]) {
      var name :| Child(name) in paths + {path} && Listed(c, categories, name) && categories[name] == p[4];
      assert Child(name) in paths;
    }
  }

  lemma {:induction false} ReadMoved(c: Contents, categories: map<string, string>, icons: map<string, seq<int>>,
                                     paths: set<Path>, now: Contents, name: string, p: Path)
    requires HasApplications(c) && paths <= c.Keys && Child(name) in c && Child(name) !in paths
    requires ListingFits(c, categories) && Listed(c, categories, name)
    requires Get(now, p) == EntryAfter(c, categories, icons, paths, p)
    ensures Get(WithEntry(c, categories, icons, now, Child(name)), p) ==
      EntryAfter(c, categories, icons, paths + {Child(name)}, p)
  {
    ChildIsChild(p);
    if IsChild(p) {
      FilledByOneEntry(c, categories, paths, name, p[4]);
    }
  }

  lemma {:induction false} FilledByOneEntry(c: Contents, categories: map<string, string>, paths: set<Path>,
                                            name: string, folder: string)
    requires Listed(c, categories, name)
    ensures FilledListing(c, categories, paths + {Child(name)}, folder) <==>
      FilledListing(c, categories, paths, folder) || categories[name] == folder
  {
    if categories[name] == folder {
      assert Child(name) in paths + {Child(name)};
    }
    if FilledListing(c, categories, paths + {Child(name)}, folder) && categories[name] != folder {
      var other :| Child(other) in paths + {Child(name)} && Listed(c, categories, other) && categories[other] == folder;
      assert Child(other)[4] == other;
    }
  }

  // -- the two agree

  /** What is to be a folder is not there, or is an entry that moves. */
  predicate IsMade(t: Tree, categories: map<string, string>, folder: string) {
    Child(folder) !in t || Moves(t, categories, folder)
  }

  /** A folder is made with an icon where Applications has one already: the listing is then
      expected to show both, and the attribute is written over. */
  ghost predicate IconClash(t: Tree, categories: map<string, string>, icons: map<string, seq<int>>)
    requires WellFormed(t)
  {
    exists name | Moves(t, categories, name) ::
      && categories[name] in icons && IsMade(t, categories, categories[name])
      && APPLICATIONS in t && "BEOS:ICON" in t[APPLICATIONS].attrs
  }

  lemma {:induction false} RetargetTextIsRetarget(target: string)
    ensures RetargetText("-> " + target) == "-> " + Retarget(target)
  {
    var link := "-> " + target;
    assert link[..3] == "-> " && link[3..] == target;
    if target != [] {
      assert link[..4] == "-> " + [target[0]];
      assert target[0] == '/' ==> link[..4] == "-> /";
      assert link[..4] == "-> /" ==> link[3] == '/';
    }
    assert "-> ../" + target == "-> " + ("../" + target);
  }

  lemma {:induction false} NewEntryIsListed(apps: Node, folder: string, icons: map<string, seq<int>>)
    requires apps.Dir?
    ensures NewEntry(EntryOf(apps), folder, icons) == EntryOf(NewFolder(apps, folder, icons)) <==>
      !(folder in icons && "BEOS:ICON" in apps.attrs)
  {
    if folder in icons {
      var icon := Attr("VICN", icons[folder]);
      if "BEOS:ICON" in apps.attrs {
        IconTwice(apps.attrs, icon);
      } else {
        IconAdded(apps.attrs, icon);
      }
    }
  }

  function ShownIcon(icon: Attr): Shown {
    ("BEOS:ICON", |icon.data|, icon.kind)
  }

  lemma {:induction false} IconAdded(attrs: map<string, Attr>, icon: Attr)
    requires "BEOS:ICON" !in attrs
    ensures multiset(AttrSet(attrs["BEOS:ICON" := icon])) == multiset(AttrSet(attrs)) + multiset{ShownIcon(icon)}
  {
    var now := attrs["BEOS:ICON" := icon];
    forall shown
      ensures shown in AttrSet(now) <==> shown in AttrSet(attrs) + {ShownIcon(icon)}
    {
      if shown in AttrSet(attrs) {
        assert now[shown.0] == attrs[shown.0];
      }
      assert now["BEOS:ICON"] == icon;
    }
    assert AttrSet(now) == AttrSet(attrs) + {ShownIcon(icon)};
  }

  lemma {:induction false} IconTwice(attrs: map<string, Attr>, icon: Attr)
    requires "BEOS:ICON" in attrs
    ensures multiset(AttrSet(attrs["BEOS:ICON" := icon])) != multiset(AttrSet(attrs)) + multiset{ShownIcon(icon)}
  {
    var was := ShownIcon(attrs["BEOS:ICON"]);
    OneShown(attrs, was);
    OneShown(attrs["BEOS:ICON" := icon], was);
    var told := multiset(AttrSet(attrs)) + multiset{ShownIcon(icon)};
    assert told[was] == if was == ShownIcon(icon) then 2 else 1;
  }

  lemma {:induction false} OneShown(attrs: map<string, Attr>, shown: Shown)
    requires shown.0 in attrs
    ensures multiset(AttrSet(attrs))[shown] ==
      if shown == (shown.0, |attrs[shown.0].data|, attrs[shown.0].kind) then 1 else 0
  {
  }

  lemma {:induction false} MovesAreListed(t: Tree, categories: map<string, string>, name: string)
    ensures Listed(Listing(t), categories, name) <==> Moves(t, categories, name)
  {
  }

  lemma {:induction false} ListingOfFitting(t: Tree, categories: map<string, string>, names: seq<string>)
    requires WellFormed(t) && AllFit(t, categories, names)
    ensures HasApplications(Listing(t)) && ListingFits(Listing(t), categories)
  {
    forall name | Child(name) in Listing(t)
      ensures APPLICATIONS in Listing(t)
    {
      var p := Child(name);
      assert p[..|p| - 1] == APPLICATIONS;
    }
    forall name | Listed(Listing(t), categories, name)
      ensures Inside(categories[name], name) !in Listing(t)
    {
      assert Moves(t, categories, name) && Fits(t, categories, names, name);
    }
  }

  function Shows(node: Option<Node>): Option<Entry> {
    if node.Some? then Some(EntryOf(node.value)) else None
  }

  lemma {:induction false} GetListing(t: Tree, p: Path)
    ensures Get(Listing(t), p) == Shows(Get(t, p))
  {
  }

  lemma {:induction false} FilledIsListed(t: Tree, categories: map<string, string>, folder: string)
    requires WellFormed(t)
    ensures FilledListing(Listing(t), categories, Listing(t).Keys, folder)
      <==> Filled(t, categories, AllNames(t), folder)
  {
    NamesAreThere(t, categories);
    forall name
      ensures Listed(Listing(t), categories, name) <==> Moves(t, categories, name)
    {
      MovesAreListed(t, categories, name);
    }
  }

  /** At every path but a new folder's, the listing expected is the listing of what is there. */
  lemma {:induction false} SameAt(t: Tree, categories: map<string, string>, icons: map<string, seq<int>>, p: Path)
    requires WellFormed(t) && HasApplications(Listing(t))
    ensures (EntryAfter(Listing(t), categories, icons, Listing(t).Keys, p) ==
        Shows(NodeAfter(t, categories, icons, AllNames(t), p))) <==>
      !(IsChild(p) && IsMade(t, categories, p[4]) && Filled(t, categories, AllNames(t), p[4])
        && p[4] in icons && APPLICATIONS in t && "BEOS:ICON" in t[APPLICATIONS].attrs)
  {
    NamesAreThere(t, categories);
    ChildIsChild(p);
    if IsChild(p) {
      FilledIsListed(t, categories, p[4]);
      MovesAreListed(t, categories, p[4]);
      if Filled(t, categories, AllNames(t), p[4]) && IsMade(t, categories, p[4]) {
        var apps := AppsOf(t, categories, AllNames(t), p[4]);
        NewEntryIsListed(apps, p[4], icons);
      }
    } else if IsInside(p) {
      MovesAreListed(t, categories, p[5]);
      if Moves(t, categories, p[5]) {
        RetargetTextIsRetarget(t[Child(p[5])].target);
      }
    }
  }

  /** For every package, what the listing is expected to be is the listing of what it becomes,
      exactly when no folder made would have two icons. */
  lemma {:induction false} ListingsAgree(t: Tree, categories: map<string, string>, icons: map<string, seq<int>>,
                                         after: Tree, expected: Contents)
    requires WellFormed(t) && Categorized(t, categories, icons, after)
    requires HasApplications(Listing(t)) && CategorizedListing(Listing(t), categories, icons, expected)
    ensures Listing(after) == expected <==> !IconClash(t, categories, icons)
  {
    forall p
      ensures Get(Listing(after), p) == Shows(NodeAfter(t, categories, icons, AllNames(t), p))
      ensures Get(expected, p) == EntryAfter(Listing(t), categories, icons, Listing(t).Keys, p)
    {
      GetListing(after, p);
    }
    if IconClash(t, categories, icons) {
      var name :| Moves(t, categories, name) && categories[name] in icons
        && IsMade(t, categories, categories[name]) && APPLICATIONS in t && "BEOS:ICON" in t[APPLICATIONS].attrs;
      NamesAreThere(t, categories);
      SameAt(t, categories, icons, Child(categories[name]));
    } else {
      forall p
        ensures Get(Listing(after), p) == Get(expected, p)
      {
        SameAt(t, categories, icons, p);
        ChildIsChild(p);
      }
      SameMap(Listing(after), expected);
    }
  }

  // -- the next run

  /** A package file: its attributes and what is in it. */
  datatype Hpkg = Hpkg(attributes: map<string, seq<string>>, tree: Tree)

  /** Everything but the vendor, and the file that names it. */
  predicate SameButVendor(a: map<string, seq<string>>, c: Contents, b: map<string, seq<string>>, d: Contents) {
    a - {"vendor"} == b - {"vendor"} && c - {INFO} == d - {INFO}
  }

  const INFO: Path := [".PackageInfo"]

  /** The package with the vendor's line of its .PackageInfo replaced. */
  function Edited(t: Tree, info: Node): Tree {
    t[INFO := info]
  }

  ghost predicate HasInfo(t: Tree) {
    INFO in t && t[INFO].File?
  }

  lemma {:induction false} EditedIsWellFormed(t: Tree, info: Node)
    requires WellFormed(t) && HasInfo(t)
    ensures WellFormed(Edited(t, info))
  {
  }

  /** What is categorized: the package with its vendor replaced and the blocked entries gone. */
  function Prepared(t: Tree, info: Node, blocked: set<string>): Tree {
    Unblocked(Edited(t, info), blocked)
  }

  lemma {:induction false} PreparedIsSound(t: Tree, info: Node, blocked: set<string>)
    requires WellFormed(t) && HasInfo(t)
    ensures WellFormed(Prepared(t, info, blocked))
  {
    EditedIsWellFormed(t, info);
    UnblockedIsWellFormed(Edited(t, info), blocked);
  }

  /** copy_with_vendor. */
  method CopyWithVendor(src: Hpkg, vendor: string, info: Node, categories: map<string, string>,
                        icons: map<string, seq<int>>, blocked: set<string>, names: seq<string>)
    returns (r: Result<Hpkg, Error>)
    requires WellFormed(src.tree) && HasInfo(src.tree) && IsOrder(Prepared(src.tree, info, blocked), names)
    ensures WellFormed(Prepared(src.tree, info, blocked))
    ensures r.Success? <==> AllFit(Prepared(src.tree, info, blocked), categories, names)
    ensures r.Success? ==> Categorized(Prepared(src.tree, info, blocked), categories, icons, r.value.tree)
    ensures r.Success? ==> r.value.attributes == src.attributes["vendor" := [vendor]]
  {
    EditedIsWellFormed(src.tree, info);
    PreparedIsSound(src.tree, info, blocked);
    var root := new Extracted(Edited(src.tree, info));
    var _ := root.RemoveBlocked(blocked);
    var _ :- root.Categorize(names, categories, icons);
    r := Success(Hpkg(src.attributes["vendor" := [vendor]], root.nodes));
  }

  lemma {:induction false} InfoDoesNotMatter(c: Contents, info: Entry, categories: map<string, string>,
                                             icons: map<string, seq<int>>, expected: Contents)
    requires INFO in c && HasApplications(c) && CategorizedListing(c, categories, icons, expected)
    ensures HasApplications(c[INFO := info])
    ensures CategorizedListing(c[INFO := info], categories, icons, expected[INFO := info])
  {
    var d := c[INFO := info];
    assert d.Keys == c.Keys;
    forall p
      ensures Get(expected[INFO := info], p) == EntryAfter(d, categories, icons, d.Keys, p)
    {
      assert Get(expected, p) == EntryAfter(c, categories, icons, c.Keys, p);
      if IsChild(p) {
        assert forall name :: Listed(d, categories, name) <==> Listed(c, categories, name);
        assert FilledListing(d, categories, d.Keys, p[4]) <==> FilledListing(c, categories, c.Keys, p[4]);
      }
    }
  }

  /** A package just copied in is up to date for the next run, whatever is in it, exactly when
      no folder made for it has two icons. */
  lemma {:induction false} CopyIsUpToDate(src: Hpkg, vendor: string, info: Node, categories: map<string, string>,
                                          icons: map<string, seq<int>>, blocked: set<string>, dst: Hpkg,
                                          expected: Contents)
    requires WellFormed(src.tree) && HasInfo(src.tree) && WellFormed(Prepared(src.tree, info, blocked))
    requires Categorized(Prepared(src.tree, info, blocked), categories, icons, dst.tree)
    requires dst.attributes == src.attributes["vendor" := [vendor]]
    requires HasApplications(UnblockedListing(Listing(src.tree), blocked))
    requires CategorizedListing(UnblockedListing(Listing(src.tree), blocked), categories, icons, expected)
    ensures SameButVendor(dst.attributes, Listing(dst.tree), src.attributes, expected) <==>
      !IconClash(Prepared(src.tree, info, blocked), categories, icons)
    ensures dst.attributes["vendor"] == [vendor]
  {
    var t, c := Prepared(src.tree, info, blocked), UnblockedListing(Listing(src.tree), blocked);
    PreparedIsSound(src.tree, info, blocked);
    UnblockedListingIsListing(src.tree, blocked);
    PreparedListing(src.tree, info, blocked);
    InfoDoesNotMatter(c, EntryOf(info), categories, icons, expected);
    ListingsAgree(t, categories, icons, dst.tree, expected[INFO := EntryOf(info)]);
    InfoIsKept(t, categories, icons, dst.tree, info);
    StripInfo(Listing(dst.tree), expected, EntryOf(info));
    StripVendor(src.attributes, vendor);
  }

  lemma {:induction false} PreparedListing(t: Tree, info: Node, blocked: set<string>)
    requires HasInfo(t)
    ensures var prepared, c := Prepared(t, info, blocked), Listing(Unblocked(t, blocked));
      INFO in c && INFO in prepared && prepared[INFO] == info && Listing(prepared) == c[INFO := EntryOf(info)]
  {
    var prepared, c := Prepared(t, info, blocked), Listing(Unblocked(t, blocked));
    assert !InMenu(INFO) && !InBlockedApp(INFO, blocked);
    forall p
      ensures Get(Listing(prepared), p) == Get(c[INFO := EntryOf(info)], p)
    {
      GetListing(prepared, p);
      GetListing(Unblocked(t, blocked), p);
    }
    SameMap(Listing(prepared), c[INFO := EntryOf(info)]);
  }

  lemma {:induction false} StripVendor(attributes: map<string, seq<string>>, vendor: string)
    ensures attributes["vendor" := [vendor]] - {"vendor"} == attributes - {"vendor"}
  {
  }

  lemma {:induction false} InfoIsKept(t: Tree, categories: map<string, string>, icons: map<string, seq<int>>,
                                      after: Tree, info: Node)
    requires WellFormed(t) && Categorized(t, categories, icons, after) && INFO in t && t[INFO] == info
    ensures INFO in Listing(after) && Listing(after)[INFO] == EntryOf(info)
  {
    assert Get(after, INFO) == NodeAfter(t, categories, icons, AllNames(t), INFO);
  }

  lemma {:induction false} StripInfo(a: Contents, b: Contents, info: Entry)
    requires INFO in a && a[INFO] == info
    ensures a == b[INFO := info] <==> a - {INFO} == b - {INFO}
  {
    if a - {INFO} == b - {INFO} {
      forall p
        ensures p in a <==> p in b[INFO := info]
        ensures p in a ==> a[p] == b[INFO := info][p]
      {
        if p != INFO {
          assert p in a <==> p in a - {INFO};
          assert p in b <==> p in b - {INFO};
          assert p in a ==> (a - {INFO})[p] == a[p] && (b - {INFO})[p] == b[p];
        }
      }
    }
    if a == b[INFO := info] {
      assert a - {INFO} == b - {INFO};
    }
  }

  lemma {:induction false} PreparedFits(t: Tree, info: Node, blocked: set<string>, categories: map<string, string>,
                                        names: seq<string>)
    requires HasInfo(t) && AllFit(Prepared(t, info, blocked), categories, names)
    ensures AllFit(Unblocked(t, blocked), categories, names)
  {
    var u, v := Unblocked(t, blocked), Prepared(t, info, blocked);
    forall name | Moves(u, categories, name)
      ensures Fits(u, categories, names, name)
    {
      assert Moves(v, categories, name) && Fits(v, categories, names, name);
    }
  }

  /** A run of local-packages that copies a package in, its entries moved in whatever order, and
      the next run's question whether it is to be updated, its listing read in whatever order: no,
      unless a folder has two icons. */
  method CopyThenAsk(src: Hpkg, vendor: string, info: Node, categories: map<string, string>,
                     icons: map<string, seq<int>>, blocked: set<string>, names: seq<string>, order: seq<Path>)
    returns (copied: bool, update: bool)
    requires WellFormed(src.tree) && HasInfo(src.tree) && IsOrder(Prepared(src.tree, info, blocked), names)
    requires forall i, j | 0 <= i < j < |order| :: order[i] != order[j]
    requires Listing(Unblocked(src.tree, blocked)).Keys == set p | p in order
    ensures WellFormed(Prepared(src.tree, info, blocked))
    ensures copied <==> AllFit(Prepared(src.tree, info, blocked), categories, names)
    ensures copied ==> (update <==> IconClash(Prepared(src.tree, info, blocked), categories, icons))
  {
    var dst := CopyWithVendor(src, vendor, info, categories, icons, blocked, names);
    if dst.Failure? {
      return false, false;
    }
    var t := Unblocked(src.tree, blocked);
    var c := UnblockedListing(Listing(src.tree), blocked);
    UnblockedListingIsListing(src.tree, blocked);
    UnblockedIsWellFormed(src.tree, blocked);
    PreparedFits(src.tree, info, blocked, categories, names);
    ListingOfFitting(t, categories, names);
    var expected := CategorizeListing(order, c, categories, icons);
    CopyIsUpToDate(src, vendor, info, categories, icons, blocked, dst.value, expected);
    copied := true;
    update := !(dst.value.attributes["vendor"] == [vendor]
      && SameButVendor(dst.value.attributes, Listing(dst.value.tree), src.attributes, expected));
  }

  // -- a package that is always to be updated

  const PONG_CATEGORIES: map<string, string> := map["Pong" := "Games"]
  const PONG_ICONS: map<string, seq<int>> := map["Games" := [2]]
  const INFO_FILE: Node := File(420, map[], 9)

  function PongNode(p: Path): Node {
    if p == INFO then INFO_FILE
    else if |p| < 4 then Dir(493, map[])
    else if |p| == 4 then Dir(493, map["BEOS:ICON" := Attr("VICN", [1])])
    else Link(493, map[], "/boot/system/apps/Pong")
  }

  const PONG_PATHS: seq<Path> :=
    [INFO, APPLICATIONS[..1], APPLICATIONS[..2], APPLICATIONS[..3], APPLICATIONS, Child("Pong")]

  /** Applications with an icon, and an entry for a folder that gets one. */
  function PongTree(): Tree {
    map p | p in PONG_PATHS :: PongNode(p)
  }

  lemma {:induction false} PongPaths()
    ensures forall i, j | 0 <= i < j < |PONG_PATHS| :: PONG_PATHS[i] != PONG_PATHS[j]
    ensures PONG_PATHS[1] == ["data"] && Child("Pong") == PONG_PATHS[5]
  {
    assert forall i | 0 < i < |PONG_PATHS| :: |PONG_PATHS[i]| == i;
    assert INFO[0] != APPLICATIONS[..1][0];
  }

  lemma {:induction false} PongTreeIsWellFormed()
    ensures WellFormed(PongTree()) && HasInfo(PongTree())
  {
    var t := PongTree();
    PongPaths();
    assert INFO == PONG_PATHS[0];
    forall p | p in t && |p| > 1
      ensures p[..|p| - 1] in t && t[p[..|p| - 1]].Dir?
    {
      var i :| 0 <= i < |PONG_PATHS| && PONG_PATHS[i] == p;
      assert p[..|p| - 1] == PONG_PATHS[i - 1];
    }
  }

  lemma {:induction false} PongIsPrepared()
    ensures Prepared(PongTree(), INFO_FILE, {}) == PongTree() == Unblocked(PongTree(), {})
  {
    assert INFO == PONG_PATHS[0];
  }

  lemma {:induction false} PongIsOrder()
    ensures IsOrder(PongTree(), ["Pong"])
  {
    var t := PongTree();
    PongPaths();
    forall p | p in t && IsChild(p)
      ensures p[4] == "Pong"
    {
      var i :| 0 <= i < |PONG_PATHS| && PONG_PATHS[i] == p;
      assert |p| == 5 && i == 5;
    }
    assert Child("Pong") in t;
    assert AllNames(t) == {"Pong"};
  }

  lemma {:induction false} PongMoves(t: Tree, p: Path)
    requires t == PongTree()
    ensures p in t && |p| >= 5 ==> p == Child("Pong")
    ensures Child("Pong") in t && t[Child("Pong")].Link?
    ensures APPLICATIONS in t && "BEOS:ICON" in t[APPLICATIONS].attrs
  {
    PongPaths();
    assert APPLICATIONS == PONG_PATHS[4];
    if p in t && |p| >= 5 {
      var i :| 0 <= i < |PONG_PATHS| && PONG_PATHS[i] == p;
      assert |p| == i == 5;
    }
  }

  /** A package with one entry, that goes into a folder. */
  lemma {:induction false} OneEntry(t: Tree, categories: map<string, string>, name: string, folder: string)
    requires WellFormed(t) && Child(name) in t && t[Child(name)].Link? && name != folder
    requires forall p | p in t && |p| >= 5 :: p == Child(name)
    requires categories == map[name := folder]
    ensures AllFit(t, categories, [name]) && Moves(t, categories, name) && IsMade(t, categories, folder)
  {
    assert Child(folder)[4] != Child(name)[4];
  }

  /** It can be copied, and a folder of it has two icons. */
  lemma {:induction false} TwoIcons()
    ensures WellFormed(PongTree()) && AllFit(PongTree(), PONG_CATEGORIES, ["Pong"])
    ensures IconClash(PongTree(), PONG_CATEGORIES, PONG_ICONS)
  {
    var t := PongTree();
    PongTreeIsWellFormed();
    forall p | p in t && |p| >= 5
      ensures p == Child("Pong")
    {
      PongMoves(t, p);
    }
    PongMoves(t, INFO);
    OneEntry(t, PONG_CATEGORIES, "Pong", "Games");
  }

  /** So it is copied in, and the next run lists it for update, as does every run after that. */
  method ListedForEver(vendor: string, attributes: map<string, seq<string>>) returns (copied: bool, update: bool)
    ensures copied && update
  {
    var t, names, order := PongTree(), ["Pong"], PONG_PATHS;
    PongIsListed();
    var src := Hpkg(attributes, t);
    copied, update := CopyThenAsk(src, vendor, INFO_FILE, PONG_CATEGORIES, PONG_ICONS, {}, names, order);
  }

  /** A package that can be copied, read in this order, a folder of which has two icons. */
  ghost predicate AlwaysListed(t: Tree, names: seq<string>, order: seq<Path>) {
    && WellFormed(t) && HasInfo(t) && IsOrder(Prepared(t, INFO_FILE, {}), names)
    && (forall i, j | 0 <= i < j < |order| :: order[i] != order[j])
    && Listing(Unblocked(t, {})).Keys == (set p | p in order)
    && AllFit(Prepared(t, INFO_FILE, {}), PONG_CATEGORIES, names)
    && IconClash(Prepared(t, INFO_FILE, {}), PONG_CATEGORIES, PONG_ICONS)
  }

  lemma {:induction false} PongIsListed()
    ensures AlwaysListed(PongTree(), ["Pong"], PONG_PATHS)
  {
    PongTreeIsWellFormed();
    PongIsPrepared();
    PongIsOrder();
    PongPaths();
    TwoIcons();
  }

  // -- where a moved link points

  /** A target's parts between slashes. */
  function Parts(target: string): (parts: seq<string>)
    ensures parts != []
  {
    if target == "" then [""]
    else if target[0] == '/' then [""] + Parts(target[1..])
    else
      var rest := Parts(target[1..]);
      [[target[0]] + rest[0]] + rest[1..]
  }

  function Slashed(parts: seq<string>): string
    requires parts != []
  {
    if |parts| == 1 then parts[0] else parts[0] + "/" + Slashed(parts[1..])
  }

  /** No part has a slash, and with slashes between them they are the target again. */
  lemma {:induction false} PartsAre(target: string)
    ensures Slashed(Parts(target)) == target && forall part | part in Parts(target) :: '/' !in part
    decreases |target|
  {
    if target != "" {
      var rest := Parts(target[1..]);
      PartsAre(target[1..]);
      assert target == [target[0]] + target[1..];
      if target[0] == '/' {
        assert ([""] + rest)[1..] == rest;
      } else {
        SlashedLonger(target[0], rest);
      }
    }
  }

  lemma {:induction false} SlashedLonger(c: char, parts: seq<string>)
    requires parts != []
    ensures Slashed([[c] + parts[0]] + parts[1..]) == [c] + Slashed(parts)
  {
    var longer := [[c] + parts[0]] + parts[1..];
    assert longer[1..] == parts[1..];
    if |parts| > 1 {
      assert [c] + parts[0] + "/" + Slashed(parts[1..]) == [c] + (parts[0] + "/" + Slashed(parts[1..]));
    }
  }

  /** The path a relative link in a directory leads to. */
  function Follow(dir: Path, parts: seq<string>): Path
    decreases |parts|
  {
    if parts == [] then dir
    else if parts[0] == ".." then Follow(if dir == [] then [] else dir[..|dir| - 1], parts[1..])
    else if parts[0] == "" || parts[0] == "." then Follow(dir, parts[1..])
    else Follow(dir + [parts[0]], parts[1..])
  }

  /** A name leads into it, two dots out of it again, and one dot or nothing nowhere. */
  lemma {:induction false} FollowOne(dir: Path, name: string)
    requires name !in {"", ".", ".."}
    ensures Follow(dir, [name]) == dir + [name] && Follow(dir + [name], [".."]) == dir && Follow([], [".."]) == []
    ensures Follow(dir, []) == Follow(dir, [""]) == Follow(dir, ["."]) == dir
  {
    assert (dir + [name])[..|dir|] == dir;
  }

  /** Parts are followed one after another. */
  lemma {:induction false} FollowOn(dir: Path, parts: seq<string>, more: seq<string>)
    ensures Follow(dir, parts + more) == Follow(Follow(dir, parts), more)
    decreases |parts|
  {
    if parts == [] {
      assert parts + more == more;
    } else {
      assert (parts + more)[0] == parts[0] && (parts + more)[1..] == parts[1..] + more;
      var next := if parts[0] == ".." then (if dir == [] then [] else dir[..|dir| - 1])
                  else if parts[0] == "" || parts[0] == "." then dir
                  else dir + [parts[0]];
      FollowOn(next, parts[1..], more);
    }
  }

  /** A relative link moved into a folder leads where it led. */
  lemma {:induction false} MovedLinkLeadsTheSame(target: string, folder: string)
    requires target == "" || target[0] != '/'
    ensures Follow(APPLICATIONS + [folder], Parts(Retarget(target))) == Follow(APPLICATIONS, Parts(target))
  {
    var longer := "../" + target;
    assert longer[1..] == "./" + target && ("./" + target)[1..] == "/" + target && ("/" + target)[1..] == target;
    assert Parts("/" + target) == [""] + Parts(target);
    assert Parts("./" + target) == ["."] + Parts(target) by {
      assert ['.'] + "" == ".";
    }
    assert Parts(longer) == [".."] + Parts(target) by {
      assert ['.'] + "." == "..";
    }
    assert (APPLICATIONS + [folder])[..|APPLICATIONS|] == APPLICATIONS;
  }
}
