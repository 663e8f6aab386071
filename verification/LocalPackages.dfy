/** local-packages: the tree edited, the listing the edit should leave, and why the two agree. */
module LocalPackages {
  import opened Wrappers
  import opened PackageTree

  datatype Error = InTheWay(name: string)

  class Extracted {
    var nodes: Tree

    constructor (t: Tree)
      ensures nodes == t
    {
      nodes := t;
    }

    method RemoveTree(p: Path)
      modifies this
      ensures nodes == map q | q in old(nodes) && !(p <= q) :: old(nodes)[q]
    {
      nodes := map q | q in nodes && !(p <= q) :: nodes[q];
    }

    /** remove_blocked_apps. What was removed, not counting what was below it. */
    method RemoveBlocked(blocked: set<string>) returns (removed: set<Path>)
      requires WellFormed(nodes)
      modifies this
      ensures nodes == Unblocked(old(nodes), blocked) && removed == BlockedTops(old(nodes), blocked)
    {
      TopsAre(nodes, blocked);
      var apps := RemoveApps(blocked);
      var entries := RemoveEntries(blocked);
      removed := apps + entries;
    }

    method RemoveApps(blocked: set<string>) returns (removed: set<Path>)
      requires WellFormed(nodes)
      modifies this
      ensures nodes == WithoutApps(old(nodes), blocked)
      ensures removed == AppsIn(old(nodes), blocked)
    {
      removed := {};
      var left := blocked;
      while left != {}
        invariant left <= blocked
        invariant nodes == WithoutApps(old(nodes), blocked - left)
        invariant removed == AppsIn(old(nodes), blocked - left)
      {
        var name :| name in left;
        var target := ["apps", name];
        OneAppFewer(old(nodes), blocked - left, name);
        OneAppMore(old(nodes), blocked - left, name);
        if target in nodes {
          removed := removed + {target};
          RemoveTree(target);
        }
        assert blocked - (left - {name}) == blocked - left + {name};
        left := left - {name};
      }
      assert blocked - left == blocked;
    }

    method RemoveEntries(blocked: set<string>) returns (removed: set<Path>)
      modifies this
      ensures nodes == WithoutEntries(old(nodes), blocked, {}) && removed == old(nodes).Keys - nodes.Keys
    {
      removed := {};
      var entries := set p | p in nodes && InMenu(p);
      while entries != {}
        invariant forall p | p in entries :: p in nodes && InMenu(p)
        invariant nodes == WithoutEntries(old(nodes), blocked, entries) && removed == old(nodes).Keys - nodes.Keys
      {
        var p :| p in entries;
        entries := entries - {p};
        if p[|p| - 1] in blocked && !nodes[p].Dir? {
          nodes := nodes - {p};
          removed := removed + {p};
        }
      }
    }

    /** categorize_deskbar_entries. How many entries were moved. */
    method Categorize(order: seq<string>, categories: map<string, string>, icons: map<string, seq<int>>)
      returns (r: Result<nat, Error>)
      requires WellFormed(nodes) && IsOrder(nodes, order)
      modifies this
      ensures r.Success? <==> AllFit(old(nodes), categories, order)
      ensures r.Success? ==> Categorized(old(nodes), categories, icons, nodes)
      ensures r.Success? ==> r.value == |Moving(old(nodes), categories, AllNames(old(nodes)))|
    {
      NamesAreThere(nodes, categories);
      var moved := 0;
      for i := 0 to |order|
        invariant Midway(old(nodes), categories, icons, order, i, nodes, moved)
      {
        var name := order[i];
        ghost var done := Names(order[..i]);
        OneMoreName(order, i);
        StillThere(old(nodes), categories, icons, done, nodes, name);
        if name in categories && nodes[Child(name)].Link? {
          ClearIsFits(old(nodes), categories, icons, order, i, nodes);
          if !Clear(nodes, categories[name], name) {
            return Failure(InTheWay(name));
          }
          MidwayMoves(old(nodes), categories, icons, order, i, nodes, moved);
          Move(name, categories[name], icons);
          moved := moved + 1;
        } else {
          MidwayStays(old(nodes), categories, icons, order, i, nodes, moved);
        }
      }
      assert order[..|order|] == order;
      r := Success(moved);
    }

    /** Into its folder, made when it is not there. */
    method Move(name: string, folder: string, icons: map<string, seq<int>>)
      requires APPLICATIONS in nodes && Child(name) in nodes && nodes[Child(name)].Link?
      modifies this
      ensures nodes == MovedTo(old(nodes), name, folder, icons)
    {
      var target := Child(folder);
      var link := nodes[Child(name)];
      if target !in nodes {
        nodes := nodes[target := NewFolder(nodes[APPLICATIONS], folder, icons)];
      }
      nodes := nodes[Inside(folder, name) := Link(link.mode, link.attrs, Retarget(link.target))];
      nodes := nodes - {Child(name)};
    }
  }

  function MovedTo(t: Tree, name: string, folder: string, icons: map<string, seq<int>>): Tree
    requires APPLICATIONS in t && Child(name) in t && t[Child(name)].Link?
  {
    var target, link := Child(folder), t[Child(name)];
    var made := if target in t then t else t[target := NewFolder(t[APPLICATIONS], folder, icons)];
    made[Inside(folder, name) := Link(link.mode, link.attrs, Retarget(link.target))] - {Child(name)}
  }

  ghost predicate AfterMoving(t: Tree, categories: map<string, string>, icons: map<string, seq<int>>,
                              names: set<string>, now: Tree)
    requires WellFormed(t)
  {
    forall p :: Get(now, p) == NodeAfter(t, categories, icons, names, p)
  }

  function Names(order: seq<string>): set<string> {
    set name | name in order
  }

  lemma {:induction false} OneMoreName(order: seq<string>, i: nat)
    requires i < |order| && forall j, k | 0 <= j < k < |order| :: order[j] != order[k]
    ensures Names(order[..i + 1]) == Names(order[..i]) + {order[i]} && order[i] !in Names(order[..i])
    ensures forall other :: Before(order, other, order[i]) <==> other in Names(order[..i])
  {
    assert order[..i + 1] == order[..i] + [order[i]];
    forall other | other in Names(order[..i])
      ensures Before(order, other, order[i])
    {
      var k :| 0 <= k < i && order[..i][k] == other;
      assert order[k] == other;
    }
    forall other | Before(order, other, order[i])
      ensures other in Names(order[..i])
    {
      var j, k :| 0 <= j < k < |order| && order[j] == other && order[k] == order[i];
      assert order[..i][j] == other;
    }
  }

  /** The folder is there or can be made, and has nothing of the name: what the edit runs into. */
  predicate Clear(t: Tree, folder: string, name: string) {
    (Child(folder) in t ==> t[Child(folder)].Dir?) && Inside(folder, name) !in t
  }

  /** Between two entries: the first n were looked at, and fit where they went. */
  ghost predicate Midway(t: Tree, categories: map<string, string>, icons: map<string, seq<int>>, order: seq<string>,
                         n: nat, now: Tree, moved: nat)
    requires WellFormed(t) && n <= |order|
  {
    && IsOrder(t, order)
    && AfterMoving(t, categories, icons, Names(order[..n]), now)
    && (forall name | name in Names(order[..n]) && Moves(t, categories, name) :: Fits(t, categories, order, name))
    && moved == |Moving(t, categories, Names(order[..n]))|
  }

  lemma {:induction false} MidwayStays(t: Tree, categories: map<string, string>, icons: map<string, seq<int>>,
                                       order: seq<string>, n: nat, now: Tree, moved: nat)
    requires WellFormed(t) && n < |order| && Midway(t, categories, icons, order, n, now, moved)
    requires !Moves(t, categories, order[n])
    ensures Midway(t, categories, icons, order, n + 1, now, moved)
  {
    OneMoreName(order, n);
    OneMoreMoving(t, categories, Names(order[..n]), order[n]);
    OneMoreStays(t, categories, icons, Names(order[..n]), now, order[n]);
  }

  lemma {:induction false} MidwayMoves(t: Tree, categories: map<string, string>, icons: map<string, seq<int>>,
                                       order: seq<string>, n: nat, now: Tree, moved: nat)
    requires WellFormed(t) && n < |order| && Midway(t, categories, icons, order, n, now, moved)
    requires Moves(t, categories, order[n]) && Fits(t, categories, order, order[n])
    ensures APPLICATIONS in now && Child(order[n]) in now && now[Child(order[n])].Link?
    ensures Midway(t, categories, icons, order, n + 1, MovedTo(now, order[n], categories[order[n]], icons), moved + 1)
  {
    var names, name := Names(order[..n]), order[n];
    OneMoreName(order, n);
    StillThere(t, categories, icons, names, now, name);
    OneMoreMoving(t, categories, names, name);
    ClearIsFits(t, categories, icons, order, n, now);
    NotFilledYet(t, categories, order, n);
    OneMoreMoved(t, categories, icons, names, now, name);
  }

  /** Nothing has gone into a folder in the place of an entry still to be moved. */
  lemma {:induction false} NotFilledYet(t: Tree, categories: map<string, string>, order: seq<string>, n: nat)
    requires n < |order| && IsOrder(t, order) && Moves(t, categories, order[n])
    requires forall name | name in Names(order[..n]) && Moves(t, categories, name) :: Fits(t, categories, order, name)
    ensures !Filled(t, categories, Names(order[..n]), order[n])
  {
  }

  ghost function Moving(t: Tree, categories: map<string, string>, names: set<string>): set<string> {
    set name | name in names && Moves(t, categories, name)
  }

  lemma {:induction false} OneMoreMoving(t: Tree, categories: map<string, string>, names: set<string>, name: string)
    requires name !in names
    ensures |Moving(t, categories, names + {name})| ==
      |Moving(t, categories, names)| + if Moves(t, categories, name) then 1 else 0
  {
    assert Moving(t, categories, names + {name}) ==
      Moving(t, categories, names) + if Moves(t, categories, name) then {name} else {};
  }

  lemma {:induction false} NamesAreThere(t: Tree, categories: map<string, string>)
    ensures forall name :: name in AllNames(t) <==> Child(name) in t
  {
    forall name
      ensures name in AllNames(t) <==> Child(name) in t
    {
      if name in AllNames(t) {
        var p :| p in t && IsChild(p) && p[4] == name;
        ChildIsChild(p);
      }
    }
  }

  /** An entry not looked at yet is as it was. */
  lemma {:induction false} StillThere(t: Tree, categories: map<string, string>, icons: map<string, seq<int>>,
                                      names: set<string>, now: Tree, name: string)
    requires WellFormed(t) && AfterMoving(t, categories, icons, names, now)
    requires name !in names && Child(name) in t
    ensures Child(name) in now && now[Child(name)] == t[Child(name)]
    ensures Moves(t, categories, name) ==>
      APPLICATIONS in now && APPLICATIONS in t && now[APPLICATIONS] == t[APPLICATIONS]
  {
    assert Get(now, Child(name)) == NodeAfter(t, categories, icons, names, Child(name));
    assert Get(now, APPLICATIONS) == NodeAfter(t, categories, icons, names, APPLICATIONS);
    if Moves(t, categories, name) {
      MovesFromDir(t, categories, name);
    }
  }

  /** What is in the way in the tree edited so far is known from the start. */
  lemma {:induction false} ClearIsFits(t: Tree, categories: map<string, string>, icons: map<string, seq<int>>,
                                       order: seq<string>, n: nat, now: Tree)
    requires WellFormed(t) && n < |order| && IsOrder(t, order) && order[n] in categories
    requires AfterMoving(t, categories, icons, Names(order[..n]), now)
    ensures Clear(now, categories[order[n]], order[n]) <==> Fits(t, categories, order, order[n])
  {
    var names, name := Names(order[..n]), order[n];
    var target, inside := Child(categories[name]), Inside(categories[name], name);
    OneMoreName(order, n);
    assert Get(now, target) == NodeAfter(t, categories, icons, names, target);
    assert Get(now, inside) == NodeAfter(t, categories, icons, names, inside);
  }

  lemma {:induction false} OneMoreStays(t: Tree, categories: map<string, string>, icons: map<string, seq<int>>,
                                        names: set<string>, now: Tree, name: string)
    requires WellFormed(t) && AfterMoving(t, categories, icons, names, now) && !Moves(t, categories, name)
    ensures AfterMoving(t, categories, icons, names + {name}, now)
  {
    forall p
      ensures Get(now, p) == NodeAfter(t, categories, icons, names + {name}, p)
    {
      assert Get(now, p) == NodeAfter(t, categories, icons, names, p);
      if |p| == 5 {
        assert Filled(t, categories, names + {name}, p[4]) <==> Filled(t, categories, names, p[4]);
      }
    }
  }

  lemma {:induction false} OneMoreMoved(t: Tree, categories: map<string, string>, icons: map<string, seq<int>>,
                                        names: set<string>, now: Tree, name: string)
    requires WellFormed(t) && AfterMoving(t, categories, icons, names, now)
    requires name !in names && Moves(t, categories, name)
    requires Clear(now, categories[name], name) && !Filled(t, categories, names, name)
    requires APPLICATIONS in now && APPLICATIONS in t && now[APPLICATIONS] == t[APPLICATIONS]
    requires Child(name) in now && now[Child(name)] == t[Child(name)]
    ensures AfterMoving(t, categories, icons, names + {name}, MovedTo(now, name, categories[name], icons))
  {
    forall p
      ensures Get(MovedTo(now, name, categories[name], icons), p) == NodeAfter(t, categories, icons, names + {name}, p)
    {
      assert Get(now, p) == NodeAfter(t, categories, icons, names, p);
      GetMovedTo(now, name, categories[name], icons, p);
      ChildIsChild(p);
      if IsChild(p) {
        FilledByOneMore(t, categories, names, name, p[4]);
      }
    }
  }

  lemma {:induction false} GetMovedTo(t: Tree, name: string, folder: string, icons: map<string, seq<int>>, p: Path)
    requires APPLICATIONS in t && Child(name) in t && t[Child(name)].Link? && name != folder
    ensures Get(MovedTo(t, name, folder, icons), p) ==
      if p == Child(name) then None
      else if p == Inside(folder, name) then
        var link := t[Child(name)]; Some(Link(link.mode, link.attrs, Retarget(link.target)))
      else if p == Child(folder) && p !in t then Some(NewFolder(t[APPLICATIONS], folder, icons))
      else Get(t, p)
  {
    assert Child(name)[4] != Child(folder)[4];
  }

  lemma {:induction false} FilledByOneMore(t: Tree, categories: map<string, string>, names: set<string>, name: string,
                                           folder: string)
    requires Moves(t, categories, name)
    ensures Filled(t, categories, names + {name}, folder)
      <==> Filled(t, categories, names, folder) || categories[name] == folder
  {
    if categories[name] == folder {
      assert name in names + {name};
    }
  }

  function WithoutApps(t: Tree, names: set<string>): Tree {
    map p | p in t && !InBlockedApp(p, names) :: t[p]
  }

  /** The entries of these names gone, except those still to be looked at. */
  function WithoutEntries(t: Tree, names: set<string>, left: set<Path>): Tree {
    map p | p in t && (p in left || !(InMenu(p) && p[|p| - 1] in names && !t[p].Dir?)) :: t[p]
  }

  function AppsIn(t: Tree, names: set<string>): set<Path> {
    set p | p in t && |p| == 2 && InBlockedApp(p, names)
  }

  lemma {:induction false} OneAppMore(t: Tree, names: set<string>, name: string)
    requires name !in names
    ensures var target := ["apps", name];
      && AppsIn(t, names + {name}) == (if target in t then AppsIn(t, names) + {target} else AppsIn(t, names))
      && (target in t <==> target in WithoutApps(t, names))
  {
    var target := ["apps", name];
    forall p | p in t && |p| == 2 && InBlockedApp(p, {name})
      ensures p == target
    {
    }
  }

  lemma {:induction false} OneAppFewer(t: Tree, names: set<string>, name: string)
    requires WellFormed(t)
    ensures var now, target := WithoutApps(t, names), ["apps", name];
      && WithoutApps(t, names + {name}) == (map q | q in now && !(target <= q) :: now[q])
      && (target !in now ==> WithoutApps(t, names + {name}) == now)
  {
    forall p | p in t && InBlockedApp(p, {name})
      ensures ["apps", name] in t && ["apps", name] <= p
    {
      PrefixThere(t, p, 2);
      assert p[..2] == ["apps", name];
    }
    assert InBlockedApp(["apps", name], names) <==> name in names;
  }

  /** The applications first, and then the entries. */
  lemma {:induction false} TopsAre(t: Tree, blocked: set<string>)
    ensures var apps := WithoutApps(t, blocked);
      var left := WithoutEntries(apps, blocked, {});
      left == Unblocked(t, blocked) && AppsIn(t, blocked) + (apps.Keys - left.Keys) == BlockedTops(t, blocked)
  {
    var apps := WithoutApps(t, blocked);
    var left := WithoutEntries(apps, blocked, {});
    forall p
      ensures p in left <==> p in Unblocked(t, blocked)
      ensures p in AppsIn(t, blocked) + (apps.Keys - left.Keys) <==> p in BlockedTops(t, blocked)
    {
      if InMenu(p) {
        assert p[0] == p[..3][0] == MENU[0];
      }
    }
  }

  /** What is taken out is those and all that is below them. */
  lemma {:induction false} BelowTops(t: Tree, blocked: set<string>, p: Path)
    requires WellFormed(t) && p in t
    ensures p !in Unblocked(t, blocked) <==> exists q :: q in BlockedTops(t, blocked) && q <= p
  {
    if Blocked(p, t[p].Dir?, blocked) {
      var q := TopOf(t, blocked, p);
      assert q in BlockedTops(t, blocked) && q <= p;
    }
    forall q | q in BlockedTops(t, blocked) && q <= p
      ensures Blocked(p, t[p].Dir?, blocked)
    {
      BelowTop(t, blocked, q, p);
    }
  }

  lemma {:induction false} TopOf(t: Tree, blocked: set<string>, p: Path) returns (q: Path)
    requires WellFormed(t) && p in t && Blocked(p, t[p].Dir?, blocked)
    ensures q in BlockedTops(t, blocked) && q <= p
  {
    q := p;
    if InBlockedApp(p, blocked) {
      PrefixThere(t, p, 2);
      q := p[..2];
    }
  }

  lemma {:induction false} BelowTop(t: Tree, blocked: set<string>, q: Path, p: Path)
    requires WellFormed(t) && p in t && q in BlockedTops(t, blocked) && q <= p
    ensures Blocked(p, t[p].Dir?, blocked)
  {
    if !InBlockedApp(q, blocked) && p != q {
      assert p[..|q| + 1][..|q|] == q;
      PrefixThere(t, p, |q| + 1);
      assert false;
    }
  }

  /** Every directory on the way to a path is there. */
  lemma {:induction false} PrefixThere(t: Tree, p: Path, n: nat)
    requires WellFormed(t) && p in t && 0 < n <= |p|
    ensures p[..n] in t
    decreases |p|
  {
    if n < |p| {
      var up := p[..|p| - 1];
      PrefixThere(t, up, n);
      assert up[..n] == p[..n];
    } else {
      assert p[..n] == p;
    }
  }
}
