/** The two fill rules around a spot, before fix_winding and after it. */
module FillRules {
  import opened HvifModel
  import opened Winding
  import opened FixWinding

  /** How often all the subpaths together wind around a spot. */
  function TotalWinding(q: Spot, paths: seq<Path>): (ws: seq<real>)
    ensures |ws| == |paths| && forall i | 0 <= i < |ws| :: ws[i] == WindingNumber(q, Polygon(paths[i]))
  {
    seq(|paths|, i requires 0 <= i < |paths| => WindingNumber(q, Polygon(paths[i])))
  }

  predicate FilledNonZero(q: Spot, paths: seq<Path>) {
    SumTo(TotalWinding(q, paths), |paths|) != 0.0
  }

  function Around(q: Spot, paths: seq<Path>): set<int> {
    set i | 0 <= i < |paths| && Inside(q, Polygon(paths[i]))
  }

  predicate FilledEvenOdd(q: Spot, paths: seq<Path>) {
    |Around(q, paths)| % 2 == 1
  }

  // -- any subpaths at all

  /** Whether a subpath comes out reversed. */
  predicate Turned(paths: seq<Path>, i: int)
    requires 0 <= i < |paths|
  {
    var path := paths[i];
    Encloses(path) && path.points != []
    && (SignedArea(Polygon(path)) > 0.0) != (Depth(Probe(path), paths, i) % 2 == 0)
  }

  /** How often a subpath of the result winds around a spot. */
  function Wound(q: Spot, paths: seq<Path>, i: int): real
    requires 0 <= i < |paths|
  {
    Signed(Turned(paths, i), WindingNumber(q, Polygon(paths[i])))
  }

  function Wounds(q: Spot, paths: seq<Path>): (ws: seq<real>)
    ensures |ws| == |paths| && forall i | 0 <= i < |ws| :: ws[i] == Wound(q, paths, i)
  {
    seq(|paths|, i requires 0 <= i < |paths| => Wound(q, paths, i))
  }

  lemma {:induction false} DirectedWinding(q: Spot, paths: seq<Path>, i: int)
    requires 0 <= i < |paths|
    ensures WindingNumber(q, Polygon(Fixed(paths)[i])) == Wound(q, paths, i)
  {
    if Encloses(paths[i]) {
      EnclosingHasPoints(paths[i]);
      ReversedWinding(q, paths[i], STEPS);
    }
  }

  lemma {:induction false} FixedWindings(q: Spot, paths: seq<Path>)
    ensures TotalWinding(q, Fixed(paths)) == Wounds(q, paths)
  {
    forall i | 0 <= i < |paths|
      ensures TotalWinding(q, Fixed(paths))[i] == Wound(q, paths, i)
    {
      DirectedWinding(q, paths, i);
    }
  }

  lemma {:induction false} WoundParity(q: Spot, paths: seq<Path>, i: int)
    requires 0 <= i < |paths|
    ensures if Inside(q, Polygon(paths[i])) then Odd(Wound(q, paths, i)) else Even(Wound(q, paths, i))
  {
    var w := WindingNumber(q, Polygon(paths[i]));
    InsideIsOdd(q, Polygon(paths[i]));
    ParityNegates(w);
  }

  /** The odd entries of a sum decide its parity. */
  lemma {:induction false} SumParity(ws: seq<real>, odds: set<int>, n: int)
    requires 0 <= n <= |ws| && forall i | i in odds :: i >= 0
    requires forall i | 0 <= i < |ws| :: if i in odds then Odd(ws[i]) else Even(ws[i])
    ensures if |Below(odds, n)| % 2 == 1 then Odd(SumTo(ws, n)) else Even(SumTo(ws, n))
  {
    if n > 0 {
      SumParity(ws, odds, n - 1);
      OneMoreBelow(odds, n - 1);
      ParityAdds(SumTo(ws, n - 1), ws[n - 1]);
    } else {
      NoneBelow(odds);
    }
  }

  /** For any subpaths, open, crossing themselves or each other: where an odd number of them is
      around a spot both rules fill it; where an even number is, they agree exactly when the
      windings, each turned where fix_winding turns, cancel out. */
  lemma {:induction false} RulesAgreeAnywhere(q: Spot, paths: seq<Path>)
    ensures |Around(q, paths)| % 2 == 1 ==> FilledNonZero(q, Fixed(paths)) && FilledEvenOdd(q, paths)
    ensures (FilledNonZero(q, Fixed(paths)) <==> FilledEvenOdd(q, paths)) <==>
      |Around(q, paths)| % 2 == 1 || SumTo(Wounds(q, paths), |paths|) == 0.0
  {
    var around := Around(q, paths);
    FixedWindings(q, paths);
    forall i | 0 <= i < |paths|
      ensures if i in around then Odd(Wounds(q, paths)[i]) else Even(Wounds(q, paths)[i])
    {
      WoundParity(q, paths, i);
    }
    SumParity(Wounds(q, paths), around, |paths|);
    assert Below(around, |paths|) == around;
    OddIsNotZero(SumTo(Wounds(q, paths), |paths|));
  }

  lemma {:induction false} OddIsNotZero(w: real)
    ensures Odd(w) ==> w != 0.0
  {
  }

  lemma {:induction false} AroundStays(q: Spot, paths: seq<Path>)
    ensures Around(q, Fixed(paths)) == Around(q, paths)
  {
    forall i | 0 <= i < |paths|
      ensures Inside(q, Polygon(Fixed(paths)[i])) == Inside(q, Polygon(paths[i]))
    {
      DirectedIsSame(paths, i, q);
    }
  }

  /** The even-odd rule fills the same of the result. */
  lemma {:induction false} EvenOddStays(q: Spot, paths: seq<Path>)
    ensures FilledEvenOdd(q, Fixed(paths)) == FilledEvenOdd(q, paths)
  {
    AroundStays(q, paths);
  }

  // -- counted

  function Below(places: set<int>, n: int): set<int> {
    set i | i in places && i < n
  }

  lemma {:induction false} OneMoreBelow(places: set<int>, n: int)
    ensures |Below(places, n + 1)| == |Below(places, n)| + if n in places then 1 else 0
  {
    assert Below(places, n + 1) == Below(places, n) + if n in places then {n} else {};
  }

  lemma {:induction false} NoneBelow(places: set<int>)
    requires forall i | i in places :: i >= 0
    ensures |Below(places, 0)| == 0
  {
    assert Below(places, 0) == {};
  }

  /** A sum of ones and minus ones counts them. */
  lemma {:induction false} CountedSum(ws: seq<real>, ups: set<int>, downs: set<int>, n: int)
    requires 0 <= n <= |ws| && ups !! downs && (forall i | i in ups :: i >= 0) && forall i | i in downs :: i >= 0
    requires forall i | 0 <= i < |ws| :: ws[i] == if i in ups then 1.0 else if i in downs then -1.0 else 0.0
    ensures SumTo(ws, n) == (|Below(ups, n)| - |Below(downs, n)|) as real
  {
    if n > 0 {
      CountedSum(ws, ups, downs, n - 1);
      OneMoreBelow(ups, n - 1);
      OneMoreBelow(downs, n - 1);
    } else {
      NoneBelow(ups);
      NoneBelow(downs);
    }
  }

  /** A closed subpath that does not cross itself winds around a spot once, in the direction of
      its area, or not at all. */
  ghost predicate Simple(q: Spot, path: Path) {
    if Inside(q, Polygon(path)) then
      && Encloses(path)
      && SignedArea(Polygon(path)) != 0.0
      && WindingNumber(q, Polygon(path)) == if SignedArea(Polygon(path)) > 0.0 then 1.0 else -1.0
    else WindingNumber(q, Polygon(path)) == 0.0
  }

  /** An open one is not turned, and winds around a spot once, in either direction, or not at all. */
  ghost predicate Once(q: Spot, path: Path) {
    var w := WindingNumber(q, Polygon(path));
    if path.closed then Simple(q, path)
    else if Inside(q, Polygon(path)) then w == 1.0 || w == -1.0
    else w == 0.0
  }

  /** A closed subpath at even depth, or an open one that winds upwards. */
  predicate Up(q: Spot, paths: seq<Path>, i: int)
    requires 0 <= i < |paths|
  {
    if paths[i].closed then paths[i].points != [] && Depth(Probe(paths[i]), paths, i) % 2 == 0
    else WindingNumber(q, Polygon(paths[i])) > 0.0
  }

  /** Of the subpaths around a spot, those that are up, or those that are not. */
  function UpAround(q: Spot, paths: seq<Path>, up: bool): set<int> {
    set i | i in Around(q, paths) && Up(q, paths, i) == up
  }

  lemma {:induction false} WoundOne(q: Spot, paths: seq<Path>, i: int)
    requires 0 <= i < |paths| && Once(q, paths[i])
    ensures Wound(q, paths, i) ==
      if !Inside(q, Polygon(paths[i])) then 0.0 else if Up(q, paths, i) then 1.0 else -1.0
  {
    if Encloses(paths[i]) {
      EnclosingHasPoints(paths[i]);
    }
  }

  /** How often the result winds around a spot: once for each subpath around it that is up, and
      back for each that is not. */
  lemma {:induction false} WindingOfFixed(q: Spot, paths: seq<Path>)
    requires forall i | 0 <= i < |paths| :: Once(q, paths[i])
    ensures SumTo(Wounds(q, paths), |paths|) == (|UpAround(q, paths, true)| - |UpAround(q, paths, false)|) as real
    ensures SumTo(TotalWinding(q, Fixed(paths)), |paths|) == SumTo(Wounds(q, paths), |paths|)
  {
    var ws, ups, downs := Wounds(q, paths), UpAround(q, paths, true), UpAround(q, paths, false);
    forall i | 0 <= i < |paths|
      ensures ws[i] == if i in ups then 1.0 else if i in downs then -1.0 else 0.0
    {
      WoundOne(q, paths, i);
    }
    FixedWindings(q, paths);
    CountedSum(ws, ups, downs, |paths|);
    assert Below(ups, |paths|) == ups && Below(downs, |paths|) == downs;
  }

  /** Around a spot where no subpath crosses itself, open ones included, filling the result by the
      non-zero rule is filling by the even-odd rule exactly when an odd number of subpaths are
      around it, or as many of them up as not. */
  lemma {:induction false} RulesAgreeOnce(q: Spot, paths: seq<Path>)
    requires forall i | 0 <= i < |paths| :: Once(q, paths[i])
    ensures (FilledNonZero(q, Fixed(paths)) <==> FilledEvenOdd(q, paths)) <==>
      |Around(q, paths)| % 2 == 1 || |UpAround(q, paths, true)| == |UpAround(q, paths, false)|
  {
    RulesAgreeAnywhere(q, paths);
    WindingOfFixed(q, paths);
  }

  // -- closed subpaths

  /** Of the subpaths around a spot, those that an even number of others contain, or an odd one. */
  function EvenAround(q: Spot, paths: seq<Path>, even: bool): set<int> {
    set i | i in Around(q, paths) && paths[i].points != []
      && (Depth(Probe(paths[i]), paths, i) % 2 == 0) == even
  }

  lemma {:induction false} ClosedIsOnce(q: Spot, paths: seq<Path>)
    requires forall i | 0 <= i < |paths| :: Simple(q, paths[i])
    ensures forall i | 0 <= i < |paths| :: Once(q, paths[i])
    ensures UpAround(q, paths, true) == EvenAround(q, paths, true)
    ensures UpAround(q, paths, false) == EvenAround(q, paths, false)
  {
    forall i | 0 <= i < |paths|
      ensures Once(q, paths[i])
      ensures i in Around(q, paths) ==> paths[i].closed && paths[i].points != []
    {
      assert Simple(q, paths[i]);
      if Encloses(paths[i]) {
        EnclosingHasPoints(paths[i]);
      }
    }
  }

  /** When all those around the spot are closed: exactly when an odd number of them are around it,
      or as many of them at even depth as at odd depth. */
  lemma {:induction false} RulesAgreeExactly(q: Spot, paths: seq<Path>)
    requires forall i | 0 <= i < |paths| :: Simple(q, paths[i])
    ensures (FilledNonZero(q, Fixed(paths)) <==> FilledEvenOdd(q, paths)) <==>
      |Around(q, paths)| % 2 == 1 || |EvenAround(q, paths, true)| == |EvenAround(q, paths, false)|
  {
    ClosedIsOnce(q, paths);
    RulesAgreeOnce(q, paths);
  }

  // -- nested subpaths

  /** The subpaths around a spot lie one inside the next: chain lists them from the outermost
      inwards, each as deep as its place. */
  ghost predicate Nested(q: Spot, paths: seq<Path>, chain: seq<int>) {
    && (forall d | 0 <= d < |chain| :: 0 <= chain[d] < |paths| && paths[chain[d]].points != []
          && Depth(Probe(paths[chain[d]]), paths, chain[d]) == d)
    && (forall d, e | 0 <= d < e < |chain| :: chain[d] != chain[e])
    && (forall i | 0 <= i < |paths| :: i in chain <==> Inside(q, Polygon(paths[i])))
  }

  /** Clearing one entry takes it out of the sum. */
  lemma {:induction false} SumCleared(ws: seq<real>, i: int, n: int)
    requires 0 <= i < |ws| && 0 <= n <= |ws|
    ensures SumTo(ws, n) == SumTo(ws[i := 0.0], n) + if i < n then ws[i] else 0.0
  {
    if n > 0 {
      SumCleared(ws, i, n - 1);
    }
  }

  lemma {:induction false} SumOfZeros(ws: seq<real>, n: int)
    requires 0 <= n <= |ws| && forall i | 0 <= i < |ws| :: ws[i] == 0.0
    ensures SumTo(ws, n) == 0.0
  {
    if n > 0 {
      SumOfZeros(ws, n - 1);
    }
  }

  function Alternating(k: nat): real {
    if k % 2 == 0 then 1.0 else -1.0
  }

  /** Entries that alternate along a chain and vanish elsewhere. */
  lemma {:induction false} AlternatingSum(ws: seq<real>, chain: seq<int>)
    requires forall d | 0 <= d < |chain| :: 0 <= chain[d] < |ws| && ws[chain[d]] == Alternating(d)
    requires forall d, e | 0 <= d < e < |chain| :: chain[d] != chain[e]
    requires forall i | 0 <= i < |ws| && i !in chain :: ws[i] == 0.0
    ensures SumTo(ws, |ws|) == if |chain| % 2 == 1 then 1.0 else 0.0
    decreases |chain|
  {
    var k := |chain|;
    if k == 0 {
      SumOfZeros(ws, |ws|);
    } else {
      var last, init := chain[k - 1], chain[..k - 1];
      var cleared := ws[last := 0.0];
      assert chain == init + [last];
      forall d | 0 <= d < k - 1
        ensures cleared[init[d]] == Alternating(d)
      {
        assert init[d] == chain[d] != last;
      }
      AlternatingSum(cleared, init);
      AlternatingStep(ws, last, k);
    }
  }

  lemma {:induction false} AlternatingStep(ws: seq<real>, last: int, k: nat)
    requires 0 <= last < |ws| && k > 0 && ws[last] == Alternating(k - 1)
    requires SumTo(ws[last := 0.0], |ws|) == if (k - 1) % 2 == 1 then 1.0 else 0.0
    ensures SumTo(ws, |ws|) == if k % 2 == 1 then 1.0 else 0.0
  {
    SumCleared(ws, last, |ws|);
  }

  lemma {:induction false} ChainCounts(q: Spot, paths: seq<Path>, chain: seq<int>)
    requires Nested(q, paths, chain)
    ensures |chain| == |Around(q, paths)|
  {
    DistinctSize(chain);
    assert (set i | i in chain) == Around(q, paths);
  }

  lemma {:induction false} DistinctSize(s: seq<int>)
    requires forall d, e | 0 <= d < e < |s| :: s[d] != s[e]
    ensures |set i | i in s| == |s|
  {
    if s != [] {
      var init, last := s[..|s| - 1], s[|s| - 1];
      DistinctSize(init);
      assert (set i | i in s) == (set i | i in init) + {last};
    }
  }

  /** Around a spot where the subpaths are closed, simple and nested, filling the result by the
      non-zero rule fills exactly what the even-odd rule fills. */
  lemma {:induction false} NonZeroFillsAsEvenOdd(q: Spot, paths: seq<Path>, chain: seq<int>)
    requires forall i | 0 <= i < |paths| :: Simple(q, paths[i])
    requires Nested(q, paths, chain)
    ensures FilledNonZero(q, Fixed(paths)) == FilledEvenOdd(q, paths)
    ensures FilledEvenOdd(q, Fixed(paths)) == FilledEvenOdd(q, paths)
  {
    ChainCounts(q, paths, chain);
    RulesAgreeAnywhere(q, paths);
    EvenOddStays(q, paths);
    forall i | 0 <= i < |paths|
      ensures Wounds(q, paths)[i] == if i in chain && paths[i].points != []
        then Alternating(Depth(Probe(paths[i]), paths, i)) else 0.0
    {
      ClosedIsOnce(q, paths);
      WoundOne(q, paths, i);
    }
    AlternatingSum(Wounds(q, paths), chain);
  }

  // -- two squares that cross

  /** A closed path of four corners. */
  function Square(a: Spot, b: Spot, c: Spot, d: Spot): Path {
    Path([LinePoint(a.x, a.y), LinePoint(b.x, b.y), LinePoint(c.x, c.y), LinePoint(d.x, d.y)], true)
  }

  lemma {:induction false} SquarePolygon(a: Spot, b: Spot, c: Spot, d: Spot)
    ensures Polygon(Square(a, b, c, d)) == [a, b, c, d, a]
    ensures Polygon(Square(a, b, c, d).(closed := false)) == [a, b, c, d]
  {
    var points := Square(a, b, c, d).points;
    assert FlattenTo(points, 0, STEPS) == [a];
    assert FlattenTo(points, 1, STEPS) == [a, b];
    assert FlattenTo(points, 2, STEPS) == [a, b, c];
    assert FlattenTo(points, 3, STEPS) == [a, b, c, d];
    assert FlattenTo(points, 4, STEPS) == [a, b, c, d, a];
  }

  lemma {:induction false} SquareSum(f: Weight, a: Spot, b: Spot, c: Spot, d: Spot)
    ensures PolygonSum(f, [a, b, c, d]) == f(a, b) + f(b, c) + f(c, d) + f(d, a)
    ensures PolygonSum(f, [a, b, c, d, a]) == PolygonSum(f, [a, b, c, d]) + f(a, a)
  {
    var spots := [a, b, c, d, a];
    assert spots[..4] == [a, b, c, d] && [a, b, c, d][..3] == [a, b, c] && [a, b, c][..2] == [a, b]
      && [a, b][..1] == [a];
    assert EdgeSum(f, [a]) == 0.0;
    assert EdgeSum(f, [a, b]) == f(a, b);
    assert EdgeSum(f, [a, b, c]) == f(a, b) + f(b, c);
    assert EdgeSum(f, [a, b, c, d]) == f(a, b) + f(b, c) + f(c, d);
  }

  lemma {:induction false} SquareInside(q: Spot, a: Spot, b: Spot, c: Spot, d: Spot)
    ensures Inside(q, [a, b, c, d, a]) ==
      (((Crosses(q, b, a) != Crosses(q, c, b)) != Crosses(q, d, c)) != Crosses(q, a, d))
  {
    var spots := [a, b, c, d, a];
    assert CrossingsTo(q, spots, 1) == false;
    assert CrossingsTo(q, spots, 2) == Crosses(q, b, a);
    assert CrossingsTo(q, spots, 3) == (Crosses(q, b, a) != Crosses(q, c, b));
    assert CrossingsTo(q, spots, 4) == ((Crosses(q, b, a) != Crosses(q, c, b)) != Crosses(q, d, c));
  }

  /** An upright square from its lowest corner round, seen from a spot at none of its heights. */
  lemma {:induction false} UprightSquare(q: Spot, low: real, high: real)
    requires low < high && q.y != low && q.y != high
    ensures var polygon := [Spot(low, low), Spot(high, low), Spot(high, high), Spot(low, high), Spot(low, low)];
      && SignedArea(polygon) == Extent(high - low, high - low)
      && Inside(q, polygon) == (low < q.y < high && low <= q.x < high)
      && WindingNumber(q, polygon) == if low < q.y < high && low <= q.x < high then 1.0 else 0.0
  {
    var a, b, c, d := Spot(low, low), Spot(high, low), Spot(high, high), Spot(low, high);
    SquareSum(Cross, a, b, c, d);
    SquareSum(Crossing(q), a, b, c, d);
    SquareInside(q, a, b, c, d);
    Upright(high, low, high, q.y);
    Upright(low, high, low, q.y);
    Upright(high, high, low, q.y);
    Upright(low, low, high, q.y);
  }

  lemma {:induction false} Upright(x: real, from: real, to: real, y: real)
    requires from != to
    ensures Meeting(Spot(x, from), Spot(x, to), y) == x
  {
  }

  /** The same square from its highest corner round. */
  lemma {:induction false} UprightSquareFromTop(q: Spot, low: real, high: real)
    requires low < high && q.y != low && q.y != high
    ensures var polygon := [Spot(high, high), Spot(low, high), Spot(low, low), Spot(high, low), Spot(high, high)];
      && SignedArea(polygon) == Extent(high - low, high - low)
      && Inside(q, polygon) == (low < q.y < high && low <= q.x < high)
      && WindingNumber(q, polygon) == if low < q.y < high && low <= q.x < high then 1.0 else 0.0
  {
    var c, d, a, b := Spot(high, high), Spot(low, high), Spot(low, low), Spot(high, low);
    SquareSum(Cross, c, d, a, b);
    SquareSum(Crossing(q), c, d, a, b);
    SquareInside(q, c, d, a, b);
    Upright(high, low, high, q.y);
    Upright(low, high, low, q.y);
    Upright(high, high, low, q.y);
    Upright(low, low, high, q.y);
  }

  function FromBottom(low: real, high: real): Path {
    Square(Spot(low, low), Spot(high, low), Spot(high, high), Spot(low, high))
  }

  function FromTop(low: real, high: real): Path {
    Square(Spot(high, high), Spot(low, high), Spot(low, low), Spot(high, low))
  }

  lemma {:induction false} SimpleBy(q: Spot, path: Path)
    requires path.closed && |Polygon(path)| > 2 && SignedArea(Polygon(path)) > 0.0
    requires WindingNumber(q, Polygon(path)) == if Inside(q, Polygon(path)) then 1.0 else 0.0
    ensures Encloses(path) && Simple(q, path)
  {
  }

  function Extent(width: real, height: real): real {
    width * height
  }

  lemma {:induction false} PositiveExtent(width: real, height: real)
    requires width > 0.0 && height > 0.0
    ensures Extent(width, height) > 0.0
  {
  }

  lemma {:induction false} FromBottomAt(q: Spot, low: real, high: real)
    requires low < high && q.y != low && q.y != high
    ensures var path := FromBottom(low, high);
      && Encloses(path) && Simple(q, path)
      && (Inside(q, Polygon(path)) <==> low < q.y < high && low <= q.x < high)
  {
    SquarePolygon(Spot(low, low), Spot(high, low), Spot(high, high), Spot(low, high));
    UprightSquare(q, low, high);
    PositiveExtent(high - low, high - low);
    SimpleBy(q, FromBottom(low, high));
  }

  lemma {:induction false} FromTopAt(q: Spot, low: real, high: real)
    requires low < high && q.y != low && q.y != high
    ensures var path := FromTop(low, high);
      && Encloses(path) && Simple(q, path)
      && (Inside(q, Polygon(path)) <==> low < q.y < high && low <= q.x < high)
  {
    SquarePolygon(Spot(high, high), Spot(low, high), Spot(low, low), Spot(high, low));
    UprightSquareFromTop(q, low, high);
    PositiveExtent(high - low, high - low);
    SimpleBy(q, FromTop(low, high));
  }

  function LowSquare(): Path {
    FromBottom(0.0, 2.0)
  }

  function HighSquare(): Path {
    FromTop(1.0, 3.0)
  }

  lemma {:induction false} DepthOfTwo(q: Spot, low: Path, high: Path, i: int)
    requires 0 <= i < 2
    ensures Depth(q, [low, high], i)
      == (if InOther(q, low, i == 0) then 1 else 0) + if InOther(q, high, i == 1) then 1 else 0
  {
    var paths := [low, high];
    assert DepthTo(q, paths, i, 0) == 0;
    assert DepthTo(q, paths, i, 1) == if InOther(q, low, i == 0) then 1 else 0;
  }

  lemma {:induction false} SquaresAreOutermost()
    ensures LowSquare().points != [] && Depth(Probe(LowSquare()), [LowSquare(), HighSquare()], 0) == 0
    ensures HighSquare().points != [] && Depth(Probe(HighSquare()), [LowSquare(), HighSquare()], 1) == 0
  {
    FromTopAt(Spot(0.0, 0.0), 1.0, 3.0);
    FromBottomAt(Spot(3.0, 3.0), 0.0, 2.0);
    DepthOfTwo(Spot(0.0, 0.0), LowSquare(), HighSquare(), 0);
    DepthOfTwo(Spot(3.0, 3.0), LowSquare(), HighSquare(), 1);
  }

  lemma {:induction false} BothUp(q: Spot, paths: seq<Path>)
    requires |paths| == 2
    requires forall i | 0 <= i < 2 :: Once(q, paths[i]) && Inside(q, Polygon(paths[i])) && Up(q, paths, i)
    ensures FilledNonZero(q, Fixed(paths)) && !FilledEvenOdd(q, paths)
  {
    var up, down, around := UpAround(q, paths, true), UpAround(q, paths, false), Around(q, paths);
    forall i
      ensures i in up <==> 0 <= i < 2
      ensures i !in down
      ensures i in around <==> 0 <= i < 2
    {
    }
    TwoPlaces(up);
    TwoPlaces(around);
    assert down == {};
    WindingOfFixed(q, paths);
    TwoAreFilled(q, paths);
  }

  lemma {:induction false} TwoPlaces(places: set<int>)
    requires forall i :: i in places <==> 0 <= i < 2
    ensures |places| == 2
  {
    var both := {0, 1};
    forall i
      ensures i in places <==> i in both
    {
    }
    assert places == both;
  }

  lemma {:induction false} TwoAreFilled(q: Spot, paths: seq<Path>)
    requires |Around(q, paths)| == |UpAround(q, paths, true)| == 2 && |UpAround(q, paths, false)| == 0
    requires SumTo(TotalWinding(q, Fixed(paths)), |paths|)
      == (|UpAround(q, paths, true)| - |UpAround(q, paths, false)|) as real
    ensures FilledNonZero(q, Fixed(paths)) && !FilledEvenOdd(q, paths)
  {
  }

  /** They get the same direction, so their overlap is filled, and by the even-odd rule it is not. */
  lemma {:induction false} RulesMayDiffer()
    ensures var q, paths := Spot(1.5, 1.5), [LowSquare(), HighSquare()];
      && (forall i | 0 <= i < |paths| :: Simple(q, paths[i]))
      && FilledNonZero(q, Fixed(paths)) && !FilledEvenOdd(q, paths)
  {
    var q, paths := Spot(1.5, 1.5), [LowSquare(), HighSquare()];
    FromBottomAt(q, 0.0, 2.0);
    FromTopAt(q, 1.0, 3.0);
    SquaresAreOutermost();
    BothUp(q, paths);
  }

  // -- a square in one that is open

  /** The first three sides of a square, which a fill closes. */
  function OpenSquare(): Path {
    FromBottom(0.0, 3.0).(closed := false)
  }

  function InnerSquare(): Path {
    FromBottom(1.0, 2.0)
  }

  /** Nothing crosses and one is in the other, but the open one is neither turned nor counted: both
      wind the same way, so the inner one is filled, and by the even-odd rule it is not. */
  lemma {:induction false} OpenMayDiffer()
    ensures var q, paths := Spot(1.5, 1.5), [OpenSquare(), InnerSquare()];
      && (forall i | 0 <= i < |paths| :: Once(q, paths[i]))
      && FilledNonZero(q, Fixed(paths)) && !FilledEvenOdd(q, paths)
  {
    var q, paths := Spot(1.5, 1.5), [OpenSquare(), InnerSquare()];
    OpenAt(q, 0.0, 3.0);
    FromBottomAt(q, 1.0, 2.0);
    DepthOfTwo(Probe(InnerSquare()), OpenSquare(), InnerSquare(), 1);
    BothUp(q, paths);
  }

  lemma {:induction false} OpenAt(q: Spot, low: real, high: real)
    requires low < high && q.y != low && q.y != high
    ensures var path := FromBottom(low, high).(closed := false);
      && Inside(q, Polygon(path)) == (low < q.y < high && low <= q.x < high)
      && WindingNumber(q, Polygon(path)) == if Inside(q, Polygon(path)) then 1.0 else 0.0
  {
    var a, b, c, d := Spot(low, low), Spot(high, low), Spot(high, high), Spot(low, high);
    SquarePolygon(a, b, c, d);
    SquareSum(Crossing(q), a, b, c, d);
    UprightSquare(q, low, high);
    CrossingTurns(q);
    InsideIsOdd(q, [a, b, c, d]);
    InsideIsOdd(q, [a, b, c, d, a]);
  }
}
