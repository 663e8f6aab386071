/** The console read out of guest RAM: markers found in one pass over the bytes they share, and
    the longest buffer of each followed, its new text printed. */
module RamConsole {
  import opened Wrappers
  import opened Runs

  type Bytes = seq<int>

  // -- searching

  predicate OccursAt(mem: Bytes, needle: Bytes, start: int) {
    0 <= start && start + |needle| <= |mem| && mem[start..start + |needle|] == needle
  }

  /** What a naive search finds before a place. */
  function Naive(mem: Bytes, needle: Bytes, before: int): seq<int>
    decreases before
  {
    if before <= 0 then []
    else
      var hits := Naive(mem, needle, before - 1);
      if OccursAt(mem, needle, before - 1) then hits + [before - 1] else hits
  }

  lemma {:induction false} HitExactly(mem: Bytes, needle: Bytes, before: int, start: int)
    ensures start in Naive(mem, needle, before) <==> start < before && OccursAt(mem, needle, start)
    decreases before
  {
    if before > 0 {
      HitExactly(mem, needle, before - 1, start);
    }
  }

  lemma {:induction false} HitsAscend(mem: Bytes, needle: Bytes, before: int)
    ensures Ascending(Naive(mem, needle, before), before)
    decreases before
  {
    if before > 0 {
      HitsAscend(mem, needle, before - 1);
      OneMoreHit(Naive(mem, needle, before - 1), before - 1);
    }
  }

  ghost predicate Ascending(hits: seq<int>, before: int) {
    (forall i | 0 <= i < |hits| :: hits[i] < before) && forall i, j | 0 <= i < j < |hits| :: hits[i] < hits[j]
  }

  lemma {:induction false} OneMoreHit(hits: seq<int>, last: int)
    requires Ascending(hits, last)
    ensures Ascending(hits, last + 1) && Ascending(hits + [last], last + 1)
  {
  }

  /** Every start there is, in ascending order. */
  lemma {:induction false} NaiveIsAll(mem: Bytes, needle: Bytes, before: int)
    ensures var hits := Naive(mem, needle, before);
      (forall start :: start in hits <==> start < before && OccursAt(mem, needle, start)) && Ascending(hits, before)
  {
    HitsAscend(mem, needle, before);
    forall start
      ensures start in Naive(mem, needle, before) <==> start < before && OccursAt(mem, needle, start)
    {
      HitExactly(mem, needle, before, start);
    }
  }

  lemma {:induction false} NaiveStep(mem: Bytes, needle: Bytes, n: int)
    ensures Naive(mem, needle, n + 1)
      == if OccursAt(mem, needle, n) then Naive(mem, needle, n) + [n] else Naive(mem, needle, n)
  {
  }

  /** A stretch where nothing starts may be skipped. */
  lemma {:induction false} NothingBetween(mem: Bytes, needle: Bytes, from: int, n: nat)
    requires forall start | from <= start < from + n :: !OccursAt(mem, needle, start)
    ensures Naive(mem, needle, from + n) == Naive(mem, needle, from)
  {
    if n > 0 {
      NothingBetween(mem, needle, from, n - 1);
    }
  }

  /** An occurrence has the needle's pivot at its place. */
  lemma {:induction false} HitHasPivot(mem: Bytes, needle: Bytes, offset: nat, start: int)
    requires offset < |needle| && OccursAt(mem, needle, start)
    ensures mem[start + offset] == needle[offset]
  {
    assert mem[start..start + |needle|][offset] == mem[start + offset];
  }

  /** memchr. */
  method FirstByte(mem: Bytes, b: int, from: nat, to: nat) returns (at: Option<nat>)
    requires from <= to <= |mem|
    ensures at.Some? ==> from <= at.value < to && mem[at.value] == b && forall k | from <= k < at.value :: mem[k] != b
    ensures at.None? ==> forall k | from <= k < to :: mem[k] != b
  {
    for k := from to to
      invariant forall j | from <= j < k :: mem[j] != b
    {
      if mem[k] == b {
        return Some(k);
      }
    }
    at := None;
  }

  /** Needles with the place of the pivot in each. */
  ghost predicate Pivoted(needles: seq<Bytes>, offsets: seq<nat>, pivot: int) {
    |offsets| == |needles| && forall i | 0 <= i < |needles| ::
      offsets[i] < |needles[i]| && needles[i][offsets[i]] == pivot
  }

  /** The hits of every needle with its pivot before a place. */
  ghost predicate FoundBefore(mem: Bytes, needles: seq<Bytes>, offsets: seq<nat>, hits: seq<seq<int>>, from: int) {
    |hits| == |needles| == |offsets| && forall i | 0 <= i < |needles| ::
      hits[i] == Naive(mem, needles[i], from - offsets[i])
  }

  lemma {:induction false} SkipTo(mem: Bytes, needles: seq<Bytes>, offsets: seq<nat>, pivot: int, hits: seq<seq<int>>,
                                  from: nat, to: nat)
    requires Pivoted(needles, offsets, pivot) && FoundBefore(mem, needles, offsets, hits, from)
    requires from <= to <= |mem| && forall k | from <= k < to :: mem[k] != pivot
    ensures FoundBefore(mem, needles, offsets, hits, to)
  {
    forall i | 0 <= i < |needles|
      ensures hits[i] == Naive(mem, needles[i], to - offsets[i])
    {
      forall start | from - offsets[i] <= start < to - offsets[i]
        ensures !OccursAt(mem, needles[i], start)
      {
        if OccursAt(mem, needles[i], start) {
          HitHasPivot(mem, needles[i], offsets[i], start);
        }
      }
      NothingBetween(mem, needles[i], from - offsets[i], to - from);
    }
  }

  /** One place that has the pivot: each needle tried around it. */
  method TryAt(mem: Bytes, needles: seq<Bytes>, offsets: seq<nat>, at: nat, before: seq<seq<int>>)
    returns (hits: seq<seq<int>>)
    requires FoundBefore(mem, needles, offsets, before, at)
    ensures FoundBefore(mem, needles, offsets, hits, at + 1)
  {
    hits := before;
    for i := 0 to |needles|
      invariant |hits| == |needles|
      invariant forall k | 0 <= k < i :: hits[k] == Naive(mem, needles[k], at + 1 - offsets[k])
      invariant forall k | i <= k < |needles| :: hits[k] == Naive(mem, needles[k], at - offsets[k])
    {
      var start := at - offsets[i];
      NaiveStep(mem, needles[i], start);
      if start >= 0 && start + |needles[i]| <= |mem| && mem[start..start + |needles[i]|] == needles[i] {
        hits := hits[i := hits[i] + [start]];
      }
    }
  }

  /** One pass over the pivots finds exactly what a naive search for each needle does. */
  method FindMarkers(mem: Bytes, needles: seq<Bytes>, offsets: seq<nat>, pivot: int) returns (hits: seq<seq<int>>)
    requires Pivoted(needles, offsets, pivot)
    ensures |hits| == |needles| && forall i | 0 <= i < |needles| :: hits[i] == Naive(mem, needles[i], |mem|)
  {
    hits := seq(|needles|, _ => []);
    var from := 0;
    while from < |mem|
      invariant 0 <= from <= |mem| && FoundBefore(mem, needles, offsets, hits, from)
    {
      var p := FirstByte(mem, pivot, from, |mem|);
      if p.None? {
        SkipTo(mem, needles, offsets, pivot, hits, from, |mem|);
        from := |mem|;
        break;
      }
      SkipTo(mem, needles, offsets, pivot, hits, from, p.value);
      hits := TryAt(mem, needles, offsets, p.value, hits);
      from := p.value + 1;
    }
    AllFound(mem, needles, offsets, hits);
  }

  lemma {:induction false} AllFound(mem: Bytes, needles: seq<Bytes>, offsets: seq<nat>, hits: seq<seq<int>>)
    requires FoundBefore(mem, needles, offsets, hits, |mem|)
      && forall i | 0 <= i < |needles| :: offsets[i] < |needles[i]|
    ensures forall i | 0 <= i < |needles| :: hits[i] == Naive(mem, needles[i], |mem|)
  {
    forall i | 0 <= i < |needles|
      ensures hits[i] == Naive(mem, needles[i], |mem|)
    {
      NothingBetween(mem, needles[i], |mem| - offsets[i], offsets[i]);
    }
  }

  // -- following

  const MAX_TEXT: int := 0x10_0000

  /** Where the text from a place on ends: at the first NUL, at most 1 MiB on. */
  function TextEnd(mem: Bytes, start: nat): (end: int)
    requires start <= |mem|
    ensures start <= end <= |mem|
  {
    EndFrom(mem, start, start)
  }

  function EndFrom(mem: Bytes, start: nat, at: nat): (end: int)
    requires start <= at <= |mem|
    ensures at <= end <= |mem|
    decreases |mem| - at
  {
    if at == |mem| || at - start >= MAX_TEXT || mem[at] == 0 then at else EndFrom(mem, start, at + 1)
  }

  lemma {:induction false} EndFromIs(mem: Bytes, start: nat, at: nat)
    requires start <= at <= |mem| && at - start <= MAX_TEXT
    ensures var end := EndFrom(mem, start, at);
      && end - start <= MAX_TEXT
      && (forall k | at <= k < end :: mem[k] != 0)
      && (end < |mem| && end - start < MAX_TEXT ==> mem[end] == 0)
    decreases |mem| - at
  {
    if !(at == |mem| || at - start >= MAX_TEXT || mem[at] == 0) {
      EndFromIs(mem, start, at + 1);
    }
  }

  /** Before it there is no NUL; it is one, unless memory or the limit ends there. */
  lemma {:induction false} TextEndIs(mem: Bytes, start: nat)
    requires start <= |mem|
    ensures var end := TextEnd(mem, start);
      && end - start <= 1024 * 1024
      && (forall k | start <= k < end :: mem[k] != 0)
      && (end < |mem| && end - start < 1024 * 1024 ==> mem[end] == 0)
  {
    EndFromIs(mem, start, start);
  }

  /** Printable text, new lines and tabs are kept; anything else is a dot. */
  function Clean(bytes: Bytes): (text: Bytes)
    ensures |text| == |bytes|
    ensures forall k | 0 <= k < |bytes| :: text[k] == Shown(bytes[k])
  {
    seq(|bytes|, k requires 0 <= k < |bytes| => Shown(bytes[k]))
  }

  function Shown(b: int): int {
    if 0x20 <= b < 0x7F || b == 0x0A || b == 0x09 then b else 0x2E
  }

  /** The bytes shown as they are: from blank to tilde, and the characters of moving on. */
  lemma {:induction false} ShownAsItIs(b: int)
    ensures Shown(b) == b <==> (' ' as int <= b <= '~' as int) || b == '\n' as int || b == '\t' as int
    ensures Shown(b) == b || Shown(b) == '.' as int
  {
  }

  /** What is emitted: that a buffer is adopted, and text of it. */
  datatype Event = Adopted(marker: int, start: int) | Text(marker: int, bytes: Bytes)

  /** The text emitted for a marker since its buffer was adopted. */
  function Since(log: seq<Event>, marker: int): Bytes {
    if log == [] then []
    else
      var before, last := log[..|log| - 1], log[|log| - 1];
      if last.marker != marker then Since(before, marker)
      else if last.Adopted? then []
      else Since(before, marker) + last.bytes
  }

  datatype Buffer = Buffer(start: nat, printed: nat)

  datatype State = State(followed: map<int, Buffer>, candidates: map<int, seq<int>>, grown: set<int>, log: seq<Event>)

  function CandidatesOf(s: State, marker: int): seq<int> {
    if marker in s.candidates then s.candidates[marker] else []
  }

  ghost predicate AllIn(starts: seq<int>, mem: Bytes) {
    forall i | 0 <= i < |starts| :: 0 <= starts[i] <= |mem|
  }

  ghost predicate InMemory(s: State, mem: Bytes) {
    forall marker :: AllIn(CandidatesOf(s, marker), mem)
  }

  function TextLength(mem: Bytes, start: int): int {
    if 0 <= start <= |mem| then TextEnd(mem, start) - start else -1
  }

  /** The first of the places with the longest text. */
  function Best(mem: Bytes, starts: seq<int>): (best: Option<int>)
    ensures best.None? <==> starts == []
  {
    if starts == [] then None
    else
      var n := |starts| - 1;
      var before := Best(mem, starts[..n]);
      if before.None? || TextLength(mem, starts[n]) > TextLength(mem, before.value) then Some(starts[n]) else before
  }

  /** No place has more text, and none before has as much. */
  ghost predicate Longest(mem: Bytes, starts: seq<int>, start: int) {
    exists i | 0 <= i < |starts| :: starts[i] == start && LongestAt(mem, starts, i)
  }

  ghost predicate LongestAt(mem: Bytes, starts: seq<int>, i: int)
    requires 0 <= i < |starts|
  {
    && (forall j | 0 <= j < i :: TextLength(mem, starts[j]) < TextLength(mem, starts[i]))
    && forall j | i < j < |starts| :: TextLength(mem, starts[j]) <= TextLength(mem, starts[i])
  }

  lemma {:induction false} BestIsLongest(mem: Bytes, starts: seq<int>)
    requires starts != []
    ensures Longest(mem, starts, Best(mem, starts).value) && Best(mem, starts).value in starts
  {
    var n := |starts| - 1;
    var before := starts[..n];
    if n > 0 {
      BestIsLongest(mem, before);
      var i :| 0 <= i < n && before[i] == Best(mem, before).value && LongestAt(mem, before, i);
      if TextLength(mem, starts[n]) > TextLength(mem, before[i]) {
        LastIsLongest(mem, starts, i);
      } else {
        StaysLongest(mem, starts, i);
      }
    }
  }

  lemma {:induction false} StaysLongest(mem: Bytes, starts: seq<int>, i: int)
    requires 0 <= i < |starts| - 1 && LongestAt(mem, starts[..|starts| - 1], i)
    requires TextLength(mem, starts[|starts| - 1]) <= TextLength(mem, starts[i])
    ensures starts[..|starts| - 1][i] == starts[i] && LongestAt(mem, starts, i)
  {
    var before := starts[..|starts| - 1];
    assert forall j | 0 <= j < |starts| - 1 :: before[j] == starts[j];
  }

  lemma {:induction false} LastIsLongest(mem: Bytes, starts: seq<int>, i: int)
    requires 0 <= i < |starts| - 1 && LongestAt(mem, starts[..|starts| - 1], i)
    requires TextLength(mem, starts[|starts| - 1]) > TextLength(mem, starts[i])
    ensures LongestAt(mem, starts, |starts| - 1)
  {
    var before := starts[..|starts| - 1];
    assert before[i] == starts[i];
    forall j | 0 <= j < |starts| - 1
      ensures TextLength(mem, starts[j]) < TextLength(mem, starts[|starts| - 1])
    {
      assert before[j] == starts[j];
    }
  }

  /** The marker's buffer is not the one followed. */
  predicate IsNew(s: State, marker: int, start: nat) {
    marker !in s.followed || s.followed[marker].start != start
  }

  /** How much of it has been printed. */
  function Done(s: State, marker: int, start: nat): nat {
    if IsNew(s, marker, start) then 0 else s.followed[marker].printed
  }

  /** What of the text at a place has not been printed. */
  function NewText(mem: Bytes, start: nat, done: nat): Option<Bytes>
    requires start <= |mem|
  {
    var length := TextEnd(mem, start) - start;
    if length > done then Some(Clean(mem[start + done..start + length])) else None
  }

  function Printed(mem: Bytes, start: nat, done: nat): nat
    requires start <= |mem|
  {
    var length := TextEnd(mem, start) - start;
    if length > done then length else done
  }

  /** A marker's buffer at a place, with some of its text. */
  function Looked(s: State, marker: int, start: nat, text: Option<Bytes>, printed: nat): State {
    s.(followed := s.followed[marker := Buffer(start, printed)],
       grown := if !IsNew(s, marker, start) && text.Some? then s.grown + {marker} else s.grown,
       log := s.log + Events(IsNew(s, marker, start), marker, start, text))
  }

  function Events(adopted: bool, marker: int, start: int, text: Option<Bytes>): seq<Event> {
    (if adopted then [Adopted(marker, start)] else []) + (if text.Some? then [Text(marker, text.value)] else [])
  }

  /** Following one marker at a place. */
  function FollowedAt(s: State, mem: Bytes, marker: int, start: nat): State
    requires start <= |mem|
  {
    var done := Done(s, marker, start);
    Looked(s, marker, start, NewText(mem, start, done), Printed(mem, start, done))
  }

  /** The log has, since the buffer was adopted, exactly the buffer's text up to printed. */
  ghost predicate Exact(s: State, mem: Bytes, marker: int) {
    marker in s.followed ==> Logged(s.log, marker, s.followed[marker], mem) && IsText(s.followed[marker], mem)
  }

  ghost predicate Logged(log: seq<Event>, marker: int, b: Buffer, mem: Bytes) {
    b.start + b.printed <= |mem| && Since(log, marker) == Clean(mem[b.start..b.start + b.printed])
  }

  ghost predicate IsText(b: Buffer, mem: Bytes) {
    b.start + b.printed <= |mem| && forall k | b.start <= k < b.start + b.printed :: mem[k] != 0
  }

  lemma {:induction false} SinceAppended(log: seq<Event>, e: Event, marker: int)
    ensures Since(log + [e], marker) ==
      if e.marker != marker then Since(log, marker) else if e.Adopted? then [] else Since(log, marker) + e.bytes
  {
    assert (log + [e])[..|log|] == log;
  }

  function TextOf(text: Option<Bytes>): Bytes {
    if text.Some? then text.value else []
  }

  lemma {:induction false} SinceAdded(log: seq<Event>, adopted: bool, marker: int, start: int, text: Option<Bytes>,
                                      other: int)
    ensures Since(log + Events(adopted, marker, start, text), other) ==
      if other != marker then Since(log, other) else (if adopted then [] else Since(log, marker)) + TextOf(text)
  {
    var first := if adopted then log + [Adopted(marker, start)] else log;
    SinceAppended(log, Adopted(marker, start), other);
    if text.Some? {
      SinceAppended(first, Text(marker, text.value), other);
    }
    assert log + Events(adopted, marker, start, text)
      == if text.Some? then first + [Text(marker, text.value)] else first;
    assert Since(first, other) + [] == Since(first, other);
  }

  /** What the log has of a marker after a look: for another what it had, for this one its new text
      after what had been printed of the buffer. */
  lemma {:induction false} SinceLooked(s: State, marker: int, start: nat, text: Option<Bytes>, printed: nat, other: int)
    ensures Since(Looked(s, marker, start, text, printed).log, other) ==
      if other != marker then Since(s.log, other) else Had(s, marker, start) + TextOf(text)
  {
    SinceAdded(s.log, IsNew(s, marker, start), marker, start, text, other);
  }

  function Had(s: State, marker: int, start: nat): Bytes {
    if IsNew(s, marker, start) then [] else Since(s.log, marker)
  }

  lemma {:induction false} CleanJoins(mem: Bytes, from: int, mid: int, to: int)
    requires 0 <= from <= mid <= to <= |mem|
    ensures Clean(mem[from..mid]) + Clean(mem[mid..to]) == Clean(mem[from..to])
  {
  }

  /** The text printed before and the new text are the text up to printed. */
  lemma {:induction false} TextJoins(mem: Bytes, start: nat, done: nat)
    requires start + done <= |mem|
    ensures var text, printed := NewText(mem, start, done), Printed(mem, start, done);
      && start + printed <= |mem|
      && Clean(mem[start..start + done]) + TextOf(text) == Clean(mem[start..start + printed])
  {
    var length := TextEnd(mem, start) - start;
    if length > done {
      CleanJoins(mem, start, start + done, start + length);
    } else {
      PlusNothing(Clean(mem[start..start + done]));
    }
  }

  lemma {:induction false} PlusNothing(text: Bytes)
    ensures text + [] == text
  {
  }

  /** Up to printed it is text if it was up to done. */
  lemma {:induction false} TextGrows(mem: Bytes, start: nat, done: nat)
    requires start <= |mem|
    ensures IsText(Buffer(start, Printed(mem, start, done)), mem) <==> IsText(Buffer(start, done), mem)
  {
    TextEndIs(mem, start);
  }

  // -- a look at every marker

  /** Follow a marker's longest buffer, if it has one. */
  function FollowMarker(s: State, mem: Bytes, marker: int): State {
    var best := Best(mem, CandidatesOf(s, marker));
    if best.Some? && 0 <= best.value <= |mem| then FollowedAt(s, mem, marker, best.value) else s
  }

  function Looker(mem: Bytes): (State, int) -> State {
    (s, marker) => FollowMarker(s, mem, marker)
  }

  /** The first n markers, one after the other. */
  function FollowMarkers(s: State, mem: Bytes, n: nat): State {
    Iterate(Looker(mem), s, 0, n)
  }

  /** All that is known of one marker: its places, its buffer, and what was printed of that. */
  datatype Track = Track(places: seq<int>, buffer: Option<Buffer>, text: Bytes)

  function TrackOf(s: State, marker: int): Track {
    Track(CandidatesOf(s, marker),
          if marker in s.followed then Some(s.followed[marker]) else None,
          Since(s.log, marker))
  }

  predicate SameFor(s: State, t: State, marker: int) {
    TrackOf(s, marker) == TrackOf(t, marker)
  }

  lemma {:induction false} OthersAreLeft(s: State, mem: Bytes, marker: int, other: int)
    requires other != marker
    ensures SameFor(s, FollowMarker(s, mem, marker), other)
  {
    var best := Best(mem, CandidatesOf(s, marker));
    if best.Some? && 0 <= best.value <= |mem| {
      var done := Done(s, marker, best.value);
      LookedLeaves(s, marker, best.value, NewText(mem, best.value, done), Printed(mem, best.value, done), other);
    }
  }

  lemma {:induction false} LookedLeaves(s: State, marker: int, start: nat, text: Option<Bytes>, printed: nat,
                                        other: int)
    requires other != marker
    ensures SameFor(s, Looked(s, marker, start, text, printed), other)
  {
    SinceLooked(s, marker, start, text, printed, other);
  }

  lemma {:induction false} LookedSame(s: State, t: State, marker: int, start: nat, text: Option<Bytes>, printed: nat)
    requires SameFor(s, t, marker)
    ensures SameFor(Looked(s, marker, start, text, printed), Looked(t, marker, start, text, printed), marker)
    ensures IsNew(s, marker, start) == IsNew(t, marker, start) && Done(s, marker, start) == Done(t, marker, start)
  {
    SinceLooked(s, marker, start, text, printed, marker);
    SinceLooked(t, marker, start, text, printed, marker);
  }

  lemma {:induction false} SameForSame(s: State, t: State, mem: Bytes, marker: int)
    requires SameFor(s, t, marker)
    ensures SameFor(FollowMarker(s, mem, marker), FollowMarker(t, mem, marker), marker)
    ensures Adopts(s, mem, marker) == Adopts(t, mem, marker)
  {
    var best := Best(mem, CandidatesOf(s, marker));
    if best.Some? && 0 <= best.value <= |mem| {
      var done := Done(s, marker, best.value);
      LookedSame(s, t, marker, best.value, NewText(mem, best.value, done), Printed(mem, best.value, done));
    }
  }

  function Tracker(marker: int): State -> Track {
    s => TrackOf(s, marker)
  }

  lemma {:induction false} OthersLeaveTrack(mem: Bytes, marker: int)
    ensures forall t, i | i != marker :: Tracker(marker)(Looker(mem)(t, i)) == Tracker(marker)(t)
  {
    forall t, i | i != marker
      ensures Tracker(marker)(Looker(mem)(t, i)) == Tracker(marker)(t)
    {
      OthersAreLeft(t, mem, i, marker);
    }
  }

  /** What a look does for a marker has nothing to do with any other. */
  lemma {:induction false} EachByItself(s: State, mem: Bytes, n: nat, marker: int)
    ensures SameFor(LookedFor(s, mem, n, marker), FollowMarkers(s, mem, n), marker)
  {
    OthersLeaveTrack(mem, marker);
    if 0 <= marker < n {
      IterateOwn(Looker(mem), Tracker(marker), s, n, marker);
      SameForSame(s, Iterate(Looker(mem), s, 0, marker), mem, marker);
    } else {
      IterateKeeps(Looker(mem), Tracker(marker), s, 0, n);
    }
  }

  lemma {:induction false} PlacesStay(s: State, mem: Bytes, n: nat)
    ensures FollowMarkers(s, mem, n).candidates == s.candidates
  {
    IterateKeeps(Looker(mem), (t: State) => t.candidates, s, 0, n);
  }

  function LookedFor(s: State, mem: Bytes, n: nat, marker: int): State {
    if 0 <= marker < n then FollowMarker(s, mem, marker) else s
  }

  /** As much has been emitted since a buffer was adopted as is said to have been printed. */
  ghost predicate Counted(s: State, marker: int) {
    marker in s.followed ==> |Since(s.log, marker)| == s.followed[marker].printed
  }

  /** A look adopts a buffer for the marker. */
  predicate Adopts(s: State, mem: Bytes, marker: int) {
    var best := Best(mem, CandidatesOf(s, marker));
    best.Some? && 0 <= best.value <= |mem| && IsNew(s, marker, best.value)
  }

  predicate AnyAdopts(s: State, mem: Bytes, n: nat) {
    n > 0 && (AnyAdopts(s, mem, n - 1) || Adopts(s, mem, n - 1))
  }

  /** The next marker is looked at as if it were the first. */
  lemma {:induction false} LookIsNext(s: State, mem: Bytes, marker: nat)
    requires InMemory(s, mem)
    ensures var before := FollowMarkers(s, mem, marker);
      var best := Best(mem, CandidatesOf(before, marker));
      best.Some? ==> 0 <= best.value <= |mem| && (IsNew(before, marker, best.value) <==> Adopts(s, mem, marker))
    ensures CandidatesOf(s, marker) == [] ==> !Adopts(s, mem, marker)
  {
    var before := FollowMarkers(s, mem, marker);
    EachByItself(s, mem, marker, marker);
    SameForSame(s, before, mem, marker);
    assert AllIn(CandidatesOf(s, marker), mem);
    if CandidatesOf(s, marker) != [] {
      BestIsLongest(mem, CandidatesOf(s, marker));
    }
  }

  /** After a look at a marker the log has exactly its buffer's text up to printed, exactly when
      the look adopted the buffer or what was printed of it before is what is there now: nothing
      twice, nothing skipped. */
  lemma {:induction false} ExactAfterLook(s: State, mem: Bytes, marker: int)
    requires Counted(s, marker)
    ensures Counted(FollowMarker(s, mem, marker), marker)
    ensures Exact(FollowMarker(s, mem, marker), mem, marker) <==> Adopts(s, mem, marker) || Exact(s, mem, marker)
  {
    var best := Best(mem, CandidatesOf(s, marker));
    if best.Some? && 0 <= best.value <= |mem| {
      ExactAfterLookAt(s, mem, marker, best.value);
    }
  }

  lemma {:induction false} ExactAfterLookAt(s: State, mem: Bytes, marker: int, start: nat)
    requires start <= |mem| && Counted(s, marker)
    ensures var after := FollowedAt(s, mem, marker, start);
      Counted(after, marker) && (Exact(after, mem, marker) <==> IsNew(s, marker, start) || Exact(s, mem, marker))
  {
    var done := Done(s, marker, start);
    var text, printed := NewText(mem, start, done), Printed(mem, start, done);
    SinceLooked(s, marker, start, text, printed, marker);
    TextGrows(mem, start, done);
    if start + done <= |mem| {
      TextJoins(mem, start, done);
      SamePrefix(Had(s, marker, start), Clean(mem[start..start + done]), TextOf(text));
    }
  }

  lemma {:induction false} SamePrefix(a: Bytes, b: Bytes, c: Bytes)
    requires |a| == |b|
    ensures a + c == b + c <==> a == b
  {
    assert a == (a + c)[..|a|] && b == (b + c)[..|b|];
  }

  // -- a scan

  /** The places that still hold their marker. */
  function Dropped(s: State, needles: seq<Bytes>, mem: Bytes): State {
    DroppedTo(s, needles, mem, |needles|)
  }

  /** ... of the first n markers. */
  function DroppedTo(s: State, needles: seq<Bytes>, mem: Bytes, n: nat): (r: State)
    requires n <= |needles|
    ensures r == s.(candidates := r.candidates)
  {
    if n == 0 then s else DroppedOf(DroppedTo(s, needles, mem, n - 1), needles, mem, n - 1)
  }

  function DroppedOf(s: State, needles: seq<Bytes>, mem: Bytes, marker: nat): (r: State)
    requires marker < |needles|
    ensures r == s.(candidates := r.candidates)
  {
    if marker in s.candidates then
      s.(candidates := s.candidates[marker := Kept(mem, needles[marker], s.candidates[marker])])
    else s
  }

  /** Of the first n markers what is dropped, of the others nothing. */
  lemma {:induction false} DroppedAt(s: State, needles: seq<Bytes>, mem: Bytes, n: nat, marker: int)
    requires n <= |needles|
    ensures CandidatesOf(DroppedTo(s, needles, mem, n), marker) ==
      if 0 <= marker < n then Kept(mem, needles[marker], CandidatesOf(s, marker)) else CandidatesOf(s, marker)
    ensures marker in DroppedTo(s, needles, mem, n).candidates <==> marker in s.candidates
  {
    if n > 0 {
      DroppedAt(s, needles, mem, n - 1, marker);
    }
  }

  /** One of the first n markers has lost its buffer. */
  ghost predicate AnyLostTo(s: State, needles: seq<Bytes>, mem: Bytes, n: nat) {
    exists marker | 0 <= marker < n :: IsLost(s, needles, mem, marker)
  }

  lemma {:induction false} OneMoreLost(s: State, needles: seq<Bytes>, mem: Bytes, n: nat)
    ensures AnyLostTo(s, needles, mem, n + 1) <==> AnyLostTo(s, needles, mem, n) || IsLost(s, needles, mem, n)
  {
  }

  /** A followed buffer's place was known, and no longer holds its marker. */
  ghost predicate IsLost(s: State, needles: seq<Bytes>, mem: Bytes, marker: int) {
    && 0 <= marker < |needles| && marker in s.candidates && marker in s.followed
    && s.followed[marker].start in s.candidates[marker]
    && !OccursAt(mem, needles[marker], s.followed[marker].start)
  }

  ghost predicate AnyLost(s: State, needles: seq<Bytes>, mem: Bytes) {
    AnyLostTo(s, needles, mem, |needles|)
  }

  /** Every place of every marker, found anew. */
  function Searched(s: State, needles: seq<Bytes>, mem: Bytes): State {
    s.(candidates := map marker | 0 <= marker < |needles| :: Naive(mem, needles[marker], |mem|), grown := {})
  }

  /** What a scan follows: places dropped, memory searched when it is time or one was lost. */
  ghost function Known(s: State, needles: seq<Bytes>, mem: Bytes, search: bool): State {
    var dropped := Dropped(s, needles, mem);
    if AnyLost(s, needles, mem) || search then Searched(dropped, needles, mem) else dropped
  }

  ghost function Scanned(s: State, needles: seq<Bytes>, mem: Bytes, search: bool): State {
    FollowMarkers(Known(s, needles, mem, search), mem, |needles|)
  }

  /** What was printed of the marker's buffer is still there. */
  ghost predicate Intact(s: State, mem: Bytes, now: Bytes, marker: int) {
    |now| == |mem| && (marker in s.followed ==>
      var b := s.followed[marker];
      b.start + b.printed <= |mem| ==> now[b.start..b.start + b.printed] == mem[b.start..b.start + b.printed])
  }

  /** From one scan to the next, while the marker's own buffer only grows. */
  lemma {:induction false} IntactIsExact(s: State, mem: Bytes, now: Bytes, marker: int)
    requires Intact(s, mem, now, marker) && Exact(s, mem, marker)
    ensures Exact(s, now, marker)
  {
    if marker in s.followed {
      SameText(s.followed[marker], mem, now);
    }
  }

  lemma {:induction false} SameText(b: Buffer, mem: Bytes, now: Bytes)
    requires IsText(b, mem) && |now| == |mem|
    requires now[b.start..b.start + b.printed] == mem[b.start..b.start + b.printed]
    ensures IsText(b, now)
  {
    forall k | b.start <= k < b.start + b.printed
      ensures now[k] != 0
    {
      assert now[b.start..b.start + b.printed][k - b.start] == mem[b.start..b.start + b.printed][k - b.start];
    }
  }

  /** A scan, for one marker and whatever happens to the others and to the rest of memory. */
  lemma {:induction false} ExactAfterScan(s: State, needles: seq<Bytes>, mem: Bytes, search: bool, marker: int)
    requires 0 <= marker < |needles| && Counted(s, marker)
    ensures var t := Scanned(s, needles, mem, search);
      && Counted(t, marker)
      && (Exact(t, mem, marker) <==> Adopts(Known(s, needles, mem, search), mem, marker) || Exact(s, mem, marker))
  {
    var known := Known(s, needles, mem, search);
    EachByItself(known, mem, |needles|, marker);
    ExactAfterLook(known, mem, marker);
  }

  /** The longest buffer there is is followed, and all its text has been printed. */
  ghost predicate Caught(s: State, mem: Bytes, marker: int) {
    && marker in s.followed
    && var b := s.followed[marker];
       Longest(mem, CandidatesOf(s, marker), b.start) && b.printed >= TextLength(mem, b.start)
  }

  lemma {:induction false} CaughtAfterScan(s: State, needles: seq<Bytes>, mem: Bytes, search: bool, marker: int)
    requires 0 <= marker < |needles| && AllIn(CandidatesOf(Known(s, needles, mem, search), marker), mem)
    ensures var t := Scanned(s, needles, mem, search);
      CandidatesOf(t, marker) != [] ==> Caught(t, mem, marker)
  {
    var known := Known(s, needles, mem, search);
    EachByItself(known, mem, |needles|, marker);
    if CandidatesOf(known, marker) != [] {
      BestIsLongest(mem, CandidatesOf(known, marker));
    }
  }

  /** The buffer is gone and the marker is elsewhere: this very scan searches, adopts the longest
      buffer there is in all of memory, and prints it from its start. */
  lemma {:induction false} LostIsReplaced(s: State, needles: seq<Bytes>, mem: Bytes, search: bool, marker: int)
    requires IsLost(s, needles, mem, marker) && Naive(mem, needles[marker], |mem|) != []
    requires Counted(s, marker)
    ensures var t := Scanned(s, needles, mem, search);
      && Caught(t, mem, marker) && Exact(t, mem, marker)
      && CandidatesOf(t, marker) == Naive(mem, needles[marker], |mem|)
      && t.followed[marker].start != s.followed[marker].start
      && OccursAt(mem, needles[marker], t.followed[marker].start)
  {
    assert AnyLost(s, needles, mem);
    var known := Known(s, needles, mem, search);
    var hits := Naive(mem, needles[marker], |mem|);
    assert CandidatesOf(known, marker) == hits;
    NaiveIsAll(mem, needles[marker], |mem|);
    AllHitsIn(mem, needles[marker], hits);
    EachByItself(known, mem, |needles|, marker);
    CaughtAfterScan(s, needles, mem, search, marker);
    ExactAfterScan(s, needles, mem, search, marker);
  }

  // -- a run of scans

  const START := State(map[], map[], {}, [])

  /** After the first n scans, of memory as it was at each. */
  ghost function After(needles: seq<Bytes>, mems: seq<Bytes>, searches: seq<bool>, n: nat): State
    requires n <= |mems| == |searches|
  {
    if n == 0 then START else Scanned(After(needles, mems, searches, n - 1), needles, mems[n - 1], searches[n - 1])
  }

  lemma {:induction false} AlwaysCounted(needles: seq<Bytes>, mems: seq<Bytes>, searches: seq<bool>, n: nat,
                                         marker: int)
    requires n <= |mems| == |searches| && 0 <= marker < |needles|
    ensures Counted(After(needles, mems, searches, n), marker)
  {
    if n > 0 {
      AlwaysCounted(needles, mems, searches, n - 1, marker);
      ExactAfterScan(After(needles, mems, searches, n - 1), needles, mems[n - 1], searches[n - 1], marker);
    }
  }

  /** Nothing of the marker's buffer that had been printed changed between scans i - 1 and i. */
  ghost predicate Undisturbed(needles: seq<Bytes>, mems: seq<Bytes>, searches: seq<bool>, i: nat, marker: int)
    requires 0 < i < |mems| == |searches|
  {
    Intact(After(needles, mems, searches, i), mems[i - 1], mems[i], marker)
  }

  /** Nor between any two scans after scan j and before scan n. */
  ghost predicate OnlyGrows(needles: seq<Bytes>, mems: seq<Bytes>, searches: seq<bool>, j: nat, n: nat, marker: int)
    requires n <= |mems| == |searches|
  {
    n > j + 1 ==>
      OnlyGrows(needles, mems, searches, j, n - 1, marker) && Undisturbed(needles, mems, searches, n - 1, marker)
  }

  /** Scan i adopted the marker's buffer. */
  ghost predicate AdoptedAt(needles: seq<Bytes>, mems: seq<Bytes>, searches: seq<bool>, i: nat, marker: int)
    requires i < |mems| == |searches|
  {
    Adopts(Known(After(needles, mems, searches, i), needles, mems[i], searches[i]), mems[i], marker)
  }

  /** From the scan that adopted a buffer on, as long as that buffer only grows, and whatever else
      happens in memory, what has been printed since is exactly its text up to printed. */
  lemma {:induction false} ExactSinceAdopted(needles: seq<Bytes>, mems: seq<Bytes>, searches: seq<bool>, j: nat,
                                             i: nat, marker: int)
    requires j <= i < |mems| == |searches| && 0 <= marker < |needles|
    requires j == 0 || AdoptedAt(needles, mems, searches, j, marker)
    requires OnlyGrows(needles, mems, searches, j, i + 1, marker)
    ensures Exact(After(needles, mems, searches, i + 1), mems[i], marker)
    decreases i
  {
    AlwaysCounted(needles, mems, searches, i, marker);
    if j < i {
      ExactSinceAdopted(needles, mems, searches, j, i - 1, marker);
    }
    ExactStep(needles, mems, searches, i, marker);
  }

  lemma {:induction false} ExactStep(needles: seq<Bytes>, mems: seq<Bytes>, searches: seq<bool>, i: nat, marker: int)
    requires i < |mems| == |searches| && 0 <= marker < |needles|
    requires Counted(After(needles, mems, searches, i), marker)
    requires i == 0 || AdoptedAt(needles, mems, searches, i, marker)
      || (Exact(After(needles, mems, searches, i), mems[i - 1], marker)
        && Undisturbed(needles, mems, searches, i, marker))
    ensures Exact(After(needles, mems, searches, i + 1), mems[i], marker)
  {
    var s := After(needles, mems, searches, i);
    ExactAfterScan(s, needles, mems[i], searches[i], marker);
    if i > 0 && !AdoptedAt(needles, mems, searches, i, marker) {
      IntactIsExact(s, mems[i - 1], mems[i], marker);
    }
  }

  class Console {
    const needles: seq<Bytes>
    const offsets: seq<nat>
    const pivot: int
    var followed: map<int, Buffer>
    var candidates: map<int, seq<int>>
    var grown: set<int>
    var log: seq<Event>

    function Here(): State
      reads this
    {
      State(followed, candidates, grown, log)
    }

    constructor (needles: seq<Bytes>, offsets: seq<nat>, pivot: int)
      requires Pivoted(needles, offsets, pivot)
      ensures this.needles == needles && this.offsets == offsets && this.pivot == pivot
      ensures Here() == START
    {
      this.needles, this.offsets, this.pivot := needles, offsets, pivot;
      followed, candidates, grown, log := map[], map[], {}, [];
    }

    /** Of one marker; whether the one followed was among them. */
    method DropAt(mem: Bytes, marker: int) returns (gone: bool)
      requires 0 <= marker < |needles| && marker in candidates
      modifies this`candidates
      ensures candidates == old(candidates)[marker := Kept(mem, needles[marker], old(candidates)[marker])]
      ensures gone <==> IsLost(old(Here()), needles, mem, marker)
    {
      var known := candidates[marker];
      var kept := Kept(mem, needles[marker], known);
      gone := marker in followed && followed[marker].start in known && followed[marker].start !in kept;
      candidates := candidates[marker := kept];
    }

    /** Forget the places that no longer hold their marker. */
    method DropMoved(mem: Bytes) returns (lost: bool)
      modifies this`candidates
      ensures Here() == Dropped(old(Here()), needles, mem)
      ensures lost <==> AnyLost(old(Here()), needles, mem)
    {
      lost := false;
      for marker := 0 to |needles|
        invariant Here() == DroppedTo(old(Here()), needles, mem, marker)
        invariant lost <==> AnyLostTo(old(Here()), needles, mem, marker)
      {
        DroppedAt(old(Here()), needles, mem, marker, marker);
        OneMoreLost(old(Here()), needles, mem, marker);
        if marker in candidates {
          var gone := DropAt(mem, marker);
          lost := lost || gone;
        }
      }
    }

    /** The first of a marker's places with the longest text. */
    method BestOf(mem: Bytes, starts: seq<int>) returns (best: Option<int>)
      ensures best == Best(mem, starts)
    {
      best := None;
      for k := 0 to |starts|
        invariant best == Best(mem, starts[..k])
      {
        assert starts[..k + 1][..k] == starts[..k];
        if best.None? || TextLength(mem, starts[k]) > TextLength(mem, best.value) {
          best := Some(starts[k]);
        }
      }
      assert starts[..|starts|] == starts;
    }

    /** Follow each marker's longest buffer and print its new text. */
    method Follow(mem: Bytes) returns (changed: bool)
      requires InMemory(Here(), mem)
      modifies this`followed, this`grown, this`log
      ensures Here() == FollowMarkers(old(Here()), mem, |needles|)
      ensures changed <==> AnyAdopts(old(Here()), mem, |needles|)
    {
      changed := false;
      for marker := 0 to |needles|
        invariant Here() == FollowMarkers(old(Here()), mem, marker)
        invariant changed <==> AnyAdopts(old(Here()), mem, marker)
      {
        LookIsNext(old(Here()), mem, marker);
        var best := BestOf(mem, CandidatesOf(Here(), marker));
        if best.Some? {
          var moved := FollowOne(mem, marker, best.value);
          changed := changed || moved;
        }
      }
    }

    method FollowOne(mem: Bytes, marker: int, start: nat) returns (moved: bool)
      requires start <= |mem|
      modifies this`followed, this`grown, this`log
      ensures Here() == FollowedAt(old(Here()), mem, marker, start)
      ensures moved <==> IsNew(old(Here()), marker, start)
    {
      var end := TextEnd(mem, start);
      moved := marker !in followed || followed[marker].start != start;
      if moved {
        followed := followed[marker := Buffer(start, 0)];
        log := log + [Adopted(marker, start)];
      } else if end - start > followed[marker].printed {
        grown := grown + {marker};
      }
      var done := followed[marker].printed;
      if end - start > done {
        followed := followed[marker := Buffer(start, end - start)];
        log := log + [Text(marker, Clean(mem[start + done..end]))];
      } else {
        assert followed[marker := followed[marker]] == followed;
      }
    }

    method Search(mem: Bytes)
      requires Pivoted(needles, offsets, pivot)
      modifies this`candidates, this`grown
      ensures Here() == Searched(old(Here()), needles, mem)
    {
      var hits := FindMarkers(mem, needles, offsets, pivot);
      candidates := map marker | 0 <= marker < |needles| :: hits[marker];
      grown := {};
    }

    /** A scan: places lost forgotten, memory searched when it is time or one was lost, buffers
        followed. */
    method Scan(mem: Bytes, search: bool) returns (changed: bool)
      requires Pivoted(needles, offsets, pivot) && InMemory(Here(), mem)
      modifies this
      ensures InMemory(Here(), mem) && Here() == Scanned(old(Here()), needles, mem, search)
    {
      var lost := DropMoved(mem);
      if lost || search {
        Search(mem);
      }
      KnownIsInMemory(old(Here()), needles, mem, search);
      changed := Follow(mem);
      PlacesStay(Known(old(Here()), needles, mem, search), mem, |needles|);
      SamePlaces(Known(old(Here()), needles, mem, search), Here(), mem);
    }
  }

  lemma {:induction false} KnownIsInMemory(s: State, needles: seq<Bytes>, mem: Bytes, search: bool)
    requires InMemory(s, mem)
    ensures InMemory(Known(s, needles, mem, search), mem)
  {
    var known := Known(s, needles, mem, search);
    forall marker
      ensures AllIn(CandidatesOf(known, marker), mem)
    {
      assert AllIn(CandidatesOf(s, marker), mem);
      DroppedAt(s, needles, mem, |needles|, marker);
      if 0 <= marker < |needles| {
        NaiveIsAll(mem, needles[marker], |mem|);
        AllHitsIn(mem, needles[marker], CandidatesOf(known, marker));
      }
    }
  }

  lemma {:induction false} SamePlaces(s: State, now: State, mem: Bytes)
    requires InMemory(s, mem) && now.candidates == s.candidates
    ensures InMemory(now, mem)
  {
    forall marker
      ensures AllIn(CandidatesOf(now, marker), mem)
    {
      assert AllIn(CandidatesOf(s, marker), mem);
    }
  }

  lemma {:induction false} AllHitsIn(mem: Bytes, needle: Bytes, starts: seq<int>)
    requires forall start | start in starts :: OccursAt(mem, needle, start)
    ensures AllIn(starts, mem)
  {
    assert forall i | 0 <= i < |starts| :: starts[i] in starts;
  }

  function Kept(mem: Bytes, needle: Bytes, known: seq<int>): (kept: seq<int>)
    ensures forall start :: start in kept <==> start in known && OccursAt(mem, needle, start)
  {
    if known == [] then []
    else
      var rest := Kept(mem, needle, known[..|known| - 1]);
      assert known == known[..|known| - 1] + [known[|known| - 1]];
      if OccursAt(mem, needle, known[|known| - 1]) then rest + [known[|known| - 1]] else rest
  }

  /** A run of scans of memory that may change in any way between them, its size apart: for each
      marker and each scan that adopted a buffer for it (or the first), as long as that buffer
      only grew, what has been printed since is exactly its text up to printed; and the longest
      buffer known has been printed to its end. */
  method Watch(console: Console, mems: seq<Bytes>, searches: seq<bool>)
    requires Pivoted(console.needles, console.offsets, console.pivot) && console.Here() == START
    requires |mems| == |searches| > 0 && forall i | 0 <= i < |mems| :: |mems[i]| == |mems[0]|
    modifies console
    ensures console.Here() == After(console.needles, mems, searches, |mems|)
    ensures forall marker, j: nat | 0 <= marker < |console.needles|
      && GrownSince(console.needles, mems, searches, j, marker) ::
      Exact(console.Here(), mems[|mems| - 1], marker)
    ensures forall marker | 0 <= marker < |console.needles| && CandidatesOf(console.Here(), marker) != [] ::
      Caught(console.Here(), mems[|mems| - 1], marker)
  {
    for i := 0 to |mems|
      invariant console.Here() == After(console.needles, mems, searches, i)
      invariant InMemory(console.Here(), mems[0])
    {
      InMemoryOfSize(console.Here(), mems[0], mems[i]);
      var _ := console.Scan(mems[i], searches[i]);
      InMemoryOfSize(console.Here(), mems[i], mems[0]);
    }
    AllExact(console.needles, mems, searches);
    AllCaught(console.needles, mems, searches);
  }

  /** Scan j adopted the marker's buffer (or is the first), which has only grown since. */
  ghost predicate GrownSince(needles: seq<Bytes>, mems: seq<Bytes>, searches: seq<bool>, j: nat, marker: int)
    requires |mems| == |searches|
  {
    && j < |mems| && (j == 0 || AdoptedAt(needles, mems, searches, j, marker))
    && OnlyGrows(needles, mems, searches, j, |mems|, marker)
  }

  lemma {:induction false} AllExact(needles: seq<Bytes>, mems: seq<Bytes>, searches: seq<bool>)
    requires |mems| == |searches| > 0
    ensures forall marker, j: nat | 0 <= marker < |needles| && GrownSince(needles, mems, searches, j, marker) ::
      Exact(After(needles, mems, searches, |mems|), mems[|mems| - 1], marker)
  {
    forall marker, j: nat | 0 <= marker < |needles| && GrownSince(needles, mems, searches, j, marker)
      ensures Exact(After(needles, mems, searches, |mems|), mems[|mems| - 1], marker)
    {
      ExactSinceAdopted(needles, mems, searches, j, |mems| - 1, marker);
    }
  }

  lemma {:induction false} InMemoryOfSize(s: State, mem: Bytes, now: Bytes)
    requires InMemory(s, mem) && |now| == |mem|
    ensures InMemory(s, now)
  {
    forall marker
      ensures AllIn(CandidatesOf(s, marker), now)
    {
      assert AllIn(CandidatesOf(s, marker), mem);
    }
  }

  lemma {:induction false} AlwaysInMemory(needles: seq<Bytes>, mems: seq<Bytes>, searches: seq<bool>, n: nat,
                                          mem: Bytes)
    requires n <= |mems| == |searches| && forall i | 0 <= i < |mems| :: |mems[i]| == |mem|
    ensures InMemory(After(needles, mems, searches, n), mem)
  {
    if n > 0 {
      var before := After(needles, mems, searches, n - 1);
      AlwaysInMemory(needles, mems, searches, n - 1, mem);
      InMemoryOfSize(before, mem, mems[n - 1]);
      KnownIsInMemory(before, needles, mems[n - 1], searches[n - 1]);
      var after := After(needles, mems, searches, n);
      PlacesStay(Known(before, needles, mems[n - 1], searches[n - 1]), mems[n - 1], |needles|);
      SamePlaces(Known(before, needles, mems[n - 1], searches[n - 1]), after, mems[n - 1]);
      InMemoryOfSize(after, mems[n - 1], mem);
    }
  }

  lemma {:induction false} AllCaught(needles: seq<Bytes>, mems: seq<Bytes>, searches: seq<bool>)
    requires |mems| == |searches| > 0 && forall i | 0 <= i < |mems| :: |mems[i]| == |mems[0]|
    ensures var t, mem := After(needles, mems, searches, |mems|), mems[|mems| - 1];
      forall marker | 0 <= marker < |needles| && CandidatesOf(t, marker) != [] :: Caught(t, mem, marker)
  {
    var n := |mems|;
    var s, t, mem := After(needles, mems, searches, n - 1), After(needles, mems, searches, n), mems[n - 1];
    AlwaysInMemory(needles, mems, searches, n - 1, mem);
    KnownIsInMemory(s, needles, mem, searches[n - 1]);
    forall marker | 0 <= marker < |needles| && CandidatesOf(t, marker) != []
      ensures Caught(t, mem, marker)
    {
      assert AllIn(CandidatesOf(Known(s, needles, mem, searches[n - 1]), marker), mem);
      CaughtAfterScan(s, needles, mem, searches[n - 1], marker);
    }
  }
}
