/** "Best slots for you" (slot_suggestions.py): runs of back-to-back free slots, ranked. */
module SlotRanking {
  import opened Common
  import opened Sorting

  const WINDOW_DAYS := 14
  const MAX_SUGGESTIONS := 5
  const ALTERNATIVE_IF_LATER_THAN_DAYS := 3

  /** A free slot. Times are minutes of local wall-clock time counted from a fixed midnight; `date` is the
      day the slot row itself carries. */
  datatype Slot = Slot(id: nat, date: int, start: Option<nat>, end: Option<nat>)

  function Abs(a: int): nat { if a < 0 then -a else a }

  function DayOf(time: nat): nat { time / 1440 }

  function HourOf(time: nat): nat { time / 60 % 24 }

  /** Minute m of hour h of a day. */
  lemma TimeRead(day: nat, h: nat, m: nat)
    requires h < 24 && m < 60
    ensures var t := 1440 * day + 60 * h + m; DayOf(t) == day && HourOf(t) == h
  {
    var t := 1440 * day + 60 * h + m;
    assert t / 60 == 24 * day + h;
  }

  /* ---- Runs of back-to-back slots ------------------------------------------------------------------------------ */

  /** `r.get("start") or ""`: a slot without a start sorts first. */
  function StartKey(s: Slot): Key {
    match s.start case None => (0, 0) case Some(t) => (1, t)
  }

  predicate Follows(a: Slot, b: Slot) {
    a.end.Some? && a.end == b.start && a.date == b.date
  }

  predicate BackToBack(run: seq<Slot>) {
    forall i :: 0 <= i < |run| - 1 ==> Follows(run[i], run[i + 1])
  }

  /** The windows of `count` slots that start before index n and are back to back. */
  function Windows(sorted: seq<Slot>, count: nat, n: nat): seq<seq<Slot>>
    requires n <= |sorted| && count > 0
  {
    if n == 0 then []
    else
      var i := n - 1;
      Windows(sorted, count, i) +
      (if i + count <= |sorted| && BackToBack(sorted[i..i + count]) then [sorted[i..i + count]] else [])
  }

  function RunsOf(rows: seq<Slot>, needed: nat): seq<seq<Slot>>
    requires needed > 0
  {
    Windows(SortBy(rows, StartKey), needed, |rows|)
  }

  predicate IsWindow(sorted: seq<Slot>, count: nat, i: nat, run: seq<Slot>) {
    i + count <= |sorted| && run == sorted[i..i + count] && BackToBack(run)
  }

  lemma {:induction false} WindowsExact(sorted: seq<Slot>, count: nat, n: nat, run: seq<Slot>)
    requires n <= |sorted| && count > 0
    ensures run in Windows(sorted, count, n) <==> exists i: nat :: i < n && IsWindow(sorted, count, i, run)
  {
    if n > 0 {
      WindowsExact(sorted, count, n - 1, run);
      assert IsWindow(sorted, count, n - 1, run) || !IsWindow(sorted, count, n - 1, run);
    }
  }

  /** A run is `needed` slots of the list, each ending when the next one starts, all on one day. */
  lemma RunsAreRuns(rows: seq<Slot>, needed: nat, run: seq<Slot>)
    requires needed > 0 && run in RunsOf(rows, needed)
    ensures |run| == needed && forall s :: s in run ==> s in rows
    ensures forall i :: 0 <= i < |run| - 1 ==>
              run[i].end.Some? && run[i].end == run[i + 1].start && run[i].date == run[i + 1].date
  {
    WindowsExact(SortBy(rows, StartKey), needed, |rows|, run);
    SortByMembers(rows, StartKey);
    forall i | 0 <= i < |run| - 1
      ensures run[i].end.Some? && run[i].end == run[i + 1].start && run[i].date == run[i + 1].date
    {
      assert Follows(run[i], run[i + 1]);
    }
  }

  lemma {:induction false} WindowsInOrder(sorted: seq<Slot>, count: nat, n: nat)
    requires n <= |sorted| && count > 0 && IsSorted(sorted, StartKey)
    ensures forall r :: r in Windows(sorted, count, n) ==> |r| == count
    ensures Windows(sorted, count, n) != [] ==>
              forall r :: r in Windows(sorted, count, n) ==>
                !Less(StartKey(r[0]), StartKey(Windows(sorted, count, n)[0][0]))
    ensures forall r, j :: r in Windows(sorted, count, n) && n <= j < |sorted| ==>
              !Less(StartKey(sorted[j]), StartKey(r[0]))
  {
    if n > 0 {
      WindowsInOrder(sorted, count, n - 1);
    }
  }

  /** The first run of the list starts no later than any other, and has no start if some run has none. */
  lemma FirstRunIsEarliest(rows: seq<Slot>, needed: nat, first: seq<Slot>, run: seq<Slot>)
    requires needed > 0 && run in RunsOf(rows, needed) && first == RunsOf(rows, needed)[0]
    ensures first != [] && run != []
    ensures first[0].start.Some? && run[0].start.Some? ==> first[0].start.value <= run[0].start.value
    ensures run[0].start.None? ==> first[0].start.None?
  {
    SortBySorts(rows, StartKey);
    WindowsInOrder(SortBy(rows, StartKey), needed, |rows|);
    assert !Less(StartKey(run[0]), StartKey(first[0]));
  }

  /* ---- No run is missed ---------------------------------------------------------------------------------------- */

  ghost predicate DistinctStarts(rows: seq<Slot>) {
    forall i, j :: 0 <= i < j < |rows| && rows[i].start.Some? ==> rows[i].start != rows[j].start
  }

  /** Back-to-back slots of the list, each starting after the one before it, with no other slot starting between. */
  ghost predicate IsChain(rows: seq<Slot>, run: seq<Slot>) {
    && run != [] && (forall s :: s in run ==> s in rows && s.start.Some?)
    && (forall i :: 0 <= i < |run| - 1 ==>
          && run[i].end == run[i + 1].start && run[i].date == run[i + 1].date
          && run[i].start.value < run[i + 1].start.value)
    && (forall s, i :: s in rows && s.start.Some? && 0 <= i < |run| - 1 ==>
          !(run[i].start.value < s.start.value < run[i + 1].start.value))
  }

  lemma SortedStartsDistinct(rows: seq<Slot>, sorted: seq<Slot>)
    requires DistinctStarts(rows) && multiset(sorted) == multiset(rows)
    ensures DistinctStarts(sorted)
  {
    forall i, j | 0 <= i < j < |sorted| && sorted[i].start.Some?
      ensures sorted[i].start != sorted[j].start
    {
      if sorted[i] == sorted[j] {
        TwicePresent(sorted, i, j);
        var k, l := TwoPlaces(rows, sorted[i]);
      } else {
        assert sorted[i] in multiset(rows) && sorted[j] in multiset(rows);
        var k, l :| 0 <= k < |rows| && 0 <= l < |rows| && rows[k] == sorted[i] && rows[l] == sorted[j];
        assert k < l || l < k;
      }
    }
  }

  lemma StartOrder(sorted: seq<Slot>, i: nat, j: nat)
    requires IsSorted(sorted, StartKey) && i < j < |sorted|
    ensures sorted[i].start.Some? ==> sorted[j].start.Some? && sorted[i].start.value <= sorted[j].start.value
  {
    assert !Less(StartKey(sorted[j]), StartKey(sorted[i]));
  }

  lemma StartsBetween(sorted: seq<Slot>, k: nat, p: nat)
    requires IsSorted(sorted, StartKey) && DistinctStarts(sorted) && k + 1 < p < |sorted| && sorted[k].start.Some?
    ensures sorted[k + 1] in sorted && sorted[k + 1].start.Some? && sorted[p].start.Some?
    ensures sorted[k].start.value < sorted[k + 1].start.value < sorted[p].start.value
  {
    StartOrder(sorted, k, k + 1);
    StartOrder(sorted, k + 1, p);
  }

  /** In a sorted list with distinct starts, the slot that follows one in a chain follows it in the list. */
  lemma NextInList(sorted: seq<Slot>, k: nat, next: Slot)
    requires IsSorted(sorted, StartKey) && DistinctStarts(sorted)
    requires k < |sorted| && next in sorted && sorted[k].start.Some? && next.start.Some?
    requires sorted[k].start.value < next.start.value
    requires forall s :: s in sorted && s.start.Some? ==> !(sorted[k].start.value < s.start.value < next.start.value)
    ensures k + 1 < |sorted| && sorted[k + 1] == next
  {
    hide IsSorted, DistinctStarts;
    var p :| 0 <= p < |sorted| && sorted[p] == next;
    if p < k {
      StartOrder(sorted, p, k);
    } else if k + 1 < p {
      StartsBetween(sorted, k, p);
    }
  }

  lemma ChainStep(rows: seq<Slot>, sorted: seq<Slot>, run: seq<Slot>, p: nat, i: nat)
    requires IsChain(rows, run) && (forall s :: s in sorted <==> s in rows)
    requires IsSorted(sorted, StartKey) && DistinctStarts(sorted)
    requires p < |sorted| && i + 1 < |run| && sorted[p] == run[i]
    ensures p + 1 < |sorted| && sorted[p + 1] == run[i + 1]
  {
    hide IsSorted, DistinctStarts;
    assert run[i] in run && run[i + 1] in run;
    NextInList(sorted, p, run[i + 1]);
  }

  lemma {:induction false} ChainInList(rows: seq<Slot>, sorted: seq<Slot>, run: seq<Slot>, k: nat, n: nat)
    requires IsChain(rows, run) && (forall s :: s in sorted <==> s in rows)
    requires IsSorted(sorted, StartKey) && DistinctStarts(sorted)
    requires k < |sorted| && sorted[k] == run[0] && 0 < n <= |run|
    ensures k + n <= |sorted| && forall i :: 0 <= i < n ==> sorted[k + i] == run[i]
  {
    hide IsChain, IsSorted, DistinctStarts;
    if n > 1 {
      ChainInList(rows, sorted, run, k, n - 1);
      ChainStep(rows, sorted, run, k + n - 2, n - 2);
    }
  }

  /** When no two slots start together, every such chain of the length asked for is among the runs. */
  lemma ChainIsFound(rows: seq<Slot>, needed: nat, run: seq<Slot>)
    requires needed > 0 && DistinctStarts(rows) && IsChain(rows, run) && |run| == needed
    ensures run in RunsOf(rows, needed)
  {
    var sorted := SortBy(rows, StartKey);
    SortBySorts(rows, StartKey);
    SortByMembers(rows, StartKey);
    SortedStartsDistinct(rows, sorted);
    assert run[0] in run;
    var k :| 0 <= k < |sorted| && sorted[k] == run[0];
    ChainInList(rows, sorted, run, k, needed);
    assert sorted[k..k + needed] == run;
    ChainFollows(rows, run);
    assert IsWindow(sorted, needed, k, run);
    WindowsExact(sorted, needed, |rows|, run);
  }

  lemma ChainFollows(rows: seq<Slot>, run: seq<Slot>)
    requires IsChain(rows, run)
    ensures BackToBack(run)
  {
    forall i | 0 <= i < |run| - 1
      ensures Follows(run[i], run[i + 1])
    {
      assert run[i + 1] in run;
    }
  }

  /* ---- Scores -------------------------------------------------------------------------------------------------- */

  function Distance(hour: nat, usual: seq<int>): nat
    requires usual != []
  {
    var d := Abs(hour - usual[0]);
    if |usual| == 1 then d else Min(d, Distance(hour, usual[1..]))
  }

  /** The preference for a start hour, in thousandths. */
  function Preference(hour: nat, usual: seq<int>): nat {
    if usual == [] then 0
    else match Distance(hour, usual) case 0 => 1000 case 1 => 600 case 2 => 300 case _ => 0
  }

  function DaysOut(start: nat, today: int): nat {
    Max(0, DayOf(start) - today)
  }

  /** Of the days of the window, those left from the start on. */
  function DaysLeft(start: nat, today: int): nat {
    WINDOW_DAYS - Min(DaysOut(start, today), WINDOW_DAYS)
  }

  /** `round(0.65 * soon + 0.35 * pref, 3)` in thousandths. 650 * k / 14 is never half-way between integers,
      so rounding to nearest has one answer. */
  function Score(start: nat, usual: seq<int>, today: int): nat {
    (1300 * DaysLeft(start, today) + 14) / 28 + 35 * Preference(HourOf(start), usual) / 100
  }

  /** The distance is to the nearest usual hour. */
  lemma {:induction false} DistanceIsLeast(hour: nat, usual: seq<int>)
    requires usual != []
    ensures exists i :: 0 <= i < |usual| && Distance(hour, usual) == Abs(hour - usual[i])
    ensures forall i :: 0 <= i < |usual| ==> Distance(hour, usual) <= Abs(hour - usual[i])
  {
    if |usual| == 1 {
      assert Distance(hour, usual) == Abs(hour - usual[0]);
    } else {
      DistanceIsLeast(hour, usual[1..]);
      var j :| 0 <= j < |usual| - 1 && Distance(hour, usual[1..]) == Abs(hour - usual[1..][j]);
      assert usual[1..][j] == usual[j + 1];
      if Distance(hour, usual) == Abs(hour - usual[0]) {
        assert 0 < |usual|;
      }
      forall i | 0 <= i < |usual|
        ensures Distance(hour, usual) <= Abs(hour - usual[i])
      {
        assert i == 0 || usual[i] == usual[1..][i - 1];
      }
    }
  }

  /** All of the preference goes to a usual hour, 0.6 to one hour off, 0.3 to two, and nothing beyond. */
  lemma PreferenceTable(hour: nat, usual: seq<int>)
    ensures Preference(hour, usual) in {0, 300, 600, 1000}
    ensures Preference(hour, usual) >= 1000 <==> exists i :: 0 <= i < |usual| && usual[i] == hour
    ensures Preference(hour, usual) >= 600 <==> exists i :: 0 <= i < |usual| && -1 <= usual[i] - hour <= 1
    ensures Preference(hour, usual) >= 300 <==> exists i :: 0 <= i < |usual| && -2 <= usual[i] - hour <= 2
  {
    if usual != [] {
      DistanceIsLeast(hour, usual);
      var i :| 0 <= i < |usual| && Distance(hour, usual) == Abs(hour - usual[i]);
      assert usual[i] == hour || usual[i] != hour;
    }
  }

  /** Today counts for all of the fourteen days, and so do days gone by; day fourteen and those after it for none. */
  lemma DaysLeftTable(start: nat, today: int)
    ensures DayOf(start) <= today ==> DaysOut(start, today) == 0 && DaysLeft(start, today) == 14
    ensures today <= DayOf(start) ==> DaysOut(start, today) == DayOf(start) - today
    ensures today <= DayOf(start) <= today + 14 ==> DaysLeft(start, today) == 14 - (DayOf(start) - today)
    ensures today + 14 <= DayOf(start) ==> DaysLeft(start, today) == 0
  {
  }

  lemma RoundsToNearest(k: nat)
    ensures -7 < 14 * ((1300 * k + 14) / 28) - 650 * k < 7
  {
  }

  lemma RoundsUpwards(k: nat, l: nat)
    requires k <= l
    ensures (1300 * k + 14) / 28 <= (1300 * l + 14) / 28
  {
  }

  /** The score is 0.65 of the days left in the window and 0.35 of the preference, to the nearest thousandth and never
      half-way; an earlier day at an hour of the same preference never scores lower. */
  lemma ScoreIsNearest(start: nat, later: nat, usual: seq<int>, today: int)
    ensures var exact := 650_000 * DaysLeft(start, today) + 14 * 350 * Preference(HourOf(start), usual);
            -7000 < 14_000 * Score(start, usual, today) - exact < 7000
    ensures DayOf(start) <= DayOf(later) && Preference(HourOf(start), usual) == Preference(HourOf(later), usual) ==>
              Score(start, usual, today) >= Score(later, usual, today)
  {
    RoundsToNearest(DaysLeft(start, today));
    if DayOf(start) <= DayOf(later) {
      RoundsUpwards(DaysLeft(later, today), DaysLeft(start, today));
    }
  }

  datatype Scored = Scored(run: seq<Slot>, start: nat, score: nat, pref: nat, daysOut: nat)
  {
    function Day(): nat { DayOf(start) }
  }

  /** The runs whose start could be read, with their scores, in the order given. */
  function ScoredRuns(runs: seq<seq<Slot>>, usual: seq<int>, today: int): seq<Scored>
    requires forall i :: 0 <= i < |runs| ==> runs[i] != []
  {
    if runs == [] then []
    else
      var rest := ScoredRuns(runs[1..], usual, today);
      match runs[0][0].start
      case None => rest
      case Some(t) =>
        [Scored(runs[0], t, Score(t, usual, today), Preference(HourOf(t), usual), DaysOut(t, today))] + rest
  }

  /* ---- Which runs are picked ----------------------------------------------------------------------------------- */

  /** Position i comes before position j in `sorted(scored, key=(-score, start))`. */
  predicate Better(s: seq<Scored>, i: nat, j: nat)
    requires i < |s| && j < |s|
  {
    || s[i].score > s[j].score
    || (s[i].score == s[j].score && (s[i].start < s[j].start || (s[i].start == s[j].start && i < j)))
  }

  predicate Matching(s: seq<Scored>, earliest: nat, i: nat) {
    i < |s| && s[i].pref >= 1000 && i != earliest
  }

  /** All runs, or those at a usual hour other than the one already picked. */
  predicate Candidate(s: seq<Scored>, picked: Option<nat>, i: nat) {
    i < |s| && (picked.Some? ==> Matching(s, picked.value, i))
  }

  /** `min(candidates, key=start)`: the first of the smallest. */
  ghost predicate IsEarliest(s: seq<Scored>, picked: Option<nat>, i: nat) {
    && Candidate(s, picked, i)
    && (forall j: nat :: Candidate(s, picked, j) ==> s[i].start < s[j].start || (s[i].start == s[j].start && i <= j))
  }

  /** The picks made before the greedy fill: the earliest run and, for a user with usual hours, the earliest
      other run at a usual hour. */
  ghost predicate FixedPicks(s: seq<Scored>, usual: seq<int>, fixed: seq<nat>) {
    && 1 <= |fixed| <= 2
    && IsEarliest(s, None, fixed[0])
    && (|fixed| == 2 ==> usual != [] && IsEarliest(s, Some(fixed[0]), fixed[1]))
    && (|fixed| == 1 ==> usual == [] || forall i: nat :: !Matching(s, fixed[0], i))
  }

  predicate InRange(s: seq<Scored>, picks: seq<nat>) {
    forall i :: 0 <= i < |picks| ==> picks[i] < |s|
  }

  ghost predicate Represented(s: seq<Scored>, picks: seq<nat>, day: nat)
    requires InRange(s, picks)
  {
    exists i :: 0 <= i < |picks| && s[picks[i]].Day() == day
  }

  /** The best run of its day. */
  ghost predicate BestOfDay(s: seq<Scored>, p: nat) {
    p < |s| && forall q: nat :: q < |s| && q != p && s[q].Day() == s[p].Day() ==> Better(s, p, q)
  }

  /** What the greedy fill achieves, said without the loop. */
  ghost predicate DayOptimal(s: seq<Scored>, fixed: seq<nat>, picks: seq<nat>) {
    && |fixed| <= |picks| <= MAX_SUGGESTIONS && picks[..|fixed|] == fixed
    && InRange(s, picks)
    && (forall i :: |fixed| <= i < |picks| ==> BestOfDay(s, picks[i]))
    && (forall i, j :: 0 <= i < j < |picks| && |fixed| <= j ==> s[picks[i]].Day() != s[picks[j]].Day())
    && (forall i, q: nat :: |fixed| <= i < |picks| && q < |s| && !Represented(s, picks, s[q].Day()) ==>
          Better(s, picks[i], q))
    && (|picks| < MAX_SUGGESTIONS ==> forall q: nat :: q < |s| ==> Represented(s, picks, s[q].Day()))
  }

  method FindEarliest(s: seq<Scored>, picked: Option<nat>) returns (r: Option<nat>)
    ensures r.None? ==> forall i: nat :: !Candidate(s, picked, i)
    ensures r.Some? ==> IsEarliest(s, picked, r.value)
  {
    r := None;
    for i := 0 to |s|
      invariant r.None? ==> forall j: nat :: j < i ==> !Candidate(s, picked, j)
      invariant r.Some? ==> r.value < i && Candidate(s, picked, r.value)
      invariant r.Some? ==> forall j: nat :: j < i && Candidate(s, picked, j) ==>
                  s[r.value].start < s[j].start || (s[r.value].start == s[j].start && r.value <= j)
    {
      if Candidate(s, picked, i) && (r.None? || s[i].start < s[r.value].start) {
        r := Some(i);
      }
    }
  }

  function RankKey(s: seq<Scored>): nat -> Key {
    (i: nat) => if i < |s| then (-(s[i].score as int), s[i].start) else (0, 0)
  }

  function From(lo: nat, n: nat): seq<nat>
    requires lo <= n
  {
    seq(n - lo, i => lo + i)
  }

  /** The positions in the order of `sorted(scored, key=(-score, start))`. */
  function RankOrder(s: seq<Scored>): seq<nat> {
    SortBy<nat>(From(0, |s|), RankKey(s))
  }

  ghost predicate InOrder(s: seq<Scored>, lo: nat, r: seq<nat>) {
    && (forall i :: 0 <= i < |r| ==> lo <= r[i] < |s|)
    && (forall i, j :: 0 <= i < j < |r| ==> Better(s, r[i], r[j]))
  }

  ghost predicate RankedFrom(s: seq<Scored>, lo: nat, r: seq<nat>) {
    InOrder(s, lo, r) && forall k: nat :: lo <= k < |s| ==> k in r
  }

  lemma {:induction false} InsertRanked(s: seq<Scored>, lo: nat, r: seq<nat>)
    requires lo < |s| && InOrder(s, lo + 1, r)
    ensures InOrder(s, lo, Insert<nat>(lo, r, RankKey(s)))
    ensures forall k: nat :: k in Insert<nat>(lo, r, RankKey(s)) <==> k == lo || k in r
  {
    var key := RankKey(s);
    if r != [] && Less(key(r[0]), key(lo)) {
      var rest: seq<nat> := Insert<nat>(lo, r[1..], key);
      InsertRanked(s, lo, r[1..]);
      assert InOrder(s, lo, rest);
      assert Insert<nat>(lo, r, key) == [r[0]] + rest;
      forall j | 0 <= j < |rest|
        ensures Better(s, r[0], rest[j])
      {
        assert rest[j] in rest;
        assert rest[j] == lo || rest[j] in r[1..];
      }
    } else if r != [] {
      assert Insert<nat>(lo, r, key) == [lo] + r;
      forall j | 0 <= j < |r|
        ensures Better(s, lo, r[j])
      {
        assert j == 0 || Better(s, r[0], r[j]);
      }
    }
  }

  lemma {:induction false} OrderRanked(s: seq<Scored>, lo: nat)
    requires lo <= |s|
    ensures RankedFrom(s, lo, SortBy<nat>(From(lo, |s|), RankKey(s)))
    decreases |s| - lo
  {
    if lo < |s| {
      OrderRanked(s, lo + 1);
      var rest: seq<nat> := SortBy<nat>(From(lo + 1, |s|), RankKey(s));
      InsertRanked(s, lo, rest);
      var all: seq<nat> := Insert<nat>(lo, rest, RankKey(s));
      forall k: nat | lo <= k < |s|
        ensures k in all
      {
        assert k == lo || k in rest;
      }
      assert RankedFrom(s, lo, all);
      assert From(lo, |s|)[0] == lo && From(lo, |s|)[1..] == From(lo + 1, |s|);
      assert SortBy<nat>(From(lo, |s|), RankKey(s)) == all;
    }
  }

  datatype Reason =
    | EarliestFreeTime
    | StartsAtYourUsualTime
    | StartsAtUsualTime(start: nat)
    | CloseToUsualTime
    | NextFreeDay
    | InDays(days: nat)

  function FillReasons(p: Scored): seq<Reason> {
    (if p.pref >= 600 then [CloseToUsualTime] else []) + [if p.daysOut <= 2 then NextFreeDay else InDays(p.daysOut)]
  }

  function FixedReasons(s: seq<Scored>, usual: seq<int>, fixed: seq<nat>): seq<seq<Reason>>
    requires fixed != [] && InRange(s, fixed)
  {
    if |fixed| == 1 then
      if usual != [] && s[fixed[0]].pref >= 1000 then [[EarliestFreeTime, StartsAtYourUsualTime]]
      else [[EarliestFreeTime]]
    else [[EarliestFreeTime], [StartsAtUsualTime(s[fixed[1]].start)]]
  }

  method PickFixed(s: seq<Scored>, usual: seq<int>) returns (fixed: seq<nat>, reasons: seq<seq<Reason>>)
    requires s != []
    ensures FixedPicks(s, usual, fixed) && InRange(s, fixed)
    ensures reasons == FixedReasons(s, usual, fixed)
  {
    var earliest := FindEarliest(s, None);
    assert Candidate(s, None, 0);
    fixed, reasons := [earliest.value], [[EarliestFreeTime]];
    if usual != [] {
      var best := FindEarliest(s, earliest);
      if best.Some? {
        fixed, reasons := fixed + [best.value], reasons + [[StartsAtUsualTime(s[best.value].start)]];
      } else {
        assert forall i: nat :: Matching(s, earliest.value, i) ==> Candidate(s, earliest, i);
        if s[earliest.value].pref >= 1000 {
          reasons := [[EarliestFreeTime, StartsAtYourUsualTime]];
        }
      }
    }
  }

  /** The greedy fill, after the first k positions of the ranking. */
  ghost predicate FilledTo(s: seq<Scored>, fixed: seq<nat>, picks: seq<nat>, order: seq<nat>, k: nat) {
    && RankedFrom(s, 0, order) && k <= |order|
    && |fixed| <= |picks| <= MAX_SUGGESTIONS && picks[..|fixed|] == fixed
    && InRange(s, picks)
    && (forall i :: |fixed| <= i < |picks| ==> BestOfDay(s, picks[i]))
    && (forall i, j :: 0 <= i < j < |picks| && |fixed| <= j ==> s[picks[i]].Day() != s[picks[j]].Day())
    && (forall i, j :: |fixed| <= i < |picks| && k <= j < |order| ==> Better(s, picks[i], order[j]))
    && (forall j :: 0 <= j < k ==> Represented(s, picks, s[order[j]].Day()))
  }

  lemma FillSkips(s: seq<Scored>, fixed: seq<nat>, picks: seq<nat>, order: seq<nat>, k: nat)
    requires FilledTo(s, fixed, picks, order, k) && k < |order| && Represented(s, picks, s[order[k]].Day())
    ensures FilledTo(s, fixed, picks, order, k + 1)
  {
  }

  lemma FillPicks(s: seq<Scored>, fixed: seq<nat>, picks: seq<nat>, order: seq<nat>, k: nat)
    requires FilledTo(s, fixed, picks, order, k) && k < |order| && |picks| < MAX_SUGGESTIONS
    requires !Represented(s, picks, s[order[k]].Day())
    ensures FilledTo(s, fixed, picks + [order[k]], order, k + 1)
  {
    var p, picks' := order[k], picks + [order[k]];
    FirstOfItsDay(s, picks, order, k);
    RepresentedGrows(s, picks, p);
    forall i, j | 0 <= i < j < |picks'| && |fixed| <= j
      ensures s[picks'[i]].Day() != s[picks'[j]].Day()
    {
      if j == |picks| {
        assert Represented(s, picks, s[picks[i]].Day());
      }
    }
  }

  /** The greedy fill. */
  method Fill(s: seq<Scored>, fixed: seq<nat>, fixedReasons: seq<seq<Reason>>)
    returns (picks: seq<nat>, reasons: seq<seq<Reason>>)
    requires 1 <= |fixed| == |fixedReasons| <= 2 && InRange(s, fixed)
    ensures DayOptimal(s, fixed, picks)
    ensures |reasons| == |picks| && reasons[..|fixed|] == fixedReasons
    ensures forall i :: |fixed| <= i < |picks| ==> reasons[i] == FillReasons(s[picks[i]])
  {
    picks, reasons := fixed, fixedReasons;
    var used := set i | 0 <= i < |fixed| :: s[fixed[i]].Day();
    var order := RankOrder(s);
    OrderRanked(s, 0);
    var k := 0;
    while k < |order| && |picks| < MAX_SUGGESTIONS
      invariant FilledTo(s, fixed, picks, order, k)
      invariant forall d :: d in used <==> Represented(s, picks, d)
      invariant |reasons| == |picks| && reasons[..|fixed|] == fixedReasons
      invariant forall i :: |fixed| <= i < |picks| ==> reasons[i] == FillReasons(s[picks[i]])
    {
      var p := order[k];
      if p in picks || s[p].Day() in used {
        assert Represented(s, picks, s[p].Day());
        FillSkips(s, fixed, picks, order, k);
      } else {
        FillPicks(s, fixed, picks, order, k);
        RepresentedGrows(s, picks, p);
        picks, reasons := picks + [p], reasons + [FillReasons(s[p])];
        used := used + {s[p].Day()};
      }
      k := k + 1;
    }
    FillDone(s, fixed, picks, order, k);
  }

  /** When no run of its day came before it in the order, a run is the best of its day. */
  lemma FirstOfItsDay(s: seq<Scored>, picks: seq<nat>, order: seq<nat>, k: nat)
    requires RankedFrom(s, 0, order) && k < |order| && InRange(s, picks) && !Represented(s, picks, s[order[k]].Day())
    requires forall j :: 0 <= j < k ==> Represented(s, picks, s[order[j]].Day())
    ensures BestOfDay(s, order[k])
  {
    forall q: nat | q < |s| && q != order[k] && s[q].Day() == s[order[k]].Day()
      ensures Better(s, order[k], q)
    {
      assert q in order;
      var j :| 0 <= j < |order| && order[j] == q;
    }
  }

  lemma RepresentedGrows(s: seq<Scored>, picks: seq<nat>, p: nat)
    requires p < |s| && InRange(s, picks)
    ensures forall d :: Represented(s, picks + [p], d) <==> Represented(s, picks, d) || d == s[p].Day()
  {
    forall d
      ensures Represented(s, picks + [p], d) <==> Represented(s, picks, d) || d == s[p].Day()
    {
      if Represented(s, picks, d) {
        var i :| 0 <= i < |picks| && s[picks[i]].Day() == d;
        assert (picks + [p])[i] == picks[i];
      }
      assert (picks + [p])[|picks|] == p;
    }
  }

  lemma FillDone(s: seq<Scored>, fixed: seq<nat>, picks: seq<nat>, order: seq<nat>, k: nat)
    requires FilledTo(s, fixed, picks, order, k) && (k == |order| || |picks| == MAX_SUGGESTIONS)
    ensures DayOptimal(s, fixed, picks)
  {
    forall q: nat | q < |s| && !Represented(s, picks, s[q].Day())
      ensures k < |order| && forall i :: |fixed| <= i < |picks| ==> Better(s, picks[i], q)
    {
      assert q in order;
      var j :| 0 <= j < |order| && order[j] == q;
    }
  }

  /* ---- The picks are determined -------------------------------------------------------------------------------- */

  /** If a greedy pick of one optimal choice has its day represented in another, it is a greedy pick there too. */
  lemma SharedDay(s: seq<Scored>, fixed: seq<nat>, a: seq<nat>, b: seq<nat>, i: nat)
    requires DayOptimal(s, fixed, a) && DayOptimal(s, fixed, b) && |fixed| <= i < |a|
    requires Represented(s, b, s[a[i]].Day())
    ensures a[i] in b[|fixed|..]
  {
  }

  lemma {:induction false} DistinctSize(p: seq<nat>)
    requires forall i, j :: 0 <= i < j < |p| ==> p[i] != p[j]
    ensures |SetOf(p)| == |p|
  {
    if p != [] {
      var n := |p| - 1;
      DistinctSize(p[..n]);
      SetOfAppend(p[..n], p[n]);
      assert p == p[..n] + [p[n]];
    }
  }

  lemma SetOfAppend(picks: seq<nat>, p: nat)
    requires p !in picks
    ensures |SetOf(picks + [p])| == |SetOf(picks)| + 1
  {
    assert SetOf(picks + [p]) == SetOf(picks) + {p};
  }

  ghost function SetOf(picks: seq<nat>): set<nat> {
    set p | p in picks
  }

  /** The conditions leave no choice: any two day-optimal choices after the same fixed picks pick the same runs. */
  lemma OneDayOptimalChoice(s: seq<Scored>, fixed: seq<nat>, a: seq<nat>, b: seq<nat>)
    requires DayOptimal(s, fixed, a) && DayOptimal(s, fixed, b)
    ensures SetOf(a[|fixed|..]) == SetOf(b[|fixed|..])
  {
    PicksShared(s, fixed, a, b);
    PicksShared(s, fixed, b, a);
  }

  lemma PicksShared(s: seq<Scored>, fixed: seq<nat>, a: seq<nat>, b: seq<nat>)
    requires DayOptimal(s, fixed, a) && DayOptimal(s, fixed, b)
    ensures SetOf(a[|fixed|..]) <= SetOf(b[|fixed|..])
  {
    var k := |fixed|;
    forall i | k <= i < |a|
      ensures a[i] in b[k..]
    {
      SameDays(s, fixed, a, b, i);
      SharedDay(s, fixed, a, b, i);
    }
    forall p | p in a[k..]
      ensures p in b[k..]
    {
      var i :| 0 <= i < |a| - k && a[k..][i] == p;
      assert a[k + i] == p;
    }
  }

  /** A day represented in one optimal choice is represented in the other: otherwise that one is full, and so has a
      pick the first has not. */
  lemma SameDays(s: seq<Scored>, fixed: seq<nat>, a: seq<nat>, b: seq<nat>, i: nat)
    requires DayOptimal(s, fixed, a) && DayOptimal(s, fixed, b) && |fixed| <= i < |a|
    ensures Represented(s, b, s[a[i]].Day())
  {
    if |b| == MAX_SUGGESTIONS {
      FillSize(s, fixed, a);
      FillSize(s, fixed, b);
      var j := FindFresh(|fixed|, a, b, i);
      FreshPick(s, fixed, a, b, i, j);
    } else {
      assert a[i] < |s|;
    }
  }

  lemma FindFresh(k: nat, a: seq<nat>, b: seq<nat>, i: nat) returns (j: nat)
    requires k <= i < |a| <= |b| && |SetOf(a[k..])| == |a| - k && |SetOf(b[k..])| == |b| - k
    ensures k <= j < |b| && b[j] !in SetOf(a[k..]) - {a[i]}
  {
    InTail(a, k, i);
    var m := FreshElement(a[k..], b[k..], a[i]);
    j := k + m;
  }

  /** A pick of one choice that the other has not, or has as pick i: were the day of pick i not represented, each of
      the two picks would be better than the other. */
  lemma FreshPick(s: seq<Scored>, fixed: seq<nat>, a: seq<nat>, b: seq<nat>, i: nat, j: nat)
    requires DayOptimal(s, fixed, a) && DayOptimal(s, fixed, b) && |fixed| <= i < |a| && |fixed| <= j < |b|
    requires b[j] !in SetOf(a[|fixed|..]) - {a[i]}
    ensures Represented(s, b, s[a[i]].Day())
  {
    if Represented(s, a, s[b[j]].Day()) {
      SharedDay(s, fixed, b, a, j);
      assert b[j] == a[i];
    } else if !Represented(s, b, s[a[i]].Day()) {
      assert false;
    }
  }

  lemma InTail(a: seq<nat>, k: nat, i: nat)
    requires k <= i < |a|
    ensures a[i] in a[k..]
  {
    assert a[k..][i - k] == a[i];
  }

  lemma FreshElement(a: seq<nat>, b: seq<nat>, x: nat) returns (m: nat)
    requires |SetOf(a)| == |a| <= |b| == |SetOf(b)| && x in a
    ensures m < |b| && b[m] !in SetOf(a) - {x}
  {
    var p := MoreElements(SetOf(b), SetOf(a) - {x});
    m :| 0 <= m < |b| && b[m] == p;
  }

  /** The greedy picks are all different. */
  lemma FillSize(s: seq<Scored>, fixed: seq<nat>, picks: seq<nat>)
    requires DayOptimal(s, fixed, picks)
    ensures |SetOf(picks[|fixed|..])| == |picks| - |fixed|
  {
    var rest := picks[|fixed|..];
    forall i, j | 0 <= i < j < |rest|
      ensures rest[i] != rest[j]
    {
      assert s[picks[|fixed| + i]].Day() != s[picks[|fixed| + j]].Day();
    }
    DistinctSize(rest);
  }

  lemma MoreElements(a: set<nat>, b: set<nat>) returns (p: nat)
    requires |a| > |b|
    ensures p in a && p !in b
  {
    assert a == a * b + (a - b) && b == a * b + (b - a);
    p :| p in a - b;
  }

  /** Some other run than the earliest starts at a usual hour on the day of the earliest. */
  ghost predicate UsualOnFirstDay(s: seq<Scored>, usual: seq<int>) {
    usual != [] && exists e: nat, k: nat :: IsEarliest(s, None, e) && Matching(s, e, k) && s[k].Day() == s[e].Day()
  }

  lemma OneEarliest(s: seq<Scored>, picked: Option<nat>, a: nat, b: nat)
    requires IsEarliest(s, picked, a) && IsEarliest(s, picked, b)
    ensures a == b
  {
    assert Candidate(s, picked, a) && Candidate(s, picked, b);
  }

  /** The picks fall on distinct days if and only if no other run at a usual hour shares the day of the earliest run:
      the usual-time pick is not checked against that day. */
  lemma DaysDistinctIff(s: seq<Scored>, usual: seq<int>, fixed: seq<nat>, picks: seq<nat>)
    requires FixedPicks(s, usual, fixed) && InRange(s, fixed) && DayOptimal(s, fixed, picks)
    ensures (forall i, j :: 0 <= i < j < |picks| ==> s[picks[i]].Day() != s[picks[j]].Day())
       <==> !UsualOnFirstDay(s, usual)
  {
    assert forall i :: 0 <= i < |fixed| ==> picks[i] == picks[..|fixed|][i] == fixed[i];
    if UsualOnFirstDay(s, usual) {
      var e: nat, k: nat :| IsEarliest(s, None, e) && Matching(s, e, k) && s[k].Day() == s[e].Day();
      OneEarliest(s, None, e, fixed[0]);
      assert |fixed| == 2 && Candidate(s, Some(e), k) && Candidate(s, None, fixed[1]);
      DayMonotone(s[e].start, s[fixed[1]].start);
      DayMonotone(s[fixed[1]].start, s[k].start);
    } else if |fixed| == 2 {
      assert IsEarliest(s, None, fixed[0]) && Matching(s, fixed[0], fixed[1]);
    }
  }

  lemma DayMonotone(a: nat, b: nat)
    requires a <= b
    ensures DayOf(a) <= DayOf(b)
  {
  }

  /** It happens: free at 9:00 and 14:00 on one day, and a user who usually starts at 14. */
  lemma TwoOnOneDay()
    ensures
      var s := ScoredRuns([[Slot(1, 0, Some(540), Some(600))], [Slot(2, 0, Some(840), Some(900))]], [14], 0);
      |s| == 2 && FixedPicks(s, [14], [0, 1]) && s[0].Day() == s[1].Day() && UsualOnFirstDay(s, [14])
  {
    var s := ScoredRuns([[Slot(1, 0, Some(540), Some(600))], [Slot(2, 0, Some(840), Some(900))]], [14], 0);
    assert IsEarliest(s, None, 0) && Matching(s, 0, 1);
  }

  /* ---- rank_runs ----------------------------------------------------------------------------------------------- */

  datatype Suggestion = Suggestion(run: seq<Slot>, start: nat, score: nat, reasons: seq<Reason>)
  {
    function Day(): nat { DayOf(start) }
  }

  function Suggested(s: seq<Scored>, picks: seq<nat>, reasons: seq<seq<Reason>>): (r: seq<Suggestion>)
    requires InRange(s, picks) && |reasons| == |picks|
    ensures |r| == |picks|
  {
    seq(|picks|, i requires 0 <= i < |picks| =>
      Suggestion(s[picks[i]].run, s[picks[i]].start, s[picks[i]].score, reasons[i]))
  }

  function ByStart(p: Suggestion): Key {
    (p.start, 0)
  }

  ghost predicate Ranking(s: seq<Scored>, usual: seq<int>, picks: seq<nat>, reasons: seq<seq<Reason>>) {
    exists fixed ::
      && FixedPicks(s, usual, fixed) && InRange(s, fixed) && DayOptimal(s, fixed, picks)
      && |reasons| == |picks| && reasons[..|fixed|] == FixedReasons(s, usual, fixed)
      && forall i :: |fixed| <= i < |picks| ==> reasons[i] == FillReasons(s[picks[i]])
  }

  /** What rank_runs answers: a day-optimal choice after the fixed picks, with its reasons, in order of start. */
  ghost predicate IsRanking(runs: seq<seq<Slot>>, usual: seq<int>, today: int, out: seq<Suggestion>)
    requires forall i :: 0 <= i < |runs| ==> runs[i] != []
  {
    var s := ScoredRuns(runs, usual, today);
    if s == [] then out == []
    else
      exists picks, reasons ::
        && Ranking(s, usual, picks, reasons) && InRange(s, picks) && |reasons| == |picks|
        && out == SortBy(Suggested(s, picks, reasons), ByStart)
  }

  method RankRuns(runs: seq<seq<Slot>>, usual: seq<int>, today: int) returns (out: seq<Suggestion>)
    requires forall i :: 0 <= i < |runs| ==> runs[i] != []
    ensures IsRanking(runs, usual, today, out)
  {
    var s := ScoredRuns(runs, usual, today);
    if s == [] {
      return [];
    }
    var fixed, fixedReasons := PickFixed(s, usual);
    var picks, reasons := Fill(s, fixed, fixedReasons);
    assert Ranking(s, usual, picks, reasons);
    out := SortBy(Suggested(s, picks, reasons), ByStart);
  }

  ghost predicate DistinctDays(out: seq<Suggestion>) {
    forall i, j :: 0 <= i < j < |out| ==> out[i].Day() != out[j].Day()
  }

  lemma ReorderedDays(a: seq<Suggestion>, b: seq<Suggestion>)
    requires multiset(a) == multiset(b) && DistinctDays(a)
    ensures DistinctDays(b)
  {
    forall i, j | 0 <= i < j < |b|
      ensures b[i].Day() != b[j].Day()
    {
      if b[i] == b[j] {
        TwicePresent(b, i, j);
        var k, l := TwoPlaces(a, b[i]);
        assert false;
      } else {
        assert b[i] in multiset(a) && b[j] in multiset(a);
        var k, l :| 0 <= k < |a| && 0 <= l < |a| && a[k] == b[i] && a[l] == b[j];
        assert k < l || l < k;
      }
    }
  }

  /** There is one suggestion per day if and only if no other run at a usual hour shares the day of the earliest run. */
  lemma OnePerDayIff(runs: seq<seq<Slot>>, usual: seq<int>, today: int, out: seq<Suggestion>)
    requires (forall i :: 0 <= i < |runs| ==> runs[i] != []) && IsRanking(runs, usual, today, out)
    ensures DistinctDays(out) <==> !UsualOnFirstDay(ScoredRuns(runs, usual, today), usual)
  {
    var s := ScoredRuns(runs, usual, today);
    if s != [] {
      var picks, reasons :|
        && Ranking(s, usual, picks, reasons) && InRange(s, picks) && |reasons| == |picks|
        && out == SortBy(Suggested(s, picks, reasons), ByStart);
      var fixed :| FixedPicks(s, usual, fixed) && InRange(s, fixed) && DayOptimal(s, fixed, picks);
      DaysDistinctIff(s, usual, fixed, picks);
      SortBySorts(Suggested(s, picks, reasons), ByStart);
      SuggestedDays(s, picks, reasons, out);
    }
  }

  /** What is behind the entries that are ranked. */
  lemma {:induction false} ScoredSays(runs: seq<seq<Slot>>, usual: seq<int>, today: int, i: nat)
    requires forall i :: 0 <= i < |runs| ==> runs[i] != []
    requires i < |ScoredRuns(runs, usual, today)|
    ensures
      var p := ScoredRuns(runs, usual, today)[i];
      && p.score == Score(p.start, usual, today)
      && p.pref == Preference(HourOf(p.start), usual) && p.daysOut == DaysOut(p.start, today)
  {
    if runs[0][0].start.None? {
      ScoredSays(runs[1..], usual, today, i);
    } else if i > 0 {
      ScoredSays(runs[1..], usual, today, i - 1);
    }
  }

  /** A run other than the earliest matches exactly when it starts at a usual hour. */
  lemma MatchingIff(runs: seq<seq<Slot>>, usual: seq<int>, today: int, earliest: nat, i: nat)
    requires forall i :: 0 <= i < |runs| ==> runs[i] != []
    requires i < |ScoredRuns(runs, usual, today)|
    ensures
      var s := ScoredRuns(runs, usual, today);
      Matching(s, earliest, i) <==>
        i != earliest && exists k :: 0 <= k < |usual| && usual[k] == HourOf(s[i].start)
  {
    ScoredSays(runs, usual, today, i);
    PreferenceTable(HourOf(ScoredRuns(runs, usual, today)[i].start), usual);
  }

  /** The reasons of a further pick: close to a usual hour when one is no more than an hour off, and the next free day
      or the number of days until then. */
  lemma FillReasonsSay(runs: seq<seq<Slot>>, usual: seq<int>, today: int, i: nat)
    requires forall i :: 0 <= i < |runs| ==> runs[i] != []
    requires i < |ScoredRuns(runs, usual, today)|
    ensures
      var p := ScoredRuns(runs, usual, today)[i];
      var reasons, ahead := FillReasons(p), DayOf(p.start) - today;
      && (CloseToUsualTime in reasons <==> exists k :: 0 <= k < |usual| && -1 <= usual[k] - HourOf(p.start) <= 1)
      && (ahead <= 2 ==> reasons[|reasons| - 1] == NextFreeDay)
      && (ahead > 2 ==> reasons[|reasons| - 1] == InDays(ahead))
  {
    var p := ScoredRuns(runs, usual, today)[i];
    ScoredSays(runs, usual, today, i);
    PreferenceTable(HourOf(p.start), usual);
    DaysLeftTable(p.start, today);
  }

  /** The reasons of the picks before: the earliest run is called that, and at a usual hour besides when it is picked
      alone; the pick after it is told by its start. */
  lemma FixedReasonsSay(runs: seq<seq<Slot>>, usual: seq<int>, today: int, fixed: seq<nat>)
    requires forall i :: 0 <= i < |runs| ==> runs[i] != []
    requires FixedPicks(ScoredRuns(runs, usual, today), usual, fixed)
    requires InRange(ScoredRuns(runs, usual, today), fixed)
    ensures
      var s := ScoredRuns(runs, usual, today);
      var reasons := FixedReasons(s, usual, fixed);
      && |reasons| == |fixed| && reasons[0] != [] && reasons[0][0] == EarliestFreeTime
      && (StartsAtYourUsualTime in reasons[0] <==>
            |fixed| == 1 && exists k :: 0 <= k < |usual| && usual[k] == HourOf(s[fixed[0]].start))
      && (|fixed| == 2 ==> reasons[1] == [StartsAtUsualTime(s[fixed[1]].start)])
  {
    var s := ScoredRuns(runs, usual, today);
    ScoredSays(runs, usual, today, fixed[0]);
    PreferenceTable(HourOf(s[fixed[0]].start), usual);
  }

  /** A further pick scores higher than any run of its day, and than any run of a day that has none, or as high and
      starts no later. */
  lemma FillPicksHighest(s: seq<Scored>, fixed: seq<nat>, picks: seq<nat>, i: nat, q: nat)
    requires DayOptimal(s, fixed, picks) && |fixed| <= i < |picks| && q < |s|
    requires DayOf(s[q].start) == DayOf(s[picks[i]].start) ||
             forall j :: 0 <= j < |picks| ==> DayOf(s[picks[j]].start) != DayOf(s[q].start)
    ensures var p := s[picks[i]];
            p.score > s[q].score || (p.score == s[q].score && p.start <= s[q].start)
  {
    assert BestOfDay(s, picks[i]);
    if s[q].Day() == s[picks[i]].Day() {
      assert q == picks[i] || Better(s, picks[i], q);
    } else {
      assert Better(s, picks[i], q);
    }
  }

  /** There are at most five suggestions, in order of start, each of a run that is offered, with its score. */
  lemma RankingIsOrdered(runs: seq<seq<Slot>>, usual: seq<int>, today: int, out: seq<Suggestion>, i: nat, j: nat)
    requires (forall i :: 0 <= i < |runs| ==> runs[i] != []) && IsRanking(runs, usual, today, out)
    requires i <= j < |out|
    ensures |out| <= 5 && out[i].start <= out[j].start
    ensures out[i].run in runs && out[i].run[0].start == Some(out[i].start)
    ensures out[i].score == Score(out[i].start, usual, today)
  {
    var s := ScoredRuns(runs, usual, today);
    var picks, reasons :|
      && Ranking(s, usual, picks, reasons) && InRange(s, picks) && |reasons| == |picks|
      && out == SortBy(Suggested(s, picks, reasons), ByStart);
    hide IsRanking, ScoredRuns, FixedPicks, FixedReasons, FillReasons;
    OrderedByStart(Suggested(s, picks, reasons), i, j);
    var p := SuggestedPick(s, picks, reasons, i);
    ScoredAreRuns(runs, usual, today);
    assert s[p] in s;
    ScoredSays(runs, usual, today, p);
  }

  lemma OrderedByStart(all: seq<Suggestion>, i: nat, j: nat)
    requires i <= j < |all|
    ensures |SortBy(all, ByStart)| == |all|
    ensures SortBy(all, ByStart)[i].start <= SortBy(all, ByStart)[j].start
  {
    SortBySorts(all, ByStart);
    var out := SortBy(all, ByStart);
    assert |out| == |multiset(out)| == |multiset(all)| == |all|;
    if i < j {
      assert !Less(ByStart(out[j]), ByStart(out[i]));
    }
  }

  lemma SuggestedPick(s: seq<Scored>, picks: seq<nat>, reasons: seq<seq<Reason>>, i: nat) returns (p: nat)
    requires InRange(s, picks) && |reasons| == |picks|
    requires i < |SortBy(Suggested(s, picks, reasons), ByStart)|
    ensures p < |s|
    ensures var q := SortBy(Suggested(s, picks, reasons), ByStart)[i];
            q.run == s[p].run && q.start == s[p].start && q.score == s[p].score
  {
    var all := Suggested(s, picks, reasons);
    SortByMembers(all, ByStart);
    var q := SortBy(all, ByStart)[i];
    assert q in all;
    var k :| 0 <= k < |all| && all[k] == q;
    p := picks[k];
  }

  lemma SuggestedDays(s: seq<Scored>, picks: seq<nat>, reasons: seq<seq<Reason>>, out: seq<Suggestion>)
    requires InRange(s, picks) && |reasons| == |picks| && multiset(out) == multiset(Suggested(s, picks, reasons))
    ensures DistinctDays(out) <==> forall i, j :: 0 <= i < j < |picks| ==> s[picks[i]].Day() != s[picks[j]].Day()
  {
    var all := Suggested(s, picks, reasons);
    assert forall i :: 0 <= i < |picks| ==> all[i].Day() == s[picks[i]].Day();
    if DistinctDays(out) {
      ReorderedDays(out, all);
    } else if DistinctDays(all) {
      ReorderedDays(all, out);
    }
  }

  lemma {:induction false} ScoredAreRuns(runs: seq<seq<Slot>>, usual: seq<int>, today: int)
    requires forall i :: 0 <= i < |runs| ==> runs[i] != []
    ensures forall p :: p in ScoredRuns(runs, usual, today) ==> p.run in runs && p.run[0].start == Some(p.start)
  {
    if runs != [] {
      ScoredAreRuns(runs[1..], usual, today);
    }
  }

  lemma {:induction false} RunIsScored(runs: seq<seq<Slot>>, usual: seq<int>, today: int, i: nat) returns (j: nat)
    requires forall i :: 0 <= i < |runs| ==> runs[i] != []
    requires i < |runs| && runs[i][0].start.Some?
    ensures j < |ScoredRuns(runs, usual, today)| && ScoredRuns(runs, usual, today)[j].run == runs[i]
  {
    var all := ScoredRuns(runs, usual, today);
    if i == 0 {
      j := 0;
    } else {
      j := RunIsScored(runs[1..], usual, today, i - 1);
      j := if runs[0][0].start.None? then j else j + 1;
      assert all[j].run == runs[1..][i - 1];
    }
  }

  /** The first suggestion is the earliest usable run, and there is one exactly when some run is usable. */
  lemma FirstIsEarliest(runs: seq<seq<Slot>>, usual: seq<int>, today: int,
                        picks: seq<nat>, reasons: seq<seq<Reason>>, i: nat)
    requires forall j :: 0 <= j < |runs| ==> runs[j] != []
    requires var s := ScoredRuns(runs, usual, today);
             s != [] && Ranking(s, usual, picks, reasons) && InRange(s, picks) && |reasons| == |picks|
    ensures
      var out := SortBy(Suggested(ScoredRuns(runs, usual, today), picks, reasons), ByStart);
      && |out| == |picks| > 0 && out[0].run in runs && out[0].run[0].start == Some(out[0].start)
      && (i < |runs| && runs[i][0].start.Some? ==> out[0].start <= runs[i][0].start.value)
  {
    var s := ScoredRuns(runs, usual, today);
    var all := Suggested(s, picks, reasons);
    var fixed :| FixedPicks(s, usual, fixed) && InRange(s, fixed) && DayOptimal(s, fixed, picks);
    assert picks[0] == picks[..|fixed|][0] == fixed[0];
    ScoredAreRuns(runs, usual, today);
    var k := FirstOfSorted(all, ByStart, 0);
    assert s[picks[k]] in s;
    if i < |runs| && runs[i][0].start.Some? {
      var j := RunIsScored(runs, usual, today, i);
      assert s[j] in s && Candidate(s, None, j);
    }
  }

  /* ---- suggest ------------------------------------------------------------------------------------------------- */

  /** The answer of find_bookable_slots. */
  datatype Lookup = Lookup(ok: bool, rows: seq<Slot>)

  datatype Similar = Similar(equipment: nat, lookup: Lookup)

  datatype Alternative = Alternative(equipment: nat, day: int, run: seq<Slot>)

  datatype Answer = Answer(suggestions: seq<Suggestion>, alternatives: seq<Alternative>, nothingFits: bool)

  function Needed(slotCount: int): nat {
    Max(1, Min(if slotCount == 0 then 1 else slotCount, 24))
  }

  /** The date of a run: that of its start or, without one, of its slot row. */
  function RunDay(run: seq<Slot>): int
    requires run != []
  {
    match run[0].start case Some(t) => DayOf(t) case None => run[0].date
  }

  /** The candidate's first run, when there is one. */
  function FirstRun(c: Similar, needed: nat): Option<seq<Slot>>
    requires needed > 0
  {
    var runs := RunsOf(c.lookup.rows, needed);
    if !c.lookup.ok || c.lookup.rows == [] || runs == [] then None else Some(runs[0])
  }

  lemma RunsNonEmpty(rows: seq<Slot>, needed: nat)
    requires needed > 0
    ensures forall i :: 0 <= i < |RunsOf(rows, needed)| ==> RunsOf(rows, needed)[i] != []
  {
    forall i | 0 <= i < |RunsOf(rows, needed)|
      ensures RunsOf(rows, needed)[i] != []
    {
      assert RunsOf(rows, needed)[i] in RunsOf(rows, needed);
      RunsAreRuns(rows, needed, RunsOf(rows, needed)[i]);
    }
  }

  predicate Usable(run: seq<Slot>) {
    run != [] && run[0].start.Some?
  }

  /** The similar instrument has a run on a day before the first suggestion. */
  predicate Qualifies(c: Similar, needed: nat, firstDay: Option<int>)
    requires needed > 0
  {
    var run := FirstRun(c, needed);
    run.Some? && run.value != [] && (firstDay.Some? ==> RunDay(run.value) < firstDay.value)
  }

  function AlternativesOf(similar: seq<Similar>, needed: nat, firstDay: Option<int>): seq<Alternative>
    requires needed > 0
  {
    if similar == [] then []
    else
      var n := |similar| - 1;
      AlternativesOf(similar[..n], needed, firstDay) +
      if Qualifies(similar[n], needed, firstDay) then
        var run := FirstRun(similar[n], needed).value; [Alternative(similar[n].equipment, RunDay(run), run)]
      else []
  }

  function FirstDay(suggestions: seq<Suggestion>): Option<int> {
    if suggestions == [] then None else Some(suggestions[0].Day())
  }

  predicate TooLate(suggestions: seq<Suggestion>, today: int) {
    suggestions == [] || suggestions[0].Day() - today > ALTERNATIVE_IF_LATER_THAN_DAYS
  }

  /** The first suggestion is a usable run and no usable run starts before it; without one, no run is usable. */
  ghost predicate LeadsWithEarliest(suggestions: seq<Suggestion>, runs: seq<seq<Slot>>) {
    if suggestions == [] then forall i :: 0 <= i < |runs| ==> !Usable(runs[i])
    else
      && suggestions[0].run in runs
      && forall i :: 0 <= i < |runs| && Usable(runs[i]) ==> suggestions[0].start <= runs[i][0].start.value
  }

  method FindAlternatives(similar: seq<Similar>, needed: nat, suggestions: seq<Suggestion>)
    returns (alternatives: seq<Alternative>)
    requires needed > 0
    ensures alternatives == AlternativesOf(similar, needed, FirstDay(suggestions))
  {
    alternatives := [];
    for i := 0 to |similar|
      invariant alternatives == AlternativesOf(similar[..i], needed, FirstDay(suggestions))
    {
      assert similar[..i + 1][..i] == similar[..i];
      var run := FirstRun(similar[i], needed);
      if run.Some? {
        RunsNonEmpty(similar[i].lookup.rows, needed);
        var day := RunDay(run.value);
        if suggestions == [] || day < suggestions[0].Day() {
          alternatives := alternatives + [Alternative(similar[i].equipment, day, run.value)];
        }
      }
    }
    assert similar[..|similar|] == similar;
  }

  method Suggest(lookup: Lookup, slotCount: int, usual: seq<int>, today: int,
                 withAlternatives: bool, similar: seq<Similar>)
    returns (a: Answer)
    ensures !lookup.ok ==> a == Answer([], [], false)
    ensures
      lookup.ok ==>
        var needed := Needed(slotCount);
        var runs := RunsOf(lookup.rows, needed);
        && (forall i :: 0 <= i < |runs| ==> runs[i] != [])
        && IsRanking(runs, usual, today, a.suggestions)
        && LeadsWithEarliest(a.suggestions, runs)
        && a.nothingFits == (a.suggestions == [])
        && a.alternatives ==
             if withAlternatives && (a.suggestions == [] || DayOf(a.suggestions[0].start) > today + 3)
             then AlternativesOf(similar, needed, FirstDay(a.suggestions)) else []
  {
    if !lookup.ok {
      return Answer([], [], false);
    }
    var needed := Needed(slotCount);
    var runs := RunsOf(lookup.rows, needed);
    RunsNonEmpty(lookup.rows, needed);
    var suggestions := RankRuns(runs, usual, today);
    RankingLeads(runs, usual, today, suggestions);
    var alternatives := [];
    if withAlternatives && TooLate(suggestions, today) {
      alternatives := FindAlternatives(similar, needed, suggestions);
    }
    a := Answer(suggestions, alternatives, suggestions == []);
  }

  /** At least one slot is asked for, and at most 24; no number asked for counts as one. */
  lemma NeededTable(slotCount: int)
    ensures slotCount <= 1 ==> Needed(slotCount) == 1
    ensures 1 <= slotCount <= 24 ==> Needed(slotCount) == slotCount
    ensures slotCount >= 24 ==> Needed(slotCount) == 24
  {
  }

  /** No similar instrument is forgotten: one whose slots are known and whose first run starts on a day before the first
      suggestion, or at any time when there is none, is listed with that run and its day. */
  lemma {:induction false} AlternativesComplete(
      similar: seq<Similar>, needed: nat, suggestions: seq<Suggestion>, i: nat)
    returns (k: nat)
    requires needed > 0 && i < |similar| && similar[i].lookup.ok && RunsOf(similar[i].lookup.rows, needed) != []
    requires
      var run := RunsOf(similar[i].lookup.rows, needed)[0];
      && run != [] && run[0].start.Some?
      && (suggestions == [] || DayOf(run[0].start.value) < DayOf(suggestions[0].start))
    ensures
      var run, found := RunsOf(similar[i].lookup.rows, needed)[0],
                        AlternativesOf(similar, needed, FirstDay(suggestions));
      k < |found| && found[k] == Alternative(similar[i].equipment, DayOf(run[0].start.value), run)
  {
    var n := |similar| - 1;
    if i < n {
      k := AlternativesComplete(similar[..n], needed, suggestions, i);
    } else {
      k := |AlternativesOf(similar[..n], needed, FirstDay(suggestions))|;
      NoRowsNoRuns(similar[i].lookup.rows, needed);
    }
  }

  lemma NoRowsNoRuns(rows: seq<Slot>, needed: nat)
    requires needed > 0
    ensures rows == [] ==> RunsOf(rows, needed) == []
  {
  }

  lemma RankingLeads(runs: seq<seq<Slot>>, usual: seq<int>, today: int, out: seq<Suggestion>)
    requires (forall i :: 0 <= i < |runs| ==> runs[i] != []) && IsRanking(runs, usual, today, out)
    ensures LeadsWithEarliest(out, runs)
  {
    var s := ScoredRuns(runs, usual, today);
    if s != [] {
      var picks, reasons :|
        && Ranking(s, usual, picks, reasons) && InRange(s, picks) && |reasons| == |picks|
        && out == SortBy(Suggested(s, picks, reasons), ByStart);
      forall i | 0 <= i < |runs| && Usable(runs[i])
        ensures out[0].start <= runs[i][0].start.value
      {
        FirstIsEarliest(runs, usual, today, picks, reasons, i);
      }
      FirstIsEarliest(runs, usual, today, picks, reasons, 0);
    } else {
      forall i | 0 <= i < |runs|
        ensures !Usable(runs[i])
      {
        if Usable(runs[i]) {
          var j := RunIsScored(runs, usual, today, i);
        }
      }
    }
  }

  /** Every alternative is the first run of a similar instrument, and its day comes before the day of every
      usable run of the instrument asked for. */
  lemma {:induction false} AlternativesAreEarlier(similar: seq<Similar>, needed: nat, suggestions: seq<Suggestion>,
                                                  runs: seq<seq<Slot>>, k: nat, i: nat)
    requires needed > 0 && LeadsWithEarliest(suggestions, runs)
    requires k < |AlternativesOf(similar, needed, FirstDay(suggestions))| && i < |runs| && Usable(runs[i])
    ensures
      var alt := AlternativesOf(similar, needed, FirstDay(suggestions))[k];
      && alt.day < DayOf(runs[i][0].start.value)
      && exists c :: c in similar && c.equipment == alt.equipment && FirstRun(c, needed) == Some(alt.run)
  {
    var n := |similar| - 1;
    var init := AlternativesOf(similar[..n], needed, FirstDay(suggestions));
    if k < |init| {
      AlternativesAreEarlier(similar[..n], needed, suggestions, runs, k, i);
    } else {
      assert similar[n] in similar;
      DayMonotone(suggestions[0].start, runs[i][0].start.value);
    }
  }
}
