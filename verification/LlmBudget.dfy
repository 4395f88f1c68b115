/** The daily cap on AI model calls (audit.py): a shared counter that is read and incremented in separate
    cache operations, by any number of workers at once. */
module LlmBudget {
  import opened Common

  /** Stands for the counter key `automation:llm_calls:<date>`. */
  type Day = nat

  function Count(m: map<Day, nat>, day: Day): nat {
    if day in m then m[day] else 0
  }

  /* ---- One worker ---------------------------------------------------------------------------------------------- */

  class Budget {
    var counters: map<Day, nat>

    /** A call is granted exactly below the cap, and counted exactly when it is granted. */
    method Consume(day: Day, limit: int) returns (granted: bool)
      modifies this
      ensures OneCall(old(counters), day, limit, granted, counters)
      ensures counters.Keys == old(counters.Keys) + if limit > 0 then {day} else {}
    {
      if limit <= 0 {
        return false;
      }
      if day !in counters {
        counters := counters[day := 0];
      }
      var current := counters[day];
      if current >= limit {
        return false;
      }
      counters := counters[day := counters[day] + 1];
      return true;
    }
  }

  ghost predicate OneCall(before: map<Day, nat>, day: Day, limit: int, granted: bool, after: map<Day, nat>) {
    && (granted <==> limit > 0 && Count(before, day) < limit)
    && Count(after, day) == Count(before, day) + (if granted then 1 else 0)
    && forall other: Day :: other != day ==> Count(after, other) == Count(before, other)
  }

  function GrantedIn(answers: seq<bool>): nat {
    if answers == [] then 0 else GrantedIn(answers[..|answers| - 1]) + if answers[|answers| - 1] then 1 else 0
  }

  /** One worker alone, calling over and over, is granted exactly min(k, limit) of k calls on a fresh day, and no other
      day's counter moves. */
  lemma {:induction false} SequentialGrants(caches: seq<map<Day, nat>>, answers: seq<bool>, day: Day, limit: int,
                                            other: Day)
    requires |caches| == |answers| + 1
    requires forall i :: 0 <= i < |answers| ==> OneCall(caches[i], day, limit, answers[i], caches[i + 1])
    ensures
      var k := |answers|;
      var c0 := Count(caches[0], day);
      && GrantedIn(answers) == Min(k, Max(0, limit - c0))
      && Count(caches[k], day) == c0 + GrantedIn(answers)
      && (other != day ==> Count(caches[k], other) == Count(caches[0], other))
  {
    if answers != [] {
      var n := |answers| - 1;
      SequentialGrants(caches[..n + 1], answers[..n], day, limit, other);
      assert OneCall(caches[n], day, limit, answers[n], caches[n + 1]);
    }
  }

  /* ---- Many workers -------------------------------------------------------------------------------------------- */

  datatype Worker =
    | Idle
    | Called(day: Day, limit: int)
    | Seeded(day: Day, limit: int)
    | Passed(day: Day)              // read a value below its limit, has yet to increment

  /** `lostReads` and `lostIncrements` count cache faults that the cache backend silences: a read that comes back empty,
      and an increment that is dropped although the call goes on. `lateRaises` counts increments that took effect
      although the call was told they failed, and so answered False. */
  datatype System = System(counters: map<Day, nat>, workers: seq<Worker>, granted: map<Day, nat>,
                           lostReads: map<Day, nat>, lostIncrements: map<Day, nat>, lateRaises: map<Day, nat>)

  datatype Event =
    | Call(w: nat, day: Day, limit: int)
    | Add(w: nat)
    | Get(w: nat)
    | Increment(w: nat)
    | Raise(w: nat)               // any cache operation raises: the call answers False
    | LoseAdd(w: nat)
    | LoseRead(w: nat)
    | LoseIncrement(w: nat)
    | RaiseLate(w: nat)           // the increment takes effect, and then raises

  function Bump(m: map<Day, nat>, day: Day): (r: map<Day, nat>)
    ensures forall d :: Count(r, d) == Count(m, d) + if d == day then 1 else 0
  {
    m[day := Count(m, day) + 1]
  }

  function Apply(s: System, e: Event): System {
    if e.w >= |s.workers| then s
    else
      var p := s.workers[e.w];
      match e
      case Call(w, day, limit) =>
        if p.Idle? && limit > 0 then s.(workers := s.workers[w := Called(day, limit)]) else s
      case Add(w) =>
        if p.Called? then
          s.(workers := s.workers[w := Seeded(p.day, p.limit)],
             counters := if p.day in s.counters then s.counters else s.counters[p.day := 0])
        else s
      case LoseAdd(w) =>
        if p.Called? then s.(workers := s.workers[w := Seeded(p.day, p.limit)]) else s
      case Get(w) =>
        if p.Seeded? then
          s.(workers := s.workers[w := if Count(s.counters, p.day) >= p.limit then Idle else Passed(p.day)])
        else s
      case LoseRead(w) =>
        if p.Seeded? then
          s.(workers := s.workers[w := Passed(p.day)], lostReads := Bump(s.lostReads, p.day))
        else s
      case Increment(w) =>
        if p.Passed? then
          if p.day in s.counters then
            s.(workers := s.workers[w := Idle], counters := Bump(s.counters, p.day), granted := Bump(s.granted, p.day))
          else s.(workers := s.workers[w := Idle])
        else s
      case LoseIncrement(w) =>
        if p.Passed? then
          s.(workers := s.workers[w := Idle], granted := Bump(s.granted, p.day),
             lostIncrements := Bump(s.lostIncrements, p.day))
        else s
      case RaiseLate(w) =>
        if p.Passed? && p.day in s.counters then
          s.(workers := s.workers[w := Idle], counters := Bump(s.counters, p.day),
             lateRaises := Bump(s.lateRaises, p.day))
        else s
      case Raise(w) => s.(workers := s.workers[w := Idle])
  }

  function Run(s: System, events: seq<Event>): System
    decreases |events|
  {
    if events == [] then s else Run(Apply(s, events[0]), events[1..])
  }

  function Start(workers: nat): System {
    System(map[], seq(workers, i => Idle), map[], map[], map[], map[])
  }

  /** Every call in the run asks for at most this limit. */
  predicate LimitsAtMost(events: seq<Event>, limit: nat) {
    forall e <- events :: e.Call? ==> e.limit <= limit
  }

  function PassedOn(workers: seq<Worker>, day: Day): nat {
    if workers == [] then 0
    else PassedOn(workers[..|workers| - 1], day) + if workers[|workers| - 1] == Passed(day) then 1 else 0
  }

  lemma {:induction false} PassedOnUpdate(workers: seq<Worker>, w: nat, p: Worker, day: Day)
    requires w < |workers|
    ensures PassedOn(workers[w := p], day)
         == PassedOn(workers, day) + (if p == Passed(day) then 1 else 0) - (if workers[w] == Passed(day) then 1 else 0)
  {
    var n := |workers| - 1;
    if w == n {
      assert workers[w := p][..n] == workers[..n];
    } else {
      PassedOnUpdate(workers[..n], w, p, day);
      assert workers[w := p][..n] == workers[..n][w := p];
    }
  }

  lemma {:induction false} PassedOnBound(workers: seq<Worker>, day: Day)
    ensures PassedOn(workers, day) <= |workers|
  {
    if workers != [] {
      PassedOnBound(workers[..|workers| - 1], day);
    }
  }

  /** Granted calls and counted increments agree but for the faults of either kind. */
  predicate GrantsCounted(s: System, day: Day) {
    Count(s.granted, day) + Count(s.lateRaises, day) == Count(s.counters, day) + Count(s.lostIncrements, day)
  }

  ghost predicate LimitsOk(s: System, limit: nat) {
    forall p <- s.workers :: p.Called? || p.Seeded? ==> 0 < p.limit <= limit
  }

  /** The bound is kept by the counter and the workers about to increment it, together. */
  ghost predicate Inv(s: System, limit: nat, day: Day) {
    && LimitsOk(s, limit)
    && GrantsCounted(s, day)
    && Count(s.counters, day) + PassedOn(s.workers, day) <= Max(0, limit + |s.workers| - 1) + Count(s.lostReads, day)
  }

  lemma LimitsKept(s: System, e: Event, limit: nat)
    requires LimitsOk(s, limit) && (e.Call? ==> e.limit <= limit)
    ensures LimitsOk(Apply(s, e), limit) && |Apply(s, e).workers| == |s.workers|
  {
    hide Bump;
    if e.w < |s.workers| {
      assert s.workers[e.w] in s.workers;
    }
  }

  lemma GrantsKept(s: System, e: Event, day: Day)
    requires GrantsCounted(s, day)
    ensures GrantsCounted(Apply(s, e), day)
  {
    hide Bump;
  }

  /** One step changes one worker. */
  lemma OneWorkerChanges(s: System, e: Event)
    requires e.w < |s.workers|
    ensures
      var s' := Apply(s, e);
      |s'.workers| == |s.workers| && s'.workers == s.workers[e.w := s'.workers[e.w]]
  {
    hide Bump;
  }

  /** The counter grows only when that worker leaves the Passed phase. */
  lemma CounterMoves(s: System, e: Event, day: Day)
    requires e.w < |s.workers| == |Apply(s, e).workers|
    ensures Count(Apply(s, e).counters, day) > Count(s.counters, day) ==>
              && s.workers[e.w] == Passed(day) && Apply(s, e).workers[e.w] != Passed(day)
              && Count(Apply(s, e).counters, day) == Count(s.counters, day) + 1
  {
    hide Bump;
  }

  /** A worker that enters the Passed phase has read a value below its limit, unless the read was lost. */
  lemma WorkerPasses(s: System, e: Event, limit: nat, day: Day)
    requires LimitsOk(s, limit) && e.w < |s.workers| == |Apply(s, e).workers|
    ensures Count(Apply(s, e).lostReads, day) >= Count(s.lostReads, day)
    ensures Apply(s, e).workers[e.w] == Passed(day) && s.workers[e.w] != Passed(day) ==>
              && Count(Apply(s, e).counters, day) == Count(s.counters, day)
              && (Count(s.counters, day) < limit || Count(Apply(s, e).lostReads, day) == Count(s.lostReads, day) + 1)
  {
    hide Bump;
    assert s.workers[e.w] in s.workers;
  }

  lemma BoundKept(s: System, e: Event, limit: nat, day: Day)
    requires Inv(s, limit, day)
    ensures
      var s' := Apply(s, e);
      Count(s'.counters, day) + PassedOn(s'.workers, day) <= Max(0, limit + |s.workers| - 1) + Count(s'.lostReads, day)
  {
    if e.w < |s.workers| {
      hide Apply;
      OneWorkerChanges(s, e);
      CounterMoves(s, e, day);
      WorkerPasses(s, e, limit, day);
      var s' := Apply(s, e);
      PassedOnUpdate(s.workers, e.w, s'.workers[e.w], day);
      PassedOnBound(s'.workers, day);
    }
  }

  lemma StepKeeps(s: System, e: Event, limit: nat, day: Day)
    requires Inv(s, limit, day) && (e.Call? ==> e.limit <= limit)
    ensures Inv(Apply(s, e), limit, day) && |Apply(s, e).workers| == |s.workers|
  {
    hide Apply, PassedOn;
    LimitsKept(s, e, limit);
    GrantsKept(s, e, day);
    BoundKept(s, e, limit, day);
  }

  lemma {:induction false} RunKeeps(s: System, events: seq<Event>, limit: nat, day: Day)
    requires Inv(s, limit, day) && LimitsAtMost(events, limit)
    ensures Inv(Run(s, events), limit, day) && |Run(s, events).workers| == |s.workers|
    decreases |events|
  {
    if events != [] {
      StepKeeps(s, events[0], limit, day);
      RunKeeps(Apply(s, events[0]), events[1..], limit, day);
    }
  }

  lemma {:induction false} NobodyPassed(n: nat, day: Day)
    ensures PassedOn(Start(n).workers, day) == 0
  {
    if n > 0 {
      NobodyPassed(n - 1, day);
      assert Start(n).workers[..n - 1] == Start(n - 1).workers;
    }
  }

  /** However N workers interleave, and whichever of their cache operations raise, late or not, or fail silently: the
      counter and the calls granted differ by exactly the faulty increments, and the calls granted are at most
      limit + N - 1 plus the faults that were silenced. */
  lemma DailyBound(n: nat, events: seq<Event>, limit: nat, day: Day)
    requires n > 0 && LimitsAtMost(events, limit)
    ensures
      var s := Run(Start(n), events);
      && Count(s.granted, day) + Count(s.lateRaises, day) == Count(s.counters, day) + Count(s.lostIncrements, day)
      && Count(s.counters, day) <= limit + n - 1 + Count(s.lostReads, day)
      && Count(s.granted, day) <= limit + n - 1 + Count(s.lostReads, day) + Count(s.lostIncrements, day)
  {
    NobodyPassed(n, day);
    RunKeeps(Start(n), events, limit, day);
  }

  predicate NoFault(e: Event) {
    !e.LoseRead? && !e.LoseIncrement? && !e.RaiseLate?
  }

  lemma NoFaultStep(s: System, e: Event)
    requires NoFault(e)
    ensures var s' := Apply(s, e);
            s'.lostReads == s.lostReads && s'.lostIncrements == s.lostIncrements && s'.lateRaises == s.lateRaises
  {
    hide Bump;
  }

  lemma {:induction false} NoFaultsCounted(s: System, events: seq<Event>)
    requires forall e <- events :: NoFault(e)
    ensures Run(s, events).lostReads == s.lostReads && Run(s, events).lostIncrements == s.lostIncrements
    ensures Run(s, events).lateRaises == s.lateRaises
    decreases |events|
  {
    if events != [] {
      hide Apply;
      assert NoFault(events[0]);
      NoFaultStep(s, events[0]);
      NoFaultsCounted(Apply(s, events[0]), events[1..]);
    }
  }

  /** With no silenced or late fault the counter is exactly the number of calls granted, and never above
      limit + N - 1. */
  lemma DailyBoundWithoutFaults(n: nat, events: seq<Event>, limit: nat, day: Day)
    requires n > 0 && LimitsAtMost(events, limit) && forall e <- events :: NoFault(e)
    ensures
      var s := Run(Start(n), events);
      Count(s.granted, day) == Count(s.counters, day) <= limit + n - 1
  {
    DailyBound(n, events, limit, day);
    NoFaultsCounted(Start(n), events);
  }

  /* ---- The bound is reached ------------------------------------------------------------------------------------ */

  function FullCalls(day: Day, limit: int, k: nat): seq<Event> {
    if k == 0 then [] else FullCalls(day, limit, k - 1) + [Call(0, day, limit), Add(0), Get(0), Increment(0)]
  }

  /** Workers 0..n-1 all read before any of them increments. */
  function ReadAll(day: Day, limit: int, n: nat): seq<Event> {
    if n == 0 then [] else ReadAll(day, limit, n - 1) + [Call(n - 1, day, limit), Add(n - 1), Get(n - 1)]
  }

  function IncrementAll(n: nat): seq<Event> {
    if n == 0 then [] else IncrementAll(n - 1) + [Increment(n - 1)]
  }

  lemma {:induction false} RunConcat(s: System, first: seq<Event>, second: seq<Event>)
    ensures Run(s, first + second) == Run(Run(s, first), second)
    decreases |first|
  {
    if first == [] {
      assert first + second == second;
    } else {
      assert (first + second)[1..] == first[1..] + second;
      RunConcat(Apply(s, first[0]), first[1..], second);
    }
  }

  lemma RunFour(s: System, a: seq<Event>, b: seq<Event>, c: seq<Event>, d: seq<Event>)
    ensures Run(s, a + b + c + d) == Run(Run(Run(Run(s, a), b), c), d)
  {
    RunConcat(s, a, b);
    RunConcat(s, a + b, c);
    RunConcat(s, a + b + c, d);
  }

  lemma RunOne(s: System, e: Event)
    ensures Run(s, [e]) == Apply(s, e)
  {
    assert [e][1..] == [];
    assert Run(Apply(s, e), []) == Apply(s, e);
  }

  /** The system on one day: the first `passed` of n workers have read, and the counter stands at c. */
  function OnDay(day: Day, n: nat, passed: nat, c: nat): System {
    System(map[day := c], seq(n, i => if i < passed then Passed(day) else Idle),
           if c == 0 then map[] else map[day := c], map[], map[], map[])
  }

  lemma ReadOne(day: Day, limit: int, n: nat, k: nat, c: nat)
    requires k < n && c < limit
    ensures Run(OnDay(day, n, k, c), [Call(k, day, limit), Add(k), Get(k)]) == OnDay(day, n, k + 1, c)
  {
    var s := OnDay(day, n, k, c);
    var a, b, d := Call(k, day, limit), Add(k), Get(k);
    RunOne(s, a);
    RunOne(Apply(s, a), b);
    RunOne(Apply(Apply(s, a), b), d);
    RunConcat(s, [a], [b]);
    RunConcat(s, [a, b], [d]);
    assert [a] + [b] == [a, b] && [a, b] + [d] == [a, b, d];
    assert Apply(Apply(Apply(s, a), b), d).workers == OnDay(day, n, k + 1, c).workers;
  }

  lemma {:induction false} ReadAllRun(day: Day, limit: int, n: nat, k: nat, c: nat)
    requires k <= n && c < limit
    ensures Run(OnDay(day, n, 0, c), ReadAll(day, limit, k)) == OnDay(day, n, k, c)
  {
    assert Run(OnDay(day, n, 0, c), []) == OnDay(day, n, 0, c);
    hide OnDay, Run, Apply;
    if k > 0 {
      ReadAllRun(day, limit, n, k - 1, c);
      ReadOne(day, limit, n, k - 1, c);
      RunConcat(OnDay(day, n, 0, c), ReadAll(day, limit, k - 1), [Call(k - 1, day, limit), Add(k - 1), Get(k - 1)]);
    }
  }

  lemma IncrementOne(s: System, day: Day, w: nat, c: nat)
    requires w < |s.workers| && s.workers[w] == Passed(day)
    requires s.counters == map[day := c] && Count(s.granted, day) == c
    ensures var s' := Apply(s, Increment(w));
            && s'.counters == map[day := c + 1] && Count(s'.granted, day) == c + 1
            && s'.workers == s.workers[w := Idle]
  {
  }

  lemma {:induction false} IncrementAllRun(day: Day, n: nat, k: nat, c: nat)
    requires k <= n
    ensures
      var s := Run(OnDay(day, n, n, c), IncrementAll(k));
      && s.counters == map[day := c + k] && Count(s.granted, day) == c + k
      && |s.workers| == n && (forall i :: k <= i < n ==> s.workers[i] == Passed(day))
  {
    assert Run(OnDay(day, n, n, c), []) == OnDay(day, n, n, c);
    hide OnDay, Run, Apply;
    if k > 0 {
      IncrementAllRun(day, n, k - 1, c);
      var s := Run(OnDay(day, n, n, c), IncrementAll(k - 1));
      RunConcat(OnDay(day, n, n, c), IncrementAll(k - 1), [Increment(k - 1)]);
      RunOne(s, Increment(k - 1));
      IncrementOne(s, day, k - 1, c + k - 1);
    }
  }

  lemma FullCall(day: Day, limit: int, n: nat, c: nat)
    requires n > 0 && c < limit
    ensures Run(OnDay(day, n, 0, c), [Call(0, day, limit), Add(0), Get(0), Increment(0)]) == OnDay(day, n, 0, c + 1)
  {
    var s := OnDay(day, n, 0, c);
    ReadOne(day, limit, n, 0, c);
    RunConcat(s, [Call(0, day, limit), Add(0), Get(0)], [Increment(0)]);
    RunOne(OnDay(day, n, 1, c), Increment(0));
    assert Apply(OnDay(day, n, 1, c), Increment(0)).workers == s.workers;
    assert [Call(0, day, limit), Add(0), Get(0)] + [Increment(0)]
        == [Call(0, day, limit), Add(0), Get(0), Increment(0)];
  }

  lemma {:induction false} FullCallsRun(day: Day, limit: int, n: nat, k: nat)
    requires n > 0 && k <= limit
    ensures Run(OnDay(day, n, 0, 0), FullCalls(day, limit, k)) == OnDay(day, n, 0, k)
  {
    if k > 0 {
      FullCallsRun(day, limit, n, k - 1);
      FullCall(day, limit, n, k - 1);
      RunConcat(OnDay(day, n, 0, 0), FullCalls(day, limit, k - 1), [Call(0, day, limit), Add(0), Get(0), Increment(0)]);
    }
  }

  function OpeningCall(day: Day, limit: int): seq<Event> {
    [Call(0, day, limit), Add(0), Raise(0)]
  }

  /** The first call of the day seeds the counter and then fails. */
  lemma OpenDay(day: Day, limit: nat, n: nat)
    requires n > 0 && limit > 0
    ensures Run(Start(n), OpeningCall(day, limit)) == OnDay(day, n, 0, 0)
  {
    var s := Start(n);
    var a, b, c := Call(0, day, limit), Add(0), Raise(0);
    RunOne(s, a);
    RunOne(Apply(s, a), b);
    RunOne(Apply(Apply(s, a), b), c);
    RunConcat(s, [a], [b]);
    RunConcat(s, [a, b], [c]);
    assert [a] + [b] == [a, b] && [a, b] + [c] == [a, b, c];
    assert Apply(Apply(Apply(s, a), b), c).workers == OnDay(day, n, 0, 0).workers;
  }

  /** The bound cannot be lowered: limit - 1 plain calls, then N workers that all read before any increments,
      are granted limit + N - 1 calls, although every one of them checked the cap and no fault is silenced. */
  lemma BoundIsReached(day: Day, limit: nat, n: nat)
    requires n > 0 && limit > 0
    ensures
      var events := OpeningCall(day, limit) + FullCalls(day, limit, limit - 1)
                    + ReadAll(day, limit, n) + IncrementAll(n);
      Count(Run(Start(n), events).granted, day) == limit + n - 1
  {
    hide Run, OnDay, OpeningCall, FullCalls, ReadAll, IncrementAll;
    OpenDay(day, limit, n);
    FullCallsRun(day, limit, n, limit - 1);
    ReadAllRun(day, limit, n, n, limit - 1);
    IncrementAllRun(day, n, n, limit - 1);
    RunFour(Start(n), OpeningCall(day, limit), FullCalls(day, limit, limit - 1), ReadAll(day, limit, n),
            IncrementAll(n));
  }
}
