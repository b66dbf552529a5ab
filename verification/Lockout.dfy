/** Account lockout (internal/password/lockout.go): a pruned list of failure times and one lock time
    stand in for the whole history of an account. Times and durations are nanoseconds. */
module Lockout {
  type Time = int

  /** Go's zero time, which stands for "never locked". */
  const NEVER: Time := 0

  datatype Settings = Settings(maxFailures: int, lockoutDuration: int, failureWindow: int)

  datatype State = State(failureTimes: seq<Time>, lockedTime: Time)

  datatype Event = Failure(time: Time) | Success | Unlock

  // ------------------------------------------------------------- what the code keeps

  /** pruneFailuresBeforeLocked: drop from the front while before the cutoff. */
  function Pruned(ts: seq<Time>, cutoff: Time): seq<Time> {
    if ts != [] && ts[0] < cutoff then Pruned(ts[1..], cutoff) else ts
  }

  function Step(c: Settings, s: State, e: Event): State {
    match e
    case Failure(now) =>
      var ts := s.failureTimes + [now];
      var kept := if c.failureWindow > 0 then Pruned(ts, now - c.failureWindow) else ts;
      State(kept, if c.maxFailures > 0 && |kept| >= c.maxFailures then now else s.lockedTime)
    case Success => s.(failureTimes := [])
    case Unlock => State([], NEVER)
  }

  function Run(c: Settings, h: seq<Event>): State {
    if h == [] then State([], NEVER) else Step(c, Run(c, h[..|h| - 1]), h[|h| - 1])
  }

  predicate IsLocked(c: Settings, s: State, now: Time) {
    s.lockedTime != NEVER && (c.lockoutDuration == 0 || now - s.lockedTime < c.lockoutDuration)
  }

  // --------------------------------------------------------- what the history says

  /** The times not before the cutoff, wherever they are in the list. */
  function From(ts: seq<Time>, cutoff: Time): seq<Time> {
    if ts == [] then []
    else From(ts[..|ts| - 1], cutoff) + if ts[|ts| - 1] >= cutoff then [ts[|ts| - 1]] else []
  }

  /** The failures since the last success or unlock. */
  function Recent(h: seq<Event>): seq<Time> {
    if h == [] then []
    else
      match h[|h| - 1]
      case Failure(t) => Recent(h[..|h| - 1]) + [t]
      case Success => []
      case Unlock => []
  }

  /** Those of them that count at a failure at time now. */
  function Counting(c: Settings, ts: seq<Time>, now: Time): seq<Time> {
    if c.failureWindow > 0 then From(ts, now - c.failureWindow) else ts
  }

  /** Event i is a failure with which enough failures count. */
  predicate Triggers(c: Settings, h: seq<Event>, i: nat)
    requires i < |h|
  {
    && h[i].Failure? && c.maxFailures > 0
    && |Counting(c, Recent(h[..i + 1]), h[i].time)| >= c.maxFailures
  }

  /** i is the latest failure to reach the threshold since the last unlock. */
  ghost predicate LatestTrigger(c: Settings, h: seq<Event>, i: int) {
    && 0 <= i < |h| && Triggers(c, h, i)
    && forall j :: i < j < |h| ==> h[j] != Unlock && !Triggers(c, h, j)
  }

  /** Failures are recorded with times that do not go back. */
  ghost predicate Monotone(h: seq<Event>) {
    forall i, j :: 0 <= i < j < |h| && h[i].Failure? && h[j].Failure? ==> h[i].time <= h[j].time
  }

  // ------------------------------------------------------------------- refinement

  lemma {:induction false} FromCons(ts: seq<Time>, cutoff: Time)
    requires ts != []
    ensures From(ts, cutoff) == (if ts[0] >= cutoff then [ts[0]] else []) + From(ts[1..], cutoff)
    decreases |ts|
  {
    if |ts| > 1 {
      assert ts[..|ts| - 1][1..] == ts[1..][..|ts| - 2];
      FromCons(ts[..|ts| - 1], cutoff);
    }
  }

  lemma {:induction false} FromAll(ts: seq<Time>, cutoff: Time)
    ensures From(ts, cutoff) == ts <==> forall i :: 0 <= i < |ts| ==> ts[i] >= cutoff
    ensures |From(ts, cutoff)| <= |ts|
  {
    if ts != [] {
      FromAll(ts[..|ts| - 1], cutoff);
      assert ts == ts[..|ts| - 1] + [ts[|ts| - 1]];
      if From(ts, cutoff) == ts {
        assert |From(ts[..|ts| - 1], cutoff)| <= |ts| - 1;
      }
    }
  }

  /** Old times never come after newer ones, as far as the cutoff can tell. */
  ghost predicate OldFirst(ts: seq<Time>, cutoff: Time) {
    forall i, j :: 0 <= i < j < |ts| && ts[j] < cutoff ==> ts[i] < cutoff
  }

  /** Dropping from the front leaves what the window covers, exactly when no old time hides behind a
      newer one. */
  lemma {:induction false} PruneExact(ts: seq<Time>, cutoff: Time)
    ensures Pruned(ts, cutoff) == From(ts, cutoff) <==> OldFirst(ts, cutoff)
    decreases |ts|
  {
    if ts != [] {
      FromCons(ts, cutoff);
      if ts[0] < cutoff {
        PruneExact(ts[1..], cutoff);
        assert OldFirst(ts[1..], cutoff) <==> OldFirst(ts, cutoff) by {
          assert forall i :: 0 < i < |ts| ==> ts[i] == ts[1..][i - 1];
          assert forall i :: 0 <= i < |ts| - 1 ==> ts[1..][i] == ts[i + 1];
        }
      } else {
        FromAll(ts, cutoff);
      }
    }
  }

  /** No time before a lies at or after b. */
  ghost predicate NoneReturns(ts: seq<Time>, a: Time, b: Time) {
    forall k :: 0 <= k < |ts| && ts[k] < a ==> ts[k] < b
  }

  /** A second cutoff sees all it should of what a first one left, exactly when nothing the first dropped
      lies beyond the second. */
  lemma {:induction false} FromTwice(ts: seq<Time>, a: Time, b: Time)
    ensures |From(From(ts, a), b)| <= |From(ts, b)|
    ensures From(From(ts, a), b) == From(ts, b) <==> NoneReturns(ts, a, b)
  {
    if ts != [] {
      var init, last := ts[..|ts| - 1], ts[|ts| - 1];
      assert ts == init + [last];
      FromTwice(init, a, b);
      NoneReturnsSnoc(init, last, a, b);
      FromSnoc(init, last, a);
      FromSnoc(init, last, b);
      assert From(init, a) + [] == From(init, a) && From(init, b) + [] == From(init, b);
      assert From(From(init, a), b) + [] == From(From(init, a), b);
      if last >= a {
        FromSnoc(From(init, a), last, b);
        if last >= b { SameLast(From(From(init, a), b), From(init, b), last); }
      }
    }
  }

  lemma NoneReturnsSnoc(ts: seq<Time>, t: Time, a: Time, b: Time)
    ensures NoneReturns(ts + [t], a, b) <==> NoneReturns(ts, a, b) && (t < a ==> t < b)
  {
    assert (ts + [t])[|ts|] == t;
    assert forall k :: 0 <= k < |ts| ==> (ts + [t])[k] == ts[k];
  }

  lemma SameLast(x: seq<Time>, y: seq<Time>, t: Time)
    ensures x + [t] == y + [t] <==> x == y
  {
    if x + [t] == y + [t] {
      assert x == (x + [t])[..|x|] && y == (y + [t])[..|y|];
    }
  }

  /** What is dropped from the front is before the cutoff. */
  lemma {:induction false} PrunedFrom(ts: seq<Time>, cutoff: Time)
    ensures From(Pruned(ts, cutoff), cutoff) == From(ts, cutoff)
    decreases |ts|
  {
    if ts != [] && ts[0] < cutoff {
      FromCons(ts, cutoff);
      PrunedFrom(ts[1..], cutoff);
    }
  }

  /** Every failure that is kept was recorded. */
  lemma {:induction false} RecentTimes(h: seq<Event>, k: nat)
    requires k < |Recent(h)|
    ensures Failure(Recent(h)[k]) in h
  {
    var init := h[..|h| - 1];
    assert forall e :: e in init ==> e in h;
    if k < |Recent(init)| && h[|h| - 1].Failure? {
      RecentTimes(init, k);
    }
  }

  predicate Sorted(ts: seq<Time>) {
    forall i, j :: 0 <= i < j < |ts| ==> ts[i] <= ts[j]
  }

  predicate AtMost(ts: seq<Time>, now: Time) {
    forall k :: 0 <= k < |ts| ==> ts[k] <= now
  }

  lemma SortedSnoc(ts: seq<Time>, now: Time)
    requires Sorted(ts) && AtMost(ts, now)
    ensures Sorted(ts + [now])
  {
  }

  /** A failure is no earlier than those before it. */
  lemma NowIsLatest(h: seq<Event>, now: Time)
    requires Monotone(h + [Failure(now)])
    ensures Monotone(h) && AtMost(Recent(h), now)
  {
    hide Recent;
    var all := h + [Failure(now)];
    assert forall i :: 0 <= i < |h| ==> all[i] == h[i];
    forall k | 0 <= k < |Recent(h)|
      ensures Recent(h)[k] <= now
    {
      RecentTimes(h, k);
      var i :| 0 <= i < |h| && h[i] == Failure(Recent(h)[k]);
      assert all[i].time <= all[|h|].time;
    }
  }

  lemma {:induction false} RecentSorted(h: seq<Event>)
    requires Monotone(h)
    ensures Sorted(Recent(h))
  {
    hide Sorted, AtMost, Monotone;
    NothingSorted();
    if h != [] && h[|h| - 1].Failure? {
      var n := |h| - 1;
      assert h[..n] + [Failure(h[n].time)] == h;
      NowIsLatest(h[..n], h[n].time);
      RecentSorted(h[..n]);
      SortedSnoc(Recent(h[..n]), h[n].time);
    }
  }

  lemma NothingSorted()
    ensures Sorted([]) && forall now :: AtMost([], now)
  {
  }

  lemma {:induction false} FromAtMost(ts: seq<Time>, cutoff: Time, now: Time)
    requires AtMost(ts, now)
    ensures AtMost(From(ts, cutoff), now)
  {
    if ts != [] { FromAtMost(ts[..|ts| - 1], cutoff, now); }
  }

  lemma {:induction false} FromSorted(ts: seq<Time>, cutoff: Time)
    requires Sorted(ts)
    ensures Sorted(From(ts, cutoff))
  {
    if ts != [] {
      var init, last := ts[..|ts| - 1], ts[|ts| - 1];
      FromSorted(init, cutoff);
      assert AtMost(init, last);
      FromAtMost(init, cutoff, last);
      SortedSnoc(From(init, cutoff), last);
    }
  }

  /** The time of the latest failure since the last success or unlock. */
  function Latest(h: seq<Event>): Time
    requires Recent(h) != []
  {
    Recent(h)[|Recent(h)| - 1]
  }

  /** What the list should hold: the recent failures inside the window of the latest of them. */
  function Expected(c: Settings, h: seq<Event>): seq<Time> {
    if Recent(h) == [] then [] else Counting(c, Recent(h), Latest(h))
  }

  lemma ExpectedNone(c: Settings, h: seq<Event>)
    requires Recent(h) == []
    ensures Expected(c, h) == []
  {
  }

  /** At a failure after h: no old time hides behind a newer one in the list, and none that the window of
      the last failure left out lies in the new one. */
  ghost predicate StepOk(c: Settings, h: seq<Event>, now: Time) {
    && OldFirst(Expected(c, h) + [now], now - c.failureWindow)
    && (Recent(h) != [] ==> NoneReturns(Recent(h), Latest(h) - c.failureWindow, now - c.failureWindow))
  }

  /** One prune of the expected list gives the next expected list exactly under these two conditions. */
  lemma PruneStep(c: Settings, h: seq<Event>, now: Time)
    requires c.failureWindow > 0
    ensures var cutoff := now - c.failureWindow;
            Pruned(Expected(c, h) + [now], cutoff) == From(Recent(h) + [now], cutoff) <==> StepOk(c, h, now)
  {
    hide Recent, From, Pruned, OldFirst, NoneReturns;
    var cutoff := now - c.failureWindow;
    var ts, kept := Recent(h), Expected(c, h);
    var x, z := kept + [now], ts + [now];
    PruneExact(x, cutoff);
    FromSnoc(kept, now, cutoff);
    FromSnoc(ts, now, cutoff);
    SameLast(From(kept, cutoff), From(ts, cutoff), now);
    if ts != [] { FromTwice(ts, Latest(h) - c.failureWindow, cutoff); }
    if Pruned(x, cutoff) == From(z, cutoff) {
      PrunedFrom(x, cutoff);
      FromAgain(z, cutoff);
    }
  }

  lemma FromAgain(ts: seq<Time>, cutoff: Time)
    ensures From(From(ts, cutoff), cutoff) == From(ts, cutoff)
  {
    FromTwice(ts, cutoff, cutoff);
  }

  /** The expected list after one more failure. */
  lemma ExpectedFailure(c: Settings, h: seq<Event>, now: Time)
    ensures Expected(c, h + [Failure(now)]) ==
            if c.failureWindow > 0 then From(Recent(h) + [now], now - c.failureWindow) else Recent(h) + [now]
    ensures c.failureWindow <= 0 ==> Expected(c, h) == Recent(h)
  {
    hide From, Recent;
    RunSnoc(c, h, now);
    assert Latest(h + [Failure(now)]) == now;
  }

  /** After every event the list is the recent failures inside the window of the latest one. */
  ghost predicate Faithful(c: Settings, h: seq<Event>) {
    forall k :: 0 <= k <= |h| ==> ListOk(c, h[..k])
  }

  predicate ListOk(c: Settings, h: seq<Event>) { Run(c, h).failureTimes == Expected(c, h) }

  /** The two conditions hold at every failure, if there is a window at all. */
  ghost predicate Regular(c: Settings, h: seq<Event>) {
    c.failureWindow > 0 ==> forall k :: 0 <= k < |h| && h[k].Failure? ==> StepOk(c, h[..k], h[k].time)
  }

  lemma FaithfulStep(c: Settings, h: seq<Event>)
    requires h != []
    ensures Faithful(c, h) <==> Faithful(c, h[..|h| - 1]) && ListOk(c, h)
  {
    hide ListOk;
    var init := h[..|h| - 1];
    assert h[..|h|] == h;
    assert forall k :: 0 <= k <= |init| ==> init[..k] == h[..k];
    if Faithful(c, init) && ListOk(c, h) {
      forall k | 0 <= k <= |h| ensures ListOk(c, h[..k]) {
        if k < |h| { assert ListOk(c, init[..k]); }
      }
    }
    if Faithful(c, h) {
      assert ListOk(c, h[..|h|]);
      forall k | 0 <= k <= |init| ensures ListOk(c, init[..k]) { assert ListOk(c, h[..k]); }
    }
  }

  lemma RegularStep(c: Settings, h: seq<Event>)
    requires h != []
    ensures var n := |h| - 1;
            Regular(c, h) <==>
            Regular(c, h[..n]) && (c.failureWindow > 0 && h[n].Failure? ==> StepOk(c, h[..n], h[n].time))
  {
    hide StepOk;
    var init := h[..|h| - 1];
    assert forall k :: 0 <= k < |init| ==> init[k] == h[k] && init[..k] == h[..k];
  }

  /** What one event does to the list, given that it was right before. */
  lemma ListStep(c: Settings, h: seq<Event>)
    requires h != [] && ListOk(c, h[..|h| - 1])
    ensures var n := |h| - 1;
            ListOk(c, h) <==> (c.failureWindow > 0 && h[n].Failure? ==> StepOk(c, h[..n], h[n].time))
  {
    hide From, Pruned, Expected, StepOk;
    var n := |h| - 1;
    match h[n] {
      case Failure(now) =>
        assert h[..n] + [Failure(now)] == h;
        ExpectedFailure(c, h[..n], now);
        if c.failureWindow > 0 { PruneStep(c, h[..n], now); }
      case Success => ExpectedNone(c, h);
      case Unlock => ExpectedNone(c, h);
    }
  }

  /** Exactly when the pruned list can be trusted: on any history, the list is the recent failures inside
      the window of the latest one after every event, if and only if at every failure no old time hides
      behind a newer one and no failure that had left the window lies in the new one. */
  lemma {:induction false} ListExact(c: Settings, h: seq<Event>)
    ensures Faithful(c, h) <==> Regular(c, h)
  {
    hide Faithful, Regular, ListOk, StepOk;
    if h == [] {
      EmptyHistory(c);
    } else {
      ListExact(c, h[..|h| - 1]);
      FaithfulStep(c, h);
      RegularStep(c, h);
      if Faithful(c, h[..|h| - 1]) {
        FaithfulNow(c, h[..|h| - 1]);
        ListStep(c, h);
      }
    }
  }

  lemma EmptyHistory(c: Settings)
    ensures Faithful(c, []) && Regular(c, [])
  {
    var none: seq<Event> := [];
    assert none[..0] == none;
  }

  lemma FaithfulNow(c: Settings, h: seq<Event>)
    requires Faithful(c, h)
    ensures ListOk(c, h)
  {
    assert h[..|h|] == h && ListOk(c, h[..|h|]);
  }

  lemma RegularInit(c: Settings, h: seq<Event>)
    requires Regular(c, h) && h != []
    ensures Regular(c, h[..|h| - 1])
  {
    hide Regular;
    RegularStep(c, h);
  }

  /** A clock that does not go back is enough. */
  lemma {:induction false} MonotoneRegular(c: Settings, h: seq<Event>)
    requires Monotone(h)
    ensures Regular(c, h)
    decreases |h|
  {
    hide Regular, StepOk, Monotone;
    if h == [] {
      EmptyHistory(c);
    } else {
      var n := |h| - 1;
      MonotoneInit(h);
      MonotoneRegular(c, h[..n]);
      RegularStep(c, h);
      if h[n].Failure? && c.failureWindow > 0 {
        assert h[..n] + [Failure(h[n].time)] == h;
        MonotoneStep(c, h[..n], h[n].time);
      }
    }
  }

  /** So with a clock that does not go back the pruned list is always right. */
  lemma ListRefines(c: Settings, h: seq<Event>)
    requires Monotone(h)
    ensures Run(c, h).failureTimes == Expected(c, h)
  {
    hide Run, Expected, Faithful, Regular, Monotone;
    MonotoneRegular(c, h);
    ListExact(c, h);
    FaithfulNow(c, h);
  }

  lemma MonotoneInit(h: seq<Event>)
    requires Monotone(h) && h != []
    ensures Monotone(h[..|h| - 1])
  {
  }

  lemma ExpectedSorted(c: Settings, h: seq<Event>, now: Time)
    requires Monotone(h) && AtMost(Recent(h), now)
    ensures Sorted(Expected(c, h)) && AtMost(Expected(c, h), now)
  {
    hide Recent, From, Monotone, Sorted, AtMost;
    RecentSorted(h);
    NothingSorted();
    if Recent(h) != [] {
      FromSorted(Recent(h), Latest(h) - c.failureWindow);
      FromAtMost(Recent(h), Latest(h) - c.failureWindow, now);
    }
  }

  lemma SortedOldFirst(ts: seq<Time>, cutoff: Time)
    requires Sorted(ts)
    ensures OldFirst(ts, cutoff)
  {
  }

  lemma LatestAtMost(h: seq<Event>, now: Time)
    requires Recent(h) != [] && AtMost(Recent(h), now)
    ensures Latest(h) <= now
  {
  }

  lemma FromSnoc(ts: seq<Time>, t: Time, cutoff: Time)
    ensures From(ts + [t], cutoff) == From(ts, cutoff) + if t >= cutoff then [t] else []
  {
    assert (ts + [t])[..|ts|] == ts;
  }

  lemma MonotoneStep(c: Settings, h: seq<Event>, now: Time)
    requires Monotone(h + [Failure(now)]) && c.failureWindow > 0
    ensures StepOk(c, h, now)
  {
    hide Recent, Monotone, Sorted, OldFirst, AtMost, Expected;
    NowIsLatest(h, now);
    ExpectedSorted(c, h, now);
    SortedSnoc(Expected(c, h), now);
    SortedOldFirst(Expected(c, h) + [now], now - c.failureWindow);
    if Recent(h) != [] { LatestAtMost(h, now); }
  }

  /** The last event decides who is the latest trigger. */
  lemma LatestStep(c: Settings, h: seq<Event>, i: int)
    requires h != []
    ensures var n := |h| - 1;
            LatestTrigger(c, h, i) <==>
            if Triggers(c, h, n) then i == n else h[n] != Unlock && LatestTrigger(c, h[..n], i)
  {
    hide Triggers;
    TriggersPrefix(c, h);
  }

  /** The lock time is that of the latest failure to reach the threshold since the last unlock. */
  lemma {:induction false} LockRefines(c: Settings, h: seq<Event>, i: int)
    requires Regular(c, h) && LatestTrigger(c, h, i)
    ensures h[i].Failure? && Run(c, h).lockedTime == h[i].time
    decreases |h|
  {
    hide Recent, From, Run, Regular;
    var n := |h| - 1;
    LatestStep(c, h, i);
    LastFailure(c, h);
    if !Triggers(c, h, n) {
      LockRefines(c, h[..n], i);
    }
  }

  /** The code's test at a failure is whether that failure triggers. */
  lemma LastFailure(c: Settings, h: seq<Event>)
    requires Regular(c, h) && h != []
    ensures var n := |h| - 1;
            && Regular(c, h[..n])
            && Run(c, h).lockedTime ==
               if Triggers(c, h, n) then h[n].time
               else if h[n] == Unlock then NEVER else Run(c, h[..n]).lockedTime
  {
    hide From, Regular, Faithful;
    var n := |h| - 1;
    assert h[..n + 1] == h;
    RegularInit(c, h);
    ListExact(c, h);
    FaithfulNow(c, h);
  }

  /** With no trigger since the last unlock there is no lock time. */
  lemma {:induction false} NeverRefines(c: Settings, h: seq<Event>)
    requires Regular(c, h) && Run(c, h).lockedTime != NEVER
    ensures exists i :: LatestTrigger(c, h, i)
    decreases |h|
  {
    hide Recent, From, LatestTrigger, Regular;
    var n := |h| - 1;
    LastFailure(c, h);
    if Triggers(c, h, n) {
      LatestStep(c, h, n);
    } else {
      NeverRefines(c, h[..n]);
      var i :| LatestTrigger(c, h[..n], i);
      LatestStep(c, h, i);
    }
  }

  lemma TriggersPrefix(c: Settings, h: seq<Event>)
    requires h != []
    ensures forall i :: 0 <= i < |h| - 1 ==> Triggers(c, h, i) == Triggers(c, h[..|h| - 1], i)
  {
    forall i | 0 <= i < |h| - 1
      ensures Triggers(c, h, i) == Triggers(c, h[..|h| - 1], i)
    {
      assert h[..|h| - 1][..i + 1] == h[..i + 1];
    }
  }

  /** The latest threshold-reaching failure since the last unlock, if there is one that is not at the zero
      time, is within the lockout duration, or locks are permanent. */
  ghost predicate ShouldBeLocked(c: Settings, h: seq<Event>, now: Time) {
    exists i :: LatestTrigger(c, h, i) && h[i].Failure? && h[i].time != NEVER &&
                (c.lockoutDuration == 0 || now - h[i].time < c.lockoutDuration)
  }

  /** The sliding window refines the full history: wherever the list can be trusted, and so with any clock
      that does not go back, an account is locked exactly when the history says it should be. */
  lemma LockedByHistory(c: Settings, h: seq<Event>, now: Time)
    requires Regular(c, h)
    ensures IsLocked(c, Run(c, h), now) <==> ShouldBeLocked(c, h, now)
  {
    hide Recent, From, Run, Regular, LatestTrigger;
    forall i | LatestTrigger(c, h, i)
      ensures 0 <= i < |h| && h[i].Failure? && Run(c, h).lockedTime == h[i].time
    {
      TriggerIndex(c, h, i);
      LockRefines(c, h, i);
    }
    if Run(c, h).lockedTime != NEVER {
      NeverRefines(c, h);
    }
  }

  lemma TriggerIndex(c: Settings, h: seq<Event>, i: int)
    requires LatestTrigger(c, h, i)
    ensures 0 <= i < |h|
  {
  }

  lemma RunSnoc(c: Settings, h: seq<Event>, now: Time)
    ensures Run(c, h + [Failure(now)]) == Step(c, Run(c, h), Failure(now))
    ensures Recent(h + [Failure(now)]) == Recent(h) + [now]
  {
    assert (h + [Failure(now)])[..|h|] == h;
  }

  const THREE_IN_FIVE := Settings(3, 0, 5)
  const CLOCK_BACK := [Failure(10), Failure(1), Failure(11)]

  lemma ClockBackRun()
    ensures Run(THREE_IN_FIVE, CLOCK_BACK) == State([10, 1, 11], 11)
    ensures Recent(CLOCK_BACK[..1]) == [10] && Recent(CLOCK_BACK[..2]) == [10, 1]
    ensures Recent(CLOCK_BACK[..3]) == Recent(CLOCK_BACK) == [10, 1, 11]
  {
    hide Run, Recent;
    var c, h := THREE_IN_FIVE, CLOCK_BACK;
    assert h[..1] == [] + [Failure(10)] && h[..2] == h[..1] + [Failure(1)] && h[..3] == h == h[..2] + [Failure(11)];
    NoEvents(c);
    RunSnoc(c, [], 10);
    RunSnoc(c, h[..1], 1);
    RunSnoc(c, h[..2], 11);
  }

  lemma ClockBackWindows()
    ensures |From([10], 5)| <= 1 && |From([10, 1], -4)| <= 2 && From([10, 1, 11], 6) == [10, 11]
  {
    hide From;
    FromAll([10], 5);
    FromAll([10, 1], -4);
    FromAll([], 6);
    FromSnoc([], 10, 6);
    FromSnoc([10], 1, 6);
    FromSnoc([10, 1], 11, 6);
    assert [] + [10] == [10] && [10] + [1] == [10, 1] && [10, 1] + [11] == [10, 1, 11];
  }

  /** A clock that goes back breaks it: 1 is counted at 11 though the window is 5, because 10 stands
      in front of it, and three failures lock where only two count. */
  lemma ClockGoingBack()
    ensures Run(THREE_IN_FIVE, CLOCK_BACK).failureTimes == [10, 1, 11]
    ensures Expected(THREE_IN_FIVE, CLOCK_BACK) == [10, 11]
    ensures IsLocked(THREE_IN_FIVE, Run(THREE_IN_FIVE, CLOCK_BACK), 12)
    ensures forall i :: !LatestTrigger(THREE_IN_FIVE, CLOCK_BACK, i)
  {
    hide Run, Recent, From;
    ClockBackRun();
    ClockBackWindows();
  }

  const CLOCK_BACK_INSIDE := [Failure(10), Failure(20), Failure(12)]

  lemma BackInsideRun()
    ensures Run(THREE_IN_FIVE, CLOCK_BACK_INSIDE) == State([20, 12], NEVER)
    ensures Recent(CLOCK_BACK_INSIDE[..3]) == Recent(CLOCK_BACK_INSIDE) == [10, 20, 12]
    ensures Recent(CLOCK_BACK_INSIDE[..2]) == [10, 20] && Recent(CLOCK_BACK_INSIDE[..1]) == [10]
  {
    hide Run, Recent;
    var c, h := THREE_IN_FIVE, CLOCK_BACK_INSIDE;
    assert h[..1] == [] + [Failure(10)] && h[..2] == h[..1] + [Failure(20)] && h[..3] == h == h[..2] + [Failure(12)];
    NoEvents(c);
    RunSnoc(c, [], 10);
    RunSnoc(c, h[..1], 20);
    assert Pruned([10, 20], 15) == [20] by { assert [10, 20][1..] == [20]; }
    assert Run(c, h[..2]) == State([20], NEVER) by { assert [10] + [20] == [10, 20]; }
    RunSnoc(c, h[..2], 12);
    assert [20] + [12] == [20, 12];
  }

  /** The opposite error: 10 has left the window of 20 but lies in that of 12, and no old time hides behind
      a newer one. Three failures count at 12 and the account is not locked. */
  lemma ClockGoingBackInside()
    ensures Run(THREE_IN_FIVE, CLOCK_BACK_INSIDE).failureTimes == [20, 12]
    ensures Expected(THREE_IN_FIVE, CLOCK_BACK_INSIDE) == [10, 20, 12]
    ensures forall now :: !IsLocked(THREE_IN_FIVE, Run(THREE_IN_FIVE, CLOCK_BACK_INSIDE), now)
    ensures LatestTrigger(THREE_IN_FIVE, CLOCK_BACK_INSIDE, 2)
    ensures forall k :: 0 <= k < 3 ==>
              OldFirst(Expected(THREE_IN_FIVE, CLOCK_BACK_INSIDE[..k]) + [CLOCK_BACK_INSIDE[k].time],
                       CLOCK_BACK_INSIDE[k].time - 5)
  {
    hide Run, Recent, From;
    BackInsideRun();
    FromAll([10, 20, 12], 7);
    FromAll([10], 5);
    FromAll([], 15);
    FromSnoc([], 10, 15);
    FromSnoc([10], 20, 15);
    assert [] + [10] == [10] && [10] + [20] == [10, 20] && [] + [20] == [20];
    assert CLOCK_BACK_INSIDE[..0] == [];
    NoEvents(THREE_IN_FIVE);
  }

  lemma NoEvents(c: Settings)
    ensures Run(c, []) == State([], NEVER) && Recent([]) == []
  {
  }

  // ------------------------------------------------------------------ as it runs

  class AccountLockout {
    var failureTimes: seq<Time>
    var lockedTime: Time
    const settings: Settings
    ghost var history: seq<Event>

    ghost predicate Valid()
      reads this
    {
      State(failureTimes, lockedTime) == Run(settings, history)
    }

    constructor (maxFailures: int, lockoutDuration: int, failureWindow: int)
      ensures Valid() && history == [] && settings == Settings(maxFailures, lockoutDuration, failureWindow)
    {
      failureTimes, lockedTime, history := [], NEVER, [];
      settings := Settings(maxFailures, lockoutDuration, failureWindow);
    }

    method RecordFailureAt(now: Time)
      requires Valid()
      modifies this
      ensures Valid() && history == old(history) + [Failure(now)]
    {
      failureTimes := failureTimes + [now];
      if settings.failureWindow > 0 {
        Prune(now - settings.failureWindow);
      }
      if settings.maxFailures > 0 && |failureTimes| >= settings.maxFailures {
        lockedTime := now;
      }
      history := history + [Failure(now)];
      assert history[..|history| - 1] == old(history);
    }

    method Prune(cutoff: Time)
      modifies this`failureTimes
      ensures failureTimes == Pruned(old(failureTimes), cutoff)
    {
      while |failureTimes| > 0 && failureTimes[0] < cutoff
        invariant Pruned(old(failureTimes), cutoff) == Pruned(failureTimes, cutoff)
        decreases |failureTimes|
      {
        failureTimes := failureTimes[1..];
      }
    }

    method RecordSuccess()
      requires Valid()
      modifies this
      ensures Valid() && history == old(history) + [Success]
    {
      failureTimes := [];
      history := history + [Success];
      assert history[..|history| - 1] == old(history);
    }

    method Unlock()
      requires Valid()
      modifies this
      ensures Valid() && history == old(history) + [Event.Unlock]
    {
      failureTimes, lockedTime := [], NEVER;
      history := history + [Event.Unlock];
      assert history[..|history| - 1] == old(history);
    }

    method IsLockedAt(now: Time) returns (locked: bool)
      requires Valid()
      ensures Regular(settings, history) ==> (locked <==> ShouldBeLocked(settings, history, now))
    {
      hide Regular, ShouldBeLocked;
      if Regular(settings, history) { LockedByHistory(settings, history, now); }
      if lockedTime == NEVER {
        return false;
      }
      if settings.lockoutDuration == 0 {
        return true;
      }
      locked := now - lockedTime < settings.lockoutDuration;
    }

    /** The failures in the window at any time from the latest failure on, though older ones are gone
        from the list. */
    method FailureCountAt(now: Time) returns (count: nat)
      requires Valid()
      ensures Regular(settings, history) && (Recent(history) != [] ==> Latest(history) <= now) ==>
                count == if settings.failureWindow == 0 then |Recent(history)|
                         else |From(Recent(history), now - settings.failureWindow)|
    {
      hide From, Recent, Run, Regular;
      if Regular(settings, history) { CountRefines(settings, history, now); }
      if settings.failureWindow == 0 {
        return |failureTimes|;
      }
      var cutoff := now - settings.failureWindow;
      count := 0;
      var i := 0;
      assert failureTimes[..0] == [];
      FromNone(cutoff);
      while i < |failureTimes|
        invariant 0 <= i <= |failureTimes| && count == |From(failureTimes[..i], cutoff)|
      {
        assert failureTimes[..i + 1] == failureTimes[..i] + [failureTimes[i]];
        FromSnoc(failureTimes[..i], failureTimes[i], cutoff);
        if failureTimes[i] >= cutoff {
          count := count + 1;
        }
        i := i + 1;
      }
      assert failureTimes[..i] == failureTimes;
    }
  }

  lemma FromNone(cutoff: Time)
    ensures From([], cutoff) == []
  {
  }

  lemma CountRefines(c: Settings, h: seq<Event>, now: Time)
    requires Regular(c, h)
    ensures c.failureWindow <= 0 ==> Run(c, h).failureTimes == Recent(h)
    ensures (Recent(h) != [] ==> Latest(h) <= now) ==>
              From(Run(c, h).failureTimes, now - c.failureWindow) == From(Recent(h), now - c.failureWindow)
  {
    hide From, Recent, Run, Regular, Faithful;
    ListExact(c, h);
    FaithfulNow(c, h);
    if Recent(h) != [] && c.failureWindow > 0 {
      FromTwice(Recent(h), Latest(h) - c.failureWindow, now - c.failureWindow);
    }
  }
}
