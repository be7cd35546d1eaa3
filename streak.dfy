/** `/api/vault/streak`: the number of consecutive practice days, today's count against the
    daily goal, and the goal update.

    The per-day review counts are an oracle: `count(d)` is the number of reviews whose
    `last_reviewed_at` falls on the day `d` days before today (a count the query could not
    produce counts as 0, which is how the code treats it). */
module Streak {
  import opened Base

  /** How many days the scan looks at, today included. */
  const ScanDays: nat := 365

  const DefaultGoal: real := 20.0

  type DayCounts = nat -> nat

  /** The number of consecutive active days starting `from` days back, looking at no more
      than `budget` days. */
  function RunLength(count: DayCounts, from: nat, budget: nat): (n: nat)
    ensures n <= budget
    decreases budget
  {
    if budget == 0 || count(from) == 0 then 0 else 1 + RunLength(count, from + 1, budget - 1)
  }

  /** A run is a block of active days ended by an inactive day or by the budget. */
  lemma {:induction false} RunLengthIsRun(count: DayCounts, from: nat, budget: nat)
    ensures forall k :: from <= k < from + RunLength(count, from, budget) ==> count(k) > 0
    ensures RunLength(count, from, budget) < budget ==> count(from + RunLength(count, from, budget)) == 0
    decreases budget
  {
    if budget > 0 && count(from) > 0 {
      RunLengthIsRun(count, from + 1, budget - 1);
    }
  }

  /** The streak the loop computes: with activity today the run starting today; without it
      (and with today's own count zero or missing) the run starting yesterday, one day fewer
      being left to scan; otherwise 0. */
  function StreakOf(count: DayCounts, todayCount: Option<nat>): (n: nat)
    ensures n <= ScanDays
  {
    if count(0) > 0 then RunLength(count, 0, ScanDays)
    else if todayCount.None? || todayCount.value == 0 then RunLength(count, 1, ScanDays - 1)
    else 0
  }

  /** The backward scan over at most 365 days. */
  method CountStreak(count: DayCounts, todayCount: Option<nat>) returns (streakDays: nat)
    ensures streakDays == StreakOf(count, todayCount)
  {
    streakDays := 0;
    var checkDay: nat := 0;
    var i := 0;
    while i < ScanDays
      invariant 0 <= i <= ScanDays
      invariant i == 0 ==> streakDays == 0 && checkDay == 0
      invariant i > 0 ==> streakDays + RunLength(count, checkDay, ScanDays - i) == StreakOf(count, todayCount)
    {
      if count(checkDay) > 0 {
        streakDays := streakDays + 1;
        checkDay := checkDay + 1;
      } else {
        if i == 0 && (todayCount.None? || todayCount.value == 0) {
          checkDay := checkDay + 1;
          i := i + 1;
          continue;
        }
        break;
      }
      i := i + 1;
    }
  }

  /** With activity today, the streak counts today and the unbroken run of active days
      before it, and stops at the first inactive day. */
  lemma ActiveToday(count: DayCounts, todayCount: Option<nat>)
    requires count(0) > 0
    ensures StreakOf(count, todayCount) >= 1
    ensures forall k :: 0 <= k < StreakOf(count, todayCount) ==> count(k) > 0
    ensures StreakOf(count, todayCount) < ScanDays ==> count(StreakOf(count, todayCount)) == 0
  {
    RunLengthIsRun(count, 0, ScanDays);
  }

  /** Without activity today, today is skipped once: the streak is the run of active days
      ending yesterday, and 0 when yesterday was inactive too. */
  lemma InactiveToday(count: DayCounts, todayCount: Option<nat>)
    requires count(0) == 0 && (todayCount.None? || todayCount.value == 0)
    ensures count(1) == 0 ==> StreakOf(count, todayCount) == 0
    ensures forall k :: 1 <= k <= StreakOf(count, todayCount) ==> count(k) > 0
    ensures StreakOf(count, todayCount) < ScanDays - 1 ==> count(StreakOf(count, todayCount) + 1) == 0
  {
    RunLengthIsRun(count, 1, ScanDays - 1);
  }

  /** `settings?.daily_goal || 20`: a missing or zero goal reads as 20. */
  function DailyGoal(setting: Option<real>): (g: real)
    ensures setting.None? || setting.value == 0.0 ==> g == DefaultGoal
    ensures setting.Some? && setting.value != 0.0 ==> g == setting.value
    ensures g != 0.0
  {
    if setting.None? || setting.value == 0.0 then DefaultGoal else setting.value
  }

  /** `(todayCount || 0) >= dailyGoal`. */
  predicate IsComplete(todayCount: Option<nat>, goal: real) {
    (if todayCount.Some? then todayCount.value else 0) as real >= goal
  }

  /** The goal `PUT` accepts: present, not 0, and between 1 and 100. */
  predicate AcceptedGoal(goal: Option<real>) {
    !(goal.None? || goal.value == 0.0 || goal.value < 1.0 || goal.value > 100.0)
  }

  /** The accepted goals are exactly those from 1 to 100. */
  lemma AcceptedGoalRange(goal: Option<real>)
    ensures AcceptedGoal(goal) <==> goal.Some? && 1.0 <= goal.value <= 100.0
  {
  }

  /** A goal that `PUT` stores is the goal `GET` reports afterwards. */
  lemma StoredGoalReadBack(goal: Option<real>)
    requires AcceptedGoal(goal)
    ensures DailyGoal(goal) == goal.value
  {
  }

  datatype StreakInfo = StreakInfo(todayCount: nat, dailyGoal: real, streakDays: nat, isComplete: bool)

  datatype StreakResponse =
    | StreakFailed(httpStatus: int, error: string)
    | StreakOk(streak: StreakInfo)

  /** `setting` is the stored goal (None: no settings row); `todayCount` is the count of
      today's reviews (None: the count failed, which is only logged). */
  method Get(authenticated: bool, setting: Option<real>, todayCount: Option<nat>, count: DayCounts)
    returns (resp: StreakResponse)
    ensures !authenticated <==> resp == StreakFailed(401, "Unauthorized")
    ensures resp.StreakOk? <==> authenticated
    ensures resp.StreakOk? ==>
      && resp.streak.todayCount == (if todayCount.Some? then todayCount.value else 0)
      && resp.streak.dailyGoal == DailyGoal(setting)
      && resp.streak.streakDays == StreakOf(count, todayCount) <= ScanDays
      && (resp.streak.isComplete <==> resp.streak.todayCount as real >= resp.streak.dailyGoal)
  {
    if !authenticated {
      return StreakFailed(401, "Unauthorized");
    }
    var goal := DailyGoal(setting);
    var streakDays := CountStreak(count, todayCount);
    var today := if todayCount.Some? then todayCount.value else 0;
    resp := StreakOk(StreakInfo(today, goal, streakDays, IsComplete(todayCount, goal)));
  }

  datatype PutResponse =
    | PutFailed(httpStatus: int, error: string)
    | PutOk(dailyGoal: real)

  /** The request body: not JSON (`request.json()` throws), the JSON `null` (destructuring
      it throws), or a value whose `daily_goal` is read, None standing for a falsy or
      missing one. */
  datatype PutBody = NotJson | JsonNull | GoalBody(dailyGoal: Option<real>)

  /** `upsertSucceeds` is the result of the settings upsert. A body that throws is caught
      as a 500. */
  method Put(authenticated: bool, body: PutBody, upsertSucceeds: bool) returns (resp: PutResponse)
    ensures !authenticated ==> resp == PutFailed(401, "Unauthorized")
    ensures authenticated && !body.GoalBody? ==> resp == PutFailed(500, "Internal server error")
    ensures authenticated && body.GoalBody? && !AcceptedGoal(body.dailyGoal) ==>
      resp == PutFailed(400, "Invalid daily_goal. Must be between 1 and 100.")
    ensures authenticated && body.GoalBody? && AcceptedGoal(body.dailyGoal) && !upsertSucceeds ==>
      resp == PutFailed(500, "Failed to update settings")
    ensures resp.PutOk? <==> authenticated && body.GoalBody? && AcceptedGoal(body.dailyGoal) && upsertSucceeds
    ensures resp.PutOk? ==> resp.dailyGoal == body.dailyGoal.value && 1.0 <= resp.dailyGoal <= 100.0
  {
    if !authenticated {
      return PutFailed(401, "Unauthorized");
    }
    if !body.GoalBody? {
      return PutFailed(500, "Internal server error");
    }
    var goal := body.dailyGoal;
    if goal.None? || goal.value == 0.0 || goal.value < 1.0 || goal.value > 100.0 {
      return PutFailed(400, "Invalid daily_goal. Must be between 1 and 100.");
    }
    if !upsertSucceeds {
      return PutFailed(500, "Failed to update settings");
    }
    resp := PutOk(goal.value);
  }
}
