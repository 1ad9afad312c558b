/**
 The timed-job scheduler: a queue of jobs ordered by the time each is due next,
 and an update that runs everything that is due.

 A job's callback is known to the scheduler only by what its calls return, and
 the first call that returns false is its last one. A callback is therefore
 modelled by the number of that call, if there is one.
 */
module JobDispatcher {
  import opened Sequences

  /** A moment in milliseconds; dividing by a zero frequency gives Never. */
  datatype Due = At(ms: real) | Never

  datatype Job = Job(time: Due, freq: real, catchUp: bool, lastCall: Option<nat>, runs: nat)
  {
    /** The result of the callback's next call. */
    predicate CallReturns() { lastCall != Some(runs) }

    /** A negative frequency would make the update loop forever. */
    predicate Valid() { freq >= 0.0 }

    predicate IsDue(now: real) { time.At? && time.ms <= now }
  }

  function Period(j: Job): real
    requires j.freq > 0.0
  {
    1000.0 / j.freq
  }

  predicate NoLater(a: Due, b: Due) {
    b.Never? || (a.At? && a.ms <= b.ms)
  }

  /** Job::UpdateTime after a call of the callback. */
  function AfterRun(j: Job, now: real): Job
    requires j.Valid() && j.time.At?
  {
    var from := if j.catchUp then j.time.ms else now;
    j.(runs := j.runs + 1, time := if j.freq == 0.0 then Never else At(from + Period(j)))
  }

  // ---- how often a job is still due ----

  /** The number of calls a job is behind at the given time. */
  function DueRuns(j: Job, now: real): nat
    requires j.Valid()
  {
    if !j.IsDue(now) then 0
    else if j.catchUp && j.freq > 0.0 then
      PeriodPositive(j);
      QuotientNonNegative(now - j.time.ms, Period(j));
      ((now - j.time.ms) / Period(j)).Floor + 1
    else 1
  }

  lemma PeriodPositive(j: Job)
    requires j.freq > 0.0
    ensures Period(j) > 0.0
  {
  }

  lemma QuotientNonNegative(x: real, p: real)
    requires x >= 0.0 && p > 0.0
    ensures x / p >= 0.0
  {
  }

  lemma QuotientStep(x: real, p: real)
    requires p > 0.0
    ensures (x - p) / p == x / p - 1.0
    ensures x >= p <==> x / p >= 1.0
  {
    DivideBack(x, p);
    DivideBack(x - p, p);
    Cancel(x / p - 1.0, (x - p) / p, p);
  }

  lemma DivideBack(x: real, p: real)
    requires p > 0.0
    ensures x / p * p == x
  {
  }

  lemma Cancel(a: real, b: real, p: real)
    requires p > 0.0 && a * p == b * p
    ensures a == b
  {
    assert (a - b) * p == 0.0;
  }

  lemma FloorStep(q: real)
    ensures (q - 1.0).Floor == q.Floor - 1
  {
  }

  /** One period less is one whole period less; short of a period none is left. */
  lemma PeriodsStep(x: real, p: real)
    requires p > 0.0 && x >= 0.0
    ensures x >= p ==> ((x - p) / p).Floor == (x / p).Floor - 1
    ensures x < p ==> (x / p).Floor == 0
  {
    QuotientStep(x, p);
    QuotientNonNegative(x, p);
    FloorStep(x / p);
  }

  /** Each call leaves a job one call less behind, so catching up ends. */
  lemma DueRunsStep(j: Job, now: real)
    requires j.Valid() && j.IsDue(now)
    ensures AfterRun(j, now).Valid()
    ensures DueRuns(AfterRun(j, now), now) == DueRuns(j, now) - 1
  {
    if j.freq > 0.0 {
      PeriodPositive(j);
      if j.catchUp {
        CatchUpStep(j, now);
      }
    }
  }

  lemma CatchUpStep(j: Job, now: real)
    requires j.freq > 0.0 && j.catchUp && j.IsDue(now)
    ensures DueRuns(AfterRun(j, now), now) == DueRuns(j, now) - 1
  {
    var x, p, j' := now - j.time.ms, Period(j), AfterRun(j, now);
    PeriodPositive(j);
    PeriodsStep(x, p);
    assert Period(j') == p && j'.time == At(j.time.ms + p);
    assert j'.IsDue(now) <==> x >= p;
    assert DueRuns(j, now) == (x / p).Floor + 1;
    if x >= p {
      assert now - j'.time.ms == x - p;
      assert DueRuns(j', now) == ((x - p) / p).Floor + 1;
    }
  }

  // ---- periods in Hertz and milliseconds ----

  lemma PeriodInHertz(j: Job)
    requires j.freq > 0.0
    ensures Period(j) * j.freq == 1000.0 && Period(j) > 0.0
  {
    PeriodPositive(j);
    DivideBack(1000.0, j.freq);
  }

  /** A call makes a job due again one period after it was due, if it catches up, or else after the call. */
  lemma RetimedIs(j: Job, now: real)
    requires j.Valid() && j.time.At?
    ensures var j' := AfterRun(j, now);
            && j' == j.(time := j'.time, runs := j.runs + 1)
            && (j.freq == 0.0 ==> j'.time == Never)
            && (j.freq > 0.0 ==>
                  j'.time.At? && (j'.time.ms - (if j.catchUp then j.time.ms else now)) * j.freq == 1000.0)
  {
    if j.freq > 0.0 {
      PeriodInHertz(j);
    }
  }

  /** The period in milliseconds, of a frequency in Hertz. */
  lemma PeriodIs(j: Job, p: real)
    requires j.freq > 0.0 && p * j.freq == 1000.0
    ensures Period(j) == p && p > 0.0
  {
    PeriodInHertz(j);
    Cancel(p, Period(j), j.freq);
  }

  // ---- the effect of one update on one job ----

  /** The job as one update leaves it, or None when its callback returned false. */
  function Settle(j: Job, now: real): (r: Option<Job>)
    requires j.Valid()
    ensures r.Some? ==> r.value.Valid() && !r.value.IsDue(now)
    decreases DueRuns(j, now)
  {
    if !j.IsDue(now) then Some(j)
    else if !j.CallReturns() then None
    else
      DueRunsStep(j, now);
      Settle(AfterRun(j, now), now)
  }

  /** One call of a callback: which job, when it was due, and when it happened. */
  datatype Run = Run(ticket: nat, due: real, at: real)

  /** The calls one update makes to one job, oldest first. */
  function RunsDue(ticket: nat, j: Job, now: real): (r: seq<Run>)
    requires j.Valid()
    ensures forall run :: run in r ==> run.ticket == ticket && run.due <= now && run.at == now
    decreases DueRuns(j, now)
  {
    if !j.IsDue(now) then []
    else
      [Run(ticket, j.time.ms, now)] +
      (if !j.CallReturns() then []
       else DueRunsStep(j, now); RunsDue(ticket, AfterRun(j, now), now))
  }

  /** A job leaves the queue in the update in which its callback returns false, and in no other. */
  lemma {:induction false} DroppedIffCallbackReturnsFalse(ticket: nat, j: Job, now: real)
    requires j.Valid()
    ensures Settle(j, now).None? <==>
            j.lastCall.Some? && j.runs <= j.lastCall.value < j.runs + |RunsDue(ticket, j, now)|
    ensures Settle(j, now).Some? ==> Settle(j, now).value.runs == j.runs + |RunsDue(ticket, j, now)|
    decreases DueRuns(j, now)
  {
    if j.IsDue(now) && j.CallReturns() {
      DueRunsStep(j, now);
      DroppedIffCallbackReturnsFalse(ticket, AfterRun(j, now), now);
    }
  }

  /** The length of n periods, added up one by one. */
  function Periods(n: nat, p: real): real {
    if n == 0 then 0.0 else Periods(n - 1, p) + p
  }

  lemma {:induction false} PeriodsIsProduct(n: nat, p: real)
    ensures Periods(n, p) == n as real * p
  {
    if n > 0 {
      PeriodsIsProduct(n - 1, p);
      assert n as real * p == (n - 1) as real * p + p;
    }
  }

  lemma PeriodsAre(j: Job, n: nat, p: real)
    requires j.freq > 0.0 && p * j.freq == 1000.0
    ensures Periods(n, Period(j)) == n as real * p
  {
    PeriodIs(j, p);
    PeriodsIsProduct(n, p);
  }

  /** What an update does to a catch-up job, in closed form. */
  lemma {:induction false} SettleCatchUp(j: Job, now: real)
    requires j.catchUp && j.freq > 0.0 && j.time.At?
    ensures
      var n := DueRuns(j, now);
      Settle(j, now) ==
        if j.lastCall.Some? && j.runs <= j.lastCall.value < j.runs + n then None
        else Some(j.(time := At(j.time.ms + Periods(n, Period(j))), runs := j.runs + n))
    decreases DueRuns(j, now)
  {
    if j.IsDue(now) {
      DueRunsStep(j, now);
      if j.CallReturns() {
        SettleCatchUp(AfterRun(j, now), now);
      }
    }
  }

  // ---- whole runs of one job ----

  ghost predicate NonDecreasing(nows: seq<real>) {
    forall i, k :: 0 <= i < k < |nows| ==> nows[i] <= nows[k]
  }

  /** The job after one update at each of the given times. */
  function SettleMany(j: Option<Job>, nows: seq<real>): (r: Option<Job>)
    requires j.Some? ==> j.value.Valid()
    ensures r.Some? ==> r.value.Valid()
    decreases |nows|
  {
    if j.None? || nows == [] then j
    else SettleMany(Settle(j.value, nows[0]), nows[1..])
  }

  /** Catching up twice is catching up once. */
  lemma {:induction false} SettleTwice(j: Job, a: real, b: real)
    requires j.catchUp && j.Valid() && a <= b
    ensures Settle(j, a).None? ==> Settle(j, b).None?
    ensures Settle(j, a).Some? ==> Settle(Settle(j, a).value, b) == Settle(j, b)
    decreases DueRuns(j, a)
  {
    if j.IsDue(a) && j.CallReturns() {
      DueRunsStep(j, a);
      assert AfterRun(j, a) == AfterRun(j, b);
      SettleTwice(AfterRun(j, a), a, b);
    }
  }

  /** However the updates are spaced, only the last one's time matters to a catch-up job. */
  lemma {:induction false} SpacingIrrelevant(j: Job, nows: seq<real>)
    requires j.catchUp && j.Valid() && nows != [] && NonDecreasing(nows)
    ensures SettleMany(Some(j), nows) == Settle(j, nows[|nows| - 1])
    decreases |nows|
  {
    var rest := nows[1..];
    if rest != [] {
      SettleTwice(j, nows[0], nows[|nows| - 1]);
      assert rest[|rest| - 1] == nows[|nows| - 1];
      match Settle(j, nows[0]) {
        case Some(j') =>
          SettleKeepsMode(j, nows[0]);
          SpacingIrrelevant(j', rest);
        case None =>
      }
    }
  }

  lemma {:induction false} SettleKeepsMode(j: Job, now: real)
    requires j.Valid()
    ensures Settle(j, now).Some? ==>
              Settle(j, now).value.catchUp == j.catchUp && Settle(j, now).value.freq == j.freq
    decreases DueRuns(j, now)
  {
    if j.IsDue(now) && j.CallReturns() {
      DueRunsStep(j, now);
      SettleKeepsMode(AfterRun(j, now), now);
    }
  }

  lemma CatchUpInPeriods(j: Job, nows: seq<real>)
    requires j.catchUp && j.freq > 0.0 && j.time.At?
    requires nows != [] && NonDecreasing(nows)
    ensures
      var n := DueRuns(j, nows[|nows| - 1]);
      SettleMany(Some(j), nows) ==
        if j.lastCall.Some? && j.runs <= j.lastCall.value < j.runs + n then None
        else Some(j.(time := At(j.time.ms + Periods(n, Period(j))), runs := j.runs + n))
  {
    SpacingIrrelevant(j, nows);
    SettleCatchUp(j, nows[|nows| - 1]);
  }

  /**
   The rate law, for a frequency in Hertz and a period p in milliseconds: a catch-up job still queued has run once
   per period since it was first due, and is due again at the end of them.
   */
  lemma CatchUpRunCount(j: Job, nows: seq<real>, p: real, n: nat)
    requires j.catchUp && j.freq > 0.0 && j.time.At? && p * j.freq == 1000.0
    requires nows != [] && NonDecreasing(nows)
    requires var late := nows[|nows| - 1] - j.time.ms;
             n == if late < 0.0 then 0 else (late / p).Floor + 1
    ensures
      SettleMany(Some(j), nows) ==
        if j.lastCall.Some? && j.runs <= j.lastCall.value < j.runs + n then None
        else Some(j.(runs := j.runs + n, time := At(j.time.ms + n as real * p)))
  {
    CatchUpInPeriods(j, nows);
    PeriodIs(j, p);
    PeriodsAre(j, n, p);
  }

  /** Every call made to a job by one update at each of the given times. */
  function RunLog(ticket: nat, j: Option<Job>, nows: seq<real>): seq<Run>
    requires j.Some? ==> j.value.Valid()
    decreases |nows|
  {
    if j.None? || nows == [] then []
    else RunsDue(ticket, j.value, nows[0]) + RunLog(ticket, Settle(j.value, nows[0]), nows[1..])
  }

  /** A job that does not catch up runs at most once per update. */
  lemma AtMostOncePerUpdate(ticket: nat, j: Job, now: real)
    requires j.Valid() && !j.catchUp
    ensures |RunsDue(ticket, j, now)| <= 1
    ensures |RunsDue(ticket, j, now)| == 1 && j.CallReturns() && j.freq > 0.0 ==>
              Settle(j, now) == Some(AfterRun(j, now)) && AfterRun(j, now).time == At(now + Period(j))
  {
    if j.IsDue(now) {
      DueRunsStep(j, now);
    }
  }

  /**
   An update calls a job that does not catch up once if its time has come, and drops it if the call returns false;
   else it is due again one period from now, or never.
   */
  lemma OneCallIs(ticket: nat, j: Job, now: real)
    requires j.Valid() && !j.catchUp
    ensures RunsDue(ticket, j, now) == if j.time.At? && j.time.ms <= now then [Run(ticket, j.time.ms, now)] else []
    ensures j.time == Never || j.time.ms > now ==> Settle(j, now) == Some(j)
    ensures j.time.At? && j.time.ms <= now && j.lastCall == Some(j.runs) ==> Settle(j, now) == None
    ensures j.time.At? && j.time.ms <= now && j.lastCall != Some(j.runs) ==>
              exists time :: Settle(j, now) == Some(j.(runs := j.runs + 1, time := time)) &&
                             (if j.freq == 0.0 then time == Never else time.At? && (time.ms - now) * j.freq == 1000.0)
  {
    if j.IsDue(now) {
      DueRunsStep(j, now);
      RetimedIs(j, now);
      if j.CallReturns() {
        assert Settle(j, now) == Some(AfterRun(j, now));
        assert AfterRun(j, now) == j.(runs := j.runs + 1, time := AfterRun(j, now).time);
      }
    }
  }

  lemma {:induction false} CatchUpRunsInPeriods(ticket: nat, j: Job, now: real, i: nat)
    requires j.catchUp && j.freq > 0.0 && j.time.At? && i < |RunsDue(ticket, j, now)|
    ensures RunsDue(ticket, j, now)[i].due == j.time.ms + PeriodsFirst(i, Period(j))
    decreases i
  {
    if i > 0 {
      DueRunsStep(j, now);
      CatchUpRunsInPeriods(ticket, AfterRun(j, now), now, i - 1);
    }
  }

  /** The length of n periods, added up from the first. */
  function PeriodsFirst(n: nat, p: real): real {
    if n == 0 then 0.0 else p + PeriodsFirst(n - 1, p)
  }

  lemma {:induction false} PeriodsFirstIsPeriods(n: nat, p: real)
    ensures PeriodsFirst(n, p) == Periods(n, p)
  {
    if n > 0 { PeriodsFirstIsPeriods(n - 1, p); }
  }

  /** The calls an update makes to a catch-up job are due one period apart, the first when the job was due. */
  lemma CatchUpRunsAre(ticket: nat, j: Job, now: real, i: nat, p: real)
    requires j.catchUp && j.freq > 0.0 && j.time.At? && p * j.freq == 1000.0
    requires i < |RunsDue(ticket, j, now)|
    ensures RunsDue(ticket, j, now)[i] == Run(ticket, j.time.ms + i as real * p, now)
  {
    assert RunsDue(ticket, j, now)[i] in RunsDue(ticket, j, now);
    PeriodIs(j, p);
    CatchUpRunsInPeriods(ticket, j, now, i);
    PeriodsFirstIsPeriods(i, p);
    PeriodsIsProduct(i, p);
  }

  /** The log of a job that does not catch up, one update at a time. */
  lemma RunLogStep(ticket: nat, j: Job, nows: seq<real>)
    requires j.Valid() && !j.catchUp && j.freq > 0.0 && j.time.At? && nows != []
    ensures
      RunLog(ticket, Some(j), nows) ==
        if !j.IsDue(nows[0]) then RunLog(ticket, Some(j), nows[1..])
        else [Run(ticket, j.time.ms, nows[0])] +
             (if j.CallReturns() then RunLog(ticket, Some(AfterRun(j, nows[0])), nows[1..]) else [])
  {
    var rest := RunLog(ticket, Settle(j, nows[0]), nows[1..]);
    assert RunLog(ticket, Some(j), nows) == RunsDue(ticket, j, nows[0]) + rest;
    if j.IsDue(nows[0]) {
      DueRunsStep(j, nows[0]);
      AtMostOncePerUpdate(ticket, j, nows[0]);
      assert !j.CallReturns() ==> rest == [];
    }
  }

  lemma {:induction false} NoRunBeforePeriods(ticket: nat, j: Job, nows: seq<real>, k: nat)
    requires j.Valid() && !j.catchUp && j.freq > 0.0 && j.time.At?
    requires k < |RunLog(ticket, Some(j), nows)|
    ensures RunLog(ticket, Some(j), nows)[k].at >= j.time.ms + Periods(k, Period(j))
    decreases |nows|
  {
    RunLogStep(ticket, j, nows);
    if !j.IsDue(nows[0]) {
      NoRunBeforePeriods(ticket, j, nows[1..], k);
    } else if k > 0 {
      NoRunBeforePeriods(ticket, AfterRun(j, nows[0]), nows[1..], k - 1);
    }
  }

  /** Call k of a job that does not catch up comes k periods after it was first due, or later. */
  lemma NoRunBeforeDue(ticket: nat, j: Job, nows: seq<real>, k: nat, p: real)
    requires j.Valid() && !j.catchUp && j.freq > 0.0 && j.time.At? && p * j.freq == 1000.0
    requires k < |RunLog(ticket, Some(j), nows)|
    ensures RunLog(ticket, Some(j), nows)[k].at >= j.time.ms + k as real * p
  {
    NoRunBeforePeriods(ticket, j, nows, k);
    PeriodsAre(j, k, p);
  }

  /** The calls after one that is not the last. */
  lemma RunLogRest(ticket: nat, j: Job, nows: seq<real>, k: nat)
    requires j.Valid() && !j.catchUp && j.freq > 0.0 && j.time.At?
    requires 0 < k < |RunLog(ticket, Some(j), nows)| && nows != [] && j.IsDue(nows[0])
    ensures var j', log := AfterRun(j, nows[0]), RunLog(ticket, Some(j), nows);
            var rest := RunLog(ticket, Some(j'), nows[1..]);
            && j'.Valid() && !j'.catchUp && j'.freq > 0.0 && j'.time == At(nows[0] + Period(j))
            && Period(j') == Period(j) && log == [Run(ticket, j.time.ms, nows[0])] + rest
  {
    RunLogStep(ticket, j, nows);
  }

  lemma {:induction false} RunsPeriodsApart(ticket: nat, j: Job, nows: seq<real>, i: nat, k: nat)
    requires j.Valid() && !j.catchUp && j.freq > 0.0 && j.time.At?
    requires i <= k < |RunLog(ticket, Some(j), nows)|
    ensures
      var log := RunLog(ticket, Some(j), nows);
      log[k].at - log[i].at >= Periods(k - i, Period(j))
    decreases |nows|
  {
    if !j.IsDue(nows[0]) {
      RunLogStep(ticket, j, nows);
      RunsPeriodsApart(ticket, j, nows[1..], i, k);
    } else if k > 0 {
      RunLogRest(ticket, j, nows, k);
      if i > 0 {
        RunsPeriodsApart(ticket, AfterRun(j, nows[0]), nows[1..], i - 1, k - 1);
      } else {
        NoRunBeforePeriods(ticket, AfterRun(j, nows[0]), nows[1..], k - 1);
      }
    }
  }

  /** Two calls of a job that does not catch up are at least one period apart, and n calls apart n periods. */
  lemma RunsApart(ticket: nat, j: Job, nows: seq<real>, i: nat, n: nat, p: real)
    requires j.Valid() && !j.catchUp && j.freq > 0.0 && j.time.At? && p * j.freq == 1000.0
    requires i + n < |RunLog(ticket, Some(j), nows)|
    ensures
      var log := RunLog(ticket, Some(j), nows);
      log[i + n].at - log[i].at >= n as real * p
  {
    RunsPeriodsApart(ticket, j, nows, i, i + n);
    PeriodsAre(j, n, p);
  }

  // ---- the queue ----

  ghost predicate AllValid(jobs: map<nat, Job>) {
    forall t :: t in jobs ==> jobs[t].Valid()
  }

  /** What one update makes of the whole queue, job by job. */
  ghost function SettleAll(jobs: map<nat, Job>, now: real): (r: map<nat, Job>)
    requires AllValid(jobs)
    ensures AllValid(r)
  {
    map t | t in jobs && Settle(jobs[t], now).Some? :: Settle(jobs[t], now).value
  }

  /** The queue after one update at each of the given times. */
  ghost function UpdateAll(jobs: map<nat, Job>, nows: seq<real>): (r: map<nat, Job>)
    requires AllValid(jobs)
    ensures AllValid(r)
  {
    if nows == [] then jobs else UpdateAll(SettleAll(jobs, nows[0]), nows[1..])
  }

  /** Jobs do not disturb each other over a whole run. */
  lemma {:induction false} JobsIndependent(jobs: map<nat, Job>, nows: seq<real>, t: nat)
    requires AllValid(jobs) && t in jobs
    ensures SettleMany(Some(jobs[t]), nows) ==
            if t in UpdateAll(jobs, nows) then Some(UpdateAll(jobs, nows)[t]) else None
    decreases |nows|
  {
    if nows != [] {
      var next := SettleAll(jobs, nows[0]);
      if t in next {
        JobsIndependent(next, nows[1..], t);
      } else {
        DroppedStaysOut(next, nows[1..], t);
      }
    }
  }

  lemma {:induction false} DroppedStaysOut(jobs: map<nat, Job>, nows: seq<real>, t: nat)
    requires AllValid(jobs) && t !in jobs
    ensures t !in UpdateAll(jobs, nows)
    decreases |nows|
  {
    if nows != [] {
      DroppedStaysOut(SettleAll(jobs, nows[0]), nows[1..], t);
    }
  }

  /** The job std::priority_queue::top returns: one that is due first. */
  predicate IsTop(jobs: map<nat, Job>, t: nat)
    requires t in jobs
  {
    forall u :: u in jobs ==> NoLater(jobs[t].time, jobs[u].time)
  }

  lemma {:induction false} TopExists(jobs: map<nat, Job>)
    requires jobs != map[]
    ensures exists t :: t in jobs && IsTop(jobs, t)
    decreases |jobs|
  {
    var t :| t in jobs;
    var rest := jobs - {t};
    if rest == map[] {
      assert forall u :: u in jobs ==> u == t by {
        assert forall u :: u in jobs && u != t ==> u in rest;
      }
      assert IsTop(jobs, t);
    } else {
      RemoveShrinks(jobs, t);
      TopExists(rest);
      var m :| m in rest && IsTop(rest, m);
      if NoLater(jobs[m].time, jobs[t].time) {
        assert forall u :: u in jobs ==> u == t || u in rest;
        assert IsTop(jobs, m);
      } else {
        assert forall u :: u in jobs ==> u == t || u in rest;
        assert IsTop(jobs, t);
      }
    }
  }

  ghost function DueCounts(jobs: map<nat, Job>, now: real): map<nat, nat>
    requires AllValid(jobs)
  {
    map t | t in jobs :: DueRuns(jobs[t], now)
  }

  /** The outstanding calls of all jobs together: what Update counts down. */
  ghost function Outstanding(jobs: map<nat, Job>, now: real): nat
    requires AllValid(jobs)
  {
    SumOf(DueCounts(jobs, now))
  }

  lemma OutstandingSplit(jobs: map<nat, Job>, now: real, t: nat)
    requires AllValid(jobs) && t in jobs
    ensures Outstanding(jobs, now) == DueRuns(jobs[t], now) + Outstanding(jobs - {t}, now)
  {
    SumSplit(DueCounts(jobs, now), t);
    assert DueCounts(jobs, now) - {t} == DueCounts(jobs - {t}, now);
  }

  ghost function OfTicket(t: nat): Run -> bool {
    (run: Run) => run.ticket == t
  }

  /** Calls made and calls still to come add up to what the queue start has to get. */
  ghost predicate Accounted(start: map<nat, Job>, jobs: map<nat, Job>, done: seq<Run>, now: real) {
    && AllValid(start) && AllValid(jobs)
    && jobs.Keys <= start.Keys
    && SettleAll(jobs, now) == SettleAll(start, now)
    && (forall t :: t in start ==> CallsLeft(jobs, done, now, t) == RunsDue(t, start[t], now))
    && (forall run :: run in done ==> run.ticket in start)
  }

  /** Calls happened in due order, and nothing queued was due before any of them. */
  ghost predicate InDueOrder(jobs: map<nat, Job>, done: seq<Run>) {
    && (forall i, k :: 0 <= i < k < |done| ==> done[i].due <= done[k].due)
    && (forall i, t :: 0 <= i < |done| && t in jobs ==> NoLater(At(done[i].due), jobs[t].time))
  }

  /** The calls made to job t so far, followed by those it still has to get. */
  ghost function CallsLeft(jobs: map<nat, Job>, done: seq<Run>, now: real, t: nat): seq<Run>
    requires AllValid(jobs)
  {
    Filter(OfTicket(t), done) + if t in jobs then RunsDue(t, jobs[t], now) else []
  }

  /** The queue after the top job t has been called and put back or dropped. */
  function AfterCall(jobs: map<nat, Job>, t: nat, now: real): map<nat, Job>
    requires t in jobs && jobs[t].Valid() && jobs[t].IsDue(now)
  {
    if jobs[t].CallReturns() then (jobs - {t})[t := AfterRun(jobs[t], now)] else jobs - {t}
  }

  lemma CallKeepsOutcome(jobs: map<nat, Job>, t: nat, now: real)
    requires AllValid(jobs) && t in jobs && jobs[t].IsDue(now)
    ensures AllValid(AfterCall(jobs, t, now))
    ensures SettleAll(AfterCall(jobs, t, now), now) == SettleAll(jobs, now)
  {
    var jobs' := AfterCall(jobs, t, now);
    DueRunsStep(jobs[t], now);
    assert Settle(jobs[t], now) == if t in jobs' then Settle(jobs'[t], now) else None;
  }

  lemma CallKeepsCalls(jobs: map<nat, Job>, done: seq<Run>, now: real, t: nat, u: nat)
    requires AllValid(jobs) && t in jobs && jobs[t].IsDue(now)
    ensures AllValid(AfterCall(jobs, t, now))
    ensures CallsLeft(AfterCall(jobs, t, now), done + [Run(t, jobs[t].time.ms, now)], now, u)
            == CallsLeft(jobs, done, now, u)
  {
    var run, jobs' := Run(t, jobs[t].time.ms, now), AfterCall(jobs, t, now);
    DueRunsStep(jobs[t], now);
    assert (done + [run])[..|done|] == done;
    if u == t {
      assert RunsDue(t, jobs[t], now) == [run] + (if t in jobs' then RunsDue(t, jobs'[t], now) else []);
    }
  }

  lemma RetimedIsLater(j: Job, now: real)
    requires j.Valid() && j.IsDue(now)
    ensures NoLater(j.time, AfterRun(j, now).time)
  {
    if j.freq > 0.0 { PeriodPositive(j); }
  }

  lemma CallKeepsAccounted(start: map<nat, Job>, jobs: map<nat, Job>, done: seq<Run>, now: real, t: nat)
    requires Accounted(start, jobs, done, now)
    requires t in jobs && jobs[t].IsDue(now)
    ensures Accounted(start, AfterCall(jobs, t, now), done + [Run(t, jobs[t].time.ms, now)], now)
  {
    var jobs', done' := AfterCall(jobs, t, now), done + [Run(t, jobs[t].time.ms, now)];
    CallKeepsOutcome(jobs, t, now);
    forall u | u in start
      ensures CallsLeft(jobs', done', now, u) == RunsDue(u, start[u], now)
    {
      CallKeepsCalls(jobs, done, now, t, u);
    }
  }

  lemma CallKeepsOrder(jobs: map<nat, Job>, done: seq<Run>, now: real, t: nat)
    requires AllValid(jobs) && InDueOrder(jobs, done)
    requires t in jobs && IsTop(jobs, t) && jobs[t].IsDue(now)
    ensures InDueOrder(AfterCall(jobs, t, now), done + [Run(t, jobs[t].time.ms, now)])
  {
    var jobs', done' := AfterCall(jobs, t, now), done + [Run(t, jobs[t].time.ms, now)];
    RetimedIsLater(jobs[t], now);
    forall i | 0 <= i < |done|
      ensures done[i].due <= jobs[t].time.ms
    {
      assert NoLater(At(done[i].due), jobs[t].time);
    }
    forall i, u | 0 <= i < |done'| && u in jobs'
      ensures NoLater(At(done'[i].due), jobs'[u].time)
    {
      assert NoLater(jobs[t].time, jobs[u].time);
      assert NoLater(jobs[u].time, jobs'[u].time);
    }
  }

  /** The queue and the calls made after taking the top jobs picks, in that order. */
  ghost function Replay(start: map<nat, Job>, picks: seq<nat>, now: real): Option<(map<nat, Job>, seq<Run>)> {
    if picks == [] then Some((start, []))
    else
      var t := picks[|picks| - 1];
      match Replay(start, picks[..|picks| - 1], now)
      case None => None
      case Some((jobs, done)) =>
        if AllValid(jobs) && t in jobs && IsTop(jobs, t) && jobs[t].IsDue(now) then
          Some((AfterCall(jobs, t, now), done + [Run(t, jobs[t].time.ms, now)]))
        else None
  }

  lemma {:induction false} ReplayAccounted(start: map<nat, Job>, picks: seq<nat>, now: real)
    requires AllValid(start) && Replay(start, picks, now).Some?
    ensures
      var (jobs, done) := Replay(start, picks, now).value;
      Accounted(start, jobs, done, now) && InDueOrder(jobs, done)
  {
    if picks != [] {
      var t := picks[|picks| - 1];
      var (jobs, done) := Replay(start, picks[..|picks| - 1], now).value;
      ReplayAccounted(start, picks[..|picks| - 1], now);
      CallKeepsAccounted(start, jobs, done, now, t);
      CallKeepsOrder(jobs, done, now, t);
    }
  }

  /** Once nothing queued is due, nothing is left to do, whichever jobs were on top. */
  lemma ReplayFinished(start: map<nat, Job>, picks: seq<nat>, now: real)
    requires AllValid(start) && Replay(start, picks, now).Some?
    requires var (jobs, done) := Replay(start, picks, now).value;
             forall t :: t in jobs ==> !jobs[t].IsDue(now)
    ensures
      var (jobs, done) := Replay(start, picks, now).value;
      && jobs == SettleAll(start, now)
      && (forall t :: t in start ==> Filter(OfTicket(t), done) == RunsDue(t, start[t], now))
      && (forall run :: run in done ==> run.ticket in start)
      && InDueOrder(jobs, done)
  {
    var (jobs, done) := Replay(start, picks, now).value;
    ReplayAccounted(start, picks, now);
    assert SettleAll(jobs, now) == jobs;
    forall t | t in start
      ensures Filter(OfTicket(t), done) == RunsDue(t, start[t], now)
    {
      assert CallsLeft(jobs, done, now, t) == Filter(OfTicket(t), done);
    }
  }

  lemma OrderInLog(jobs: map<nat, Job>, log: seq<Run>, past: nat)
    requires past <= |log| && InDueOrder(jobs, log[past..])
    ensures forall i, k :: past <= i < k < |log| ==> log[i].due <= log[k].due
    ensures forall i, t :: past <= i < |log| && t in jobs && jobs[t].time.At? ==> log[i].due <= jobs[t].time.ms
  {
    var done := log[past..];
    forall i, k | past <= i < k < |log|
      ensures log[i].due <= log[k].due
    {
      assert done[i - past].due <= done[k - past].due;
    }
    forall i, t | past <= i < |log| && t in jobs && jobs[t].time.At?
      ensures log[i].due <= jobs[t].time.ms
    {
      assert NoLater(At(done[i - past].due), jobs[t].time);
    }
  }

  lemma CallCountsDown(jobs: map<nat, Job>, now: real, t: nat)
    requires AllValid(jobs) && t in jobs && jobs[t].IsDue(now)
    ensures AllValid(AfterCall(jobs, t, now))
    ensures Outstanding(AfterCall(jobs, t, now), now) < Outstanding(jobs, now)
  {
    OutstandingSplit(jobs, now, t);
    DueRunsStep(jobs[t], now);
    if jobs[t].CallReturns() {
      var jobs' := AfterCall(jobs, t, now);
      OutstandingSplit(jobs', now, t);
      assert jobs' - {t} == jobs - {t};
    }
  }

  class Dispatcher {
    /** The priority queue; a ticket tells apart jobs that look the same. */
    var jobs: map<nat, Job>
    var nextTicket: nat
    /** Every call ever made, oldest first. */
    ghost var log: seq<Run>

    ghost predicate Valid()
      reads this
    {
      AllValid(jobs) && forall t :: t in jobs ==> t < nextTicket
    }

    constructor ()
      ensures Valid() && jobs == map[] && log == []
    {
      jobs := map[];
      nextTicket := 0;
      log := [];
    }

    method AddTimedJob(j: Job) returns (ticket: nat)
      requires Valid() && j.Valid()
      modifies this
      ensures Valid()
      ensures ticket == old(nextTicket) && ticket !in old(jobs)
      ensures jobs == old(jobs)[ticket := j] && log == old(log)
    {
      ticket := nextTicket;
      jobs := jobs[ticket := j];
      nextTicket := nextTicket + 1;
    }

    /** Takes job t off the queue, calls it, and puts it back retimed unless the call returned false. */
    method CallJob(t: nat, now: real)
      requires Valid() && t in jobs && jobs[t].IsDue(now)
      modifies this
      ensures Valid() && nextTicket == old(nextTicket)
      ensures jobs == AfterCall(old(jobs), t, now)
      ensures log == old(log) + [Run(t, old(jobs)[t].time.ms, now)]
    {
      var j := jobs[t];
      jobs := jobs - {t};
      log := log + [Run(t, j.time.ms, now)];
      if !j.CallReturns() {
        return;
      }
      j := AfterRun(j, now);
      jobs := jobs[t := j];
    }

    method Update(now: real)
      requires Valid()
      modifies this
      ensures Valid() && nextTicket == old(nextTicket)
      // each job is left as if it had been alone, whichever of equally due jobs went first
      ensures jobs == SettleAll(old(jobs), now)
      ensures forall t :: t in jobs ==> !jobs[t].IsDue(now)
      // every call is made exactly once, none is invented, and they are in due order
      ensures old(log) <= log
      ensures forall t :: t in old(jobs) ==>
                Filter(OfTicket(t), log[|old(log)|..]) == RunsDue(t, old(jobs)[t], now)
      ensures forall run :: run in log[|old(log)|..] ==> run.ticket in old(jobs)
      ensures InDueOrder(jobs, log[|old(log)|..])
      ensures forall i, k :: |old(log)| <= i < k < |log| ==> log[i].due <= log[k].due
      ensures forall i, t :: |old(log)| <= i < |log| && t in jobs && jobs[t].time.At? ==> log[i].due <= jobs[t].time.ms
      ensures forall t :: t in old(jobs) ==> (if t in jobs then Some(jobs[t]) else None) == Settle(old(jobs)[t], now)
    {
      ghost var start, past, picks := jobs, |log|, [];
      assert log[past..] == [];
      while jobs != map[]
        invariant Valid() && nextTicket == old(nextTicket)
        invariant past <= |log| && log[..past] == old(log)
        invariant Replay(start, picks, now) == Some((jobs, log[past..]))
        decreases Outstanding(jobs, now)
      {
        TopExists(jobs);
        var t :| t in jobs && IsTop(jobs, t);
        if !jobs[t].IsDue(now) {
          break;
        }
        ghost var run := Run(t, jobs[t].time.ms, now);
        assert (log + [run])[past..] == log[past..] + [run];
        assert (picks + [t])[..|picks|] == picks;
        CallCountsDown(jobs, now, t);
        CallJob(t, now);
        picks := picks + [t];
      }
      ReplayFinished(start, picks, now);
      OrderInLog(jobs, log, past);
    }
  }
}
