/**
 Model of the lease rows in src/scheduler/job_store.ts: any number of workers
 claim, renew, complete and fail jobs; each statement is one atomic step.

 Times are milliseconds of the database clock, which never goes back.
 */
module JobStore {
  import opened Common

  datatype Status = Pending | Running | Completed | Failed

  datatype Job = Job(
    jobType: string,
    status: Status,
    lockedUntil: Option<int>,
    lockedBy: Option<string>,
    runAt: int,
    retryCount: nat)
  {
    predicate Finished() {
      status.Completed? || status.Failed?
    }
  }

  type Jobs = map<string, Job>

  // Math.floor(leaseDurationMs / 1000) seconds, in milliseconds.
  function LeaseMs(leaseDurationMs: int): (r: int)
    ensures r <= leaseDurationMs < r + 1000 && r % 1000 == 0
  {
    leaseDurationMs / 1000 * 1000
  }

  predicate Claimable(job: Job, jobType: string, now: int) {
    && job.jobType == jobType
    && (job.status.Pending? || job.status.Running?)
    && (job.lockedUntil.None? || job.lockedUntil.value <= now)
    && job.runAt <= now
  }

  /** A claimable row, not locked by a concurrent statement, with the earliest run time among those. */
  predicate Selected(jobs: Jobs, jobType: string, now: int, skipped: set<string>, id: string) {
    && id in jobs && id !in skipped && Claimable(jobs[id], jobType, now)
    && (forall other :: other in jobs && other !in skipped && Claimable(jobs[other], jobType, now) ==>
          jobs[id].runAt <= jobs[other].runAt)
  }

  function ClaimedJob(job: Job, worker: string, now: int, lease: int): Job {
    job.(status := Running, lockedUntil := Some(now + lease), lockedBy := Some(worker))
  }

  predicate CanRenew(jobs: Jobs, id: string, worker: string) {
    id in jobs && jobs[id].lockedBy == Some(worker) && jobs[id].status.Running?
  }

  function RenewedJob(job: Job, now: int, lease: int): Job {
    job.(lockedUntil := Some(now + lease))
  }

  function CompletedJob(job: Job): Job {
    job.(status := Completed, lockedUntil := None, lockedBy := None)
  }

  function FailedJob(job: Job): Job {
    job.(status := Failed, lockedUntil := None, lockedBy := None, retryCount := job.retryCount + 1)
  }

  class JobStore {
    var jobs: Jobs

    constructor ()
      ensures jobs == map[]
    {
      jobs := map[];
    }

    // The inner select: the earliest claimable row that no concurrent statement has locked.
    method SelectJob(jobType: string, now: int, skipped: set<string>) returns (found: Option<string>)
      ensures found.Some? ==> Selected(jobs, jobType, now, skipped, found.value)
      ensures found.None? ==>
                forall id :: id in jobs && id !in skipped ==> !Claimable(jobs[id], jobType, now)
    {
      found := None;
      var ids := jobs.Keys;
      while ids != {}
        invariant ids <= jobs.Keys
        invariant found.Some? ==> found.value in jobs.Keys - ids && found.value !in skipped
                                  && Claimable(jobs[found.value], jobType, now)
        invariant forall id :: id in jobs.Keys - ids && id !in skipped && Claimable(jobs[id], jobType, now) ==>
                    found.Some? && jobs[found.value].runAt <= jobs[id].runAt
        decreases |ids|
      {
        var id :| id in ids;
        if id !in skipped && Claimable(jobs[id], jobType, now) {
          if found.None? || jobs[id].runAt < jobs[found.value].runAt {
            found := Some(id);
          }
        }
        ids := ids - {id};
      }
    }

    method ClaimJob(jobType: string, worker: string, leaseDurationMs: int, now: int, skipped: set<string>)
      returns (claimed: Option<string>)
      modifies this
      ensures claimed.None? ==> jobs == old(jobs)
                                && forall id :: id in jobs && id !in skipped ==> !Claimable(jobs[id], jobType, now)
      ensures claimed.Some? ==>
                var id := claimed.value;
                && Selected(old(jobs), jobType, now, skipped, id)
                && jobs == old(jobs)[id := ClaimedJob(old(jobs)[id], worker, now, LeaseMs(leaseDurationMs))]
    {
      var leaseSeconds := leaseDurationMs / 1000;
      claimed := SelectJob(jobType, now, skipped);
      if claimed.Some? {
        var id := claimed.value;
        jobs := jobs[id := jobs[id].(status := Running, lockedUntil := Some(now + leaseSeconds * 1000),
                                     lockedBy := Some(worker))];
      }
    }

    method RenewLease(id: string, worker: string, leaseDurationMs: int, now: int) returns (renewed: bool)
      modifies this
      ensures renewed <==> CanRenew(old(jobs), id, worker)
      ensures jobs == if renewed then old(jobs)[id := RenewedJob(old(jobs)[id], now, LeaseMs(leaseDurationMs))]
                      else old(jobs)
    {
      var leaseSeconds := leaseDurationMs / 1000;
      if id in jobs && jobs[id].lockedBy == Some(worker) && jobs[id].status.Running? {
        jobs := jobs[id := jobs[id].(lockedUntil := Some(now + leaseSeconds * 1000))];
        return true;
      }
      return false;
    }

    method CompleteJob(id: string)
      modifies this
      ensures jobs == if id in old(jobs) then old(jobs)[id := CompletedJob(old(jobs)[id])] else old(jobs)
    {
      if id in jobs {
        jobs := jobs[id := jobs[id].(status := Completed, lockedUntil := None, lockedBy := None)];
      }
    }

    method FailJob(id: string)
      modifies this
      ensures jobs == if id in old(jobs) then old(jobs)[id := FailedJob(old(jobs)[id])] else old(jobs)
    {
      if id in jobs {
        jobs := jobs[id := jobs[id].(status := Failed, lockedUntil := None, lockedBy := None,
                                     retryCount := jobs[id].retryCount + 1)];
      }
    }
  }

  // ---------------------------------------------------------------- runs of many workers

  // The window a claim or renewal grants: from then on, up to but not including until.
  datatype Grant = Grant(job: string, worker: string, from: int, until: int)

  // grants is history: every window granted so far, oldest first.
  datatype World = World(jobs: Jobs, now: int, grants: seq<Grant>)

  datatype Step =
    | Wait(to: int)
    | Create(id: string, jobType: string, runAt: int)
    | Claim(worker: string, jobType: string, lease: int, skipped: set<string>, id: string)
    | Renew(id: string, worker: string, lease: int)
    | Complete(id: string)
    | Fail(id: string)

  // A claim names the row it selects; a step the database would not make changes nothing.
  function Apply(w: World, step: Step): World {
    match step
    case Wait(to) => if to >= w.now then w.(now := to) else w
    case Create(id, jobType, runAt) =>
      if id in w.jobs then w else w.(jobs := w.jobs[id := Job(jobType, Pending, None, None, runAt, 0)])
    case Claim(worker, jobType, lease, skipped, id) =>
      if Selected(w.jobs, jobType, w.now, skipped, id)
      then w.(jobs := w.jobs[id := ClaimedJob(w.jobs[id], worker, w.now, lease)],
              grants := w.grants + [Grant(id, worker, w.now, w.now + lease)])
      else w
    case Renew(id, worker, lease) =>
      if CanRenew(w.jobs, id, worker)
      then w.(jobs := w.jobs[id := RenewedJob(w.jobs[id], w.now, lease)],
              grants := w.grants + [Grant(id, worker, w.now, w.now + lease)])
      else w
    case Complete(id) => if id in w.jobs then w.(jobs := w.jobs[id := CompletedJob(w.jobs[id])]) else w
    case Fail(id) => if id in w.jobs then w.(jobs := w.jobs[id := FailedJob(w.jobs[id])]) else w
  }

  function Run(w: World, steps: seq<Step>): World
    decreases |steps|
  {
    if steps == [] then w else Run(Apply(w, steps[0]), steps[1..])
  }

  function Start(now: int): World {
    World(map[], now, [])
  }

  function Max(a: int, b: int): int { if a < b then b else a }

  /** A renewal does not bring forward the end of a lease that is still open. */
  predicate Extends(w: World, step: Step) {
    step.Renew? && CanRenew(w.jobs, step.id, step.worker) && w.jobs[step.id].lockedUntil.Some? ==>
      w.jobs[step.id].lockedUntil.value <= Max(w.now, w.now + step.lease)
  }

  predicate RenewalsExtend(w: World, steps: seq<Step>)
    decreases |steps|
  {
    steps == [] || (Extends(w, steps[0]) && RenewalsExtend(Apply(w, steps[0]), steps[1..]))
  }

  predicate Overlap(g: Grant, h: Grant) {
    g.from < h.until && h.from < g.until
  }

  /** No two workers are granted overlapping windows of one job. */
  predicate Exclusive(grants: seq<Grant>) {
    forall i, j :: 0 <= i < j < |grants| && grants[i].job == grants[j].job && grants[i].worker != grants[j].worker ==>
      !Overlap(grants[i], grants[j])
  }

  predicate GrantOk(w: World, g: Grant) {
    && g.from <= w.now && g.job in w.jobs
    && var job := w.jobs[g.job];
       || job.Finished()
       || (job.status.Running? && g.until <= w.now)
       || (job.status.Running? && job.lockedBy == Some(g.worker)
           && job.lockedUntil.Some? && g.until <= job.lockedUntil.value)
  }

  predicate JobOk(job: Job) {
    && (job.status.Running? <==> job.lockedBy.Some?)
    && (job.lockedBy.Some? <==> job.lockedUntil.Some?)
  }

  ghost predicate Inv(w: World) {
    && (forall id {:trigger JobOk(w.jobs[id])} :: id in w.jobs ==> JobOk(w.jobs[id]))
    && (forall i {:trigger GrantOk(w, w.grants[i])} :: 0 <= i < |w.grants| ==> GrantOk(w, w.grants[i]))
    && Exclusive(w.grants)
  }

  lemma OneMoreGrant(w: World, g: Grant)
    requires Inv(w) && g.from == w.now && g.job in w.jobs
    requires forall i :: 0 <= i < |w.grants| && w.grants[i].job == g.job && w.grants[i].worker != g.worker ==>
               w.grants[i].until <= w.now
    ensures Exclusive(w.grants + [g])
  {
  }

  lemma ClaimKeepsInv(w: World, step: Step)
    requires Inv(w) && step.Claim?
    ensures Inv(Apply(w, step))
  {
    var u := Apply(w, step);
    if Selected(w.jobs, step.jobType, w.now, step.skipped, step.id) {
      var g := Grant(step.id, step.worker, w.now, w.now + step.lease);
      assert JobOk(w.jobs[step.id]);
      forall i | 0 <= i < |w.grants| && w.grants[i].job == g.job ensures w.grants[i].until <= w.now {
        assert GrantOk(w, w.grants[i]);
      }
      OneMoreGrant(w, g);
      forall i | 0 <= i < |u.grants| ensures GrantOk(u, u.grants[i]) {
        if i < |w.grants| { assert GrantOk(w, w.grants[i]); }
      }
      forall id | id in u.jobs ensures JobOk(u.jobs[id]) {
        if id != step.id { assert JobOk(w.jobs[id]); }
      }
    }
  }

  lemma RenewKeepsInv(w: World, step: Step)
    requires Inv(w) && step.Renew? && Extends(w, step)
    ensures Inv(Apply(w, step))
  {
    var u := Apply(w, step);
    if CanRenew(w.jobs, step.id, step.worker) {
      assert JobOk(w.jobs[step.id]);
      forall i | 0 <= i < |w.grants| && w.grants[i].job == step.id && w.grants[i].worker != step.worker
        ensures w.grants[i].until <= w.now
      {
        assert GrantOk(w, w.grants[i]);
      }
      OneMoreGrant(w, Grant(step.id, step.worker, w.now, w.now + step.lease));
      forall i | 0 <= i < |u.grants| ensures GrantOk(u, u.grants[i]) {
        if i < |w.grants| { assert GrantOk(w, w.grants[i]); }
      }
      forall id | id in u.jobs ensures JobOk(u.jobs[id]) {
        if id != step.id { assert JobOk(w.jobs[id]); }
      }
    }
  }

  lemma ApplyKeepsInv(w: World, step: Step)
    requires Inv(w) && Extends(w, step)
    ensures Inv(Apply(w, step))
  {
    match step
    case Claim(_, _, _, _, _) => ClaimKeepsInv(w, step);
    case Renew(_, _, _) => RenewKeepsInv(w, step);
    case _ =>
      var u := Apply(w, step);
      forall i | 0 <= i < |u.grants| ensures GrantOk(u, u.grants[i]) { assert GrantOk(w, w.grants[i]); }
      forall id | id in u.jobs ensures JobOk(u.jobs[id]) {
        if id in w.jobs { assert JobOk(w.jobs[id]); }
      }
  }

  lemma {:induction false} RunKeepsInv(w: World, steps: seq<Step>)
    requires Inv(w) && RenewalsExtend(w, steps)
    ensures Inv(Run(w, steps))
    decreases |steps|
  {
    if steps != [] {
      ApplyKeepsInv(w, steps[0]);
      RunKeepsInv(Apply(w, steps[0]), steps[1..]);
    }
  }

  /** Windows of different workers never overlap, in every run whose renewals do not shorten a lease. */
  lemma LeasesAreExclusive(now: int, steps: seq<Step>)
    requires RenewalsExtend(Start(now), steps)
    ensures Exclusive(Run(Start(now), steps).grants)
  {
    RunKeepsInv(Start(now), steps);
  }

  // ---------------------------------------------------------------- one lease length

  predicate UsesLease(steps: seq<Step>, lease: int) {
    forall i :: 0 <= i < |steps| ==>
      (steps[i].Claim? ==> steps[i].lease == lease) && (steps[i].Renew? ==> steps[i].lease == lease)
  }

  predicate LocksWithin(w: World, lease: int) {
    forall id :: id in w.jobs && w.jobs[id].lockedUntil.Some? ==> w.jobs[id].lockedUntil.value <= w.now + lease
  }

  /** With one lease length for every claim and renewal, no renewal shortens a lease. */
  lemma {:induction false} FixedLeaseExtends(w: World, steps: seq<Step>, lease: int)
    requires UsesLease(steps, lease) && LocksWithin(w, lease)
    ensures RenewalsExtend(w, steps)
    decreases |steps|
  {
    if steps != [] {
      var u := Apply(w, steps[0]);
      assert UsesLease(steps[1..], lease);
      assert LocksWithin(u, lease);
      FixedLeaseExtends(u, steps[1..], lease);
    }
  }

  lemma FixedLeaseIsExclusive(now: int, steps: seq<Step>, lease: int)
    requires UsesLease(steps, lease)
    ensures Exclusive(Run(Start(now), steps).grants)
  {
    FixedLeaseExtends(Start(now), steps, lease);
    LeasesAreExclusive(now, steps);
  }

  /** A renewal that shortens the lease lets another worker in while the first window is still open. */
  lemma ShorterRenewalOverlaps(a: string, b: string)
    requires a != b
    ensures var steps := [Create("j", "t", 0), Claim(a, "t", 60_000, {}, "j"), Renew("j", a, 1_000), Wait(1_000),
                          Claim(b, "t", 60_000, {}, "j")];
            !Exclusive(Run(Start(0), steps).grants)
  {
    var job := Job("t", Pending, None, None, 0, 0);
    var w1 := World(map["j" := job], 0, []);
    var w2 := World(map["j" := ClaimedJob(job, a, 0, 60_000)], 0, [Grant("j", a, 0, 60_000)]);
    var w3 := World(map["j" := ClaimedJob(job, a, 0, 1_000)], 0, w2.grants + [Grant("j", a, 0, 1_000)]);
    var w5 := World(map["j" := ClaimedJob(job, b, 1_000, 60_000)], 1_000, w3.grants + [Grant("j", b, 1_000, 61_000)]);
    assert Apply(Start(0), Create("j", "t", 0)) == w1;
    assert Apply(w1, Claim(a, "t", 60_000, {}, "j")) == w2;
    assert Apply(w2, Renew("j", a, 1_000)) == w3;
    assert Apply(w3, Wait(1_000)) == w3.(now := 1_000);
    assert Apply(w3.(now := 1_000), Claim(b, "t", 60_000, {}, "j")) == w5;
    hide Apply;
    assert Overlap(w5.grants[0], w5.grants[2]);
    RunFive(Start(0), Create("j", "t", 0), Claim(a, "t", 60_000, {}, "j"), Renew("j", a, 1_000), Wait(1_000),
            Claim(b, "t", 60_000, {}, "j"));
  }

  lemma RunFive(w: World, a: Step, b: Step, c: Step, d: Step, e: Step)
    ensures Run(w, [a, b, c, d, e]) == Apply(Apply(Apply(Apply(Apply(w, a), b), c), d), e)
  {
    hide Apply;
    RunCons(w, a, [b, c, d, e]);
    RunCons(Apply(w, a), b, [c, d, e]);
    RunCons(Apply(Apply(w, a), b), c, [d, e]);
    RunCons(Apply(Apply(Apply(w, a), b), c), d, [e]);
    RunCons(Apply(Apply(Apply(Apply(w, a), b), c), d), e, []);
    hide Run;
    assert [a] + [b, c, d, e] == [a, b, c, d, e];
    assert [b] + [c, d, e] == [b, c, d, e];
    assert [c] + [d, e] == [c, d, e];
    assert [d] + [e] == [d, e];
    assert [e] + [] == [e];
  }

  lemma RunCons(w: World, a: Step, rest: seq<Step>)
    ensures Run(w, [a] + rest) == Run(Apply(w, a), rest)
    ensures rest == [] ==> Run(w, [a] + rest) == Apply(w, a)
  {
    assert ([a] + rest)[1..] == rest;
  }

  // A running job was due when it was claimed, and its lock is the end of a window granted to its holder.
  ghost predicate LocksAreGranted(w: World) {
    forall id {:trigger w.jobs[id]} :: id in w.jobs && w.jobs[id].status.Running? ==>
      w.jobs[id].runAt <= w.now
      && exists i :: 0 <= i < |w.grants| && w.grants[i].job == id && w.jobs[id].lockedBy == Some(w.grants[i].worker)
                  && w.jobs[id].lockedUntil == Some(w.grants[i].until)
  }

  lemma ApplyKeepsGranted(w: World, step: Step)
    requires LocksAreGranted(w)
    ensures LocksAreGranted(Apply(w, step))
  {
    var u := Apply(w, step);
    forall id | id in u.jobs && u.jobs[id].status.Running?
      ensures u.jobs[id].runAt <= u.now
      ensures exists i :: 0 <= i < |u.grants| && u.grants[i].job == id && u.jobs[id].lockedBy == Some(u.grants[i].worker)
                          && u.jobs[id].lockedUntil == Some(u.grants[i].until)
    {
      if id in w.jobs && u.jobs[id] == w.jobs[id] {
        var i :| 0 <= i < |w.grants| && w.grants[i].job == id && w.jobs[id].lockedBy == Some(w.grants[i].worker)
                 && w.jobs[id].lockedUntil == Some(w.grants[i].until);
        assert u.grants[i] == w.grants[i];
      } else {
        assert u.grants[|u.grants| - 1].job == id;
      }
    }
  }

  lemma {:induction false} RunKeepsGranted(w: World, steps: seq<Step>)
    requires LocksAreGranted(w)
    ensures LocksAreGranted(Run(w, steps))
    decreases |steps|
  {
    if steps != [] {
      ApplyKeepsGranted(w, steps[0]);
      RunKeepsGranted(Apply(w, steps[0]), steps[1..]);
    }
  }

  // Another worker claims the job, past the end of the renewed lease, while every other row is locked.
  function LetIn(w: World, renewal: Step, other: string): seq<Step>
    requires renewal.Renew? && renewal.id in w.jobs
  {
    [Wait(Max(w.now, w.now + renewal.lease)),
     Claim(other, w.jobs[renewal.id].jobType, 1, w.jobs.Keys - {renewal.id}, renewal.id)]
  }

  /**
   Extending is exactly what a renewal needs: one that shortens an open lease can
   be followed by another worker's claim of an overlapping window.
   */
  lemma ShorteningLetsAnotherIn(now: int, steps: seq<Step>, renewal: Step, other: string)
    requires var w := Run(Start(now), steps);
             RenewalsExtend(Start(now), steps) && renewal.Renew? && CanRenew(w.jobs, renewal.id, renewal.worker)
             && !Extends(w, renewal) && other != renewal.worker
    ensures var w := Run(Start(now), steps);
            !Exclusive(Run(Apply(w, renewal), LetIn(w, renewal, other)).grants)
  {
    var w := Run(Start(now), steps);
    RunKeepsInv(Start(now), steps);
    RunKeepsGranted(Start(now), steps);
    var id := renewal.id;
    var i :| 0 <= i < |w.grants| && w.grants[i].job == id && w.jobs[id].lockedBy == Some(w.grants[i].worker)
             && w.jobs[id].lockedUntil == Some(w.grants[i].until);
    assert GrantOk(w, w.grants[i]);
    var u, late := Apply(w, renewal), Max(w.now, w.now + renewal.lease);
    var v := Apply(u, Wait(late));
    var claim := LetIn(w, renewal, other)[1];
    assert Claimable(v.jobs[id], claim.jobType, v.now) && Selected(v.jobs, claim.jobType, v.now, claim.skipped, id);
    var z := Apply(v, claim);
    RunCons(u, Wait(late), [claim]);
    RunCons(v, claim, []);
    assert [claim] + [] == [claim] && [Wait(late)] + [claim] == LetIn(w, renewal, other);
    assert z.grants[i] == w.grants[i] && z.grants[|z.grants| - 1] == Grant(id, other, late, late + 1);
    assert Overlap(z.grants[i], z.grants[|z.grants| - 1]);
  }

  // ---------------------------------------------------------------- who is handed what

  // A job a worker could be given: due, unfinished, and not under an open lease.
  predicate IsDue(job: Job, jobType: string, now: int) {
    && job.jobType == jobType && !job.Finished() && job.runAt <= now
    && !(job.lockedUntil.Some? && job.lockedUntil.value > now)
  }

  ghost predicate SomeDue(jobs: Jobs, jobType: string, now: int, skipped: set<string>) {
    exists id :: id in jobs && id !in skipped && IsDue(jobs[id], jobType, now)
  }

  // Of the due jobs with these ids, one with the earliest run time.
  lemma {:induction false} EarliestDue(jobs: Jobs, jobType: string, now: int, skipped: set<string>, ids: set<string>) returns (id: string)
    requires ids <= jobs.Keys && exists k :: k in ids && k !in skipped && IsDue(jobs[k], jobType, now)
    ensures id in ids && id !in skipped && IsDue(jobs[id], jobType, now)
    ensures forall k :: k in ids && k !in skipped && IsDue(jobs[k], jobType, now) ==> jobs[id].runAt <= jobs[k].runAt
    decreases ids
  {
    var first :| first in ids && first !in skipped && IsDue(jobs[first], jobType, now);
    var rest := ids - {first};
    if exists k :: k in rest && k !in skipped && IsDue(jobs[k], jobType, now) {
      var best := EarliestDue(jobs, jobType, now, skipped, rest);
      id := if jobs[first].runAt < jobs[best].runAt then first else best;
    } else {
      id := first;
    }
  }

  /** A claim can be made exactly when some unlocked job of its type is due, and it gets one that has been due the longest. */
  lemma ClaimPossibleIff(jobs: Jobs, jobType: string, now: int, skipped: set<string>)
    ensures (exists id :: Selected(jobs, jobType, now, skipped, id)) <==> SomeDue(jobs, jobType, now, skipped)
    ensures forall id :: Selected(jobs, jobType, now, skipped, id) ==>
              && id in jobs && id !in skipped && IsDue(jobs[id], jobType, now)
              && forall k :: k in jobs && k !in skipped && IsDue(jobs[k], jobType, now) ==> jobs[id].runAt <= jobs[k].runAt
  {
    forall k | k in jobs ensures IsDue(jobs[k], jobType, now) <==> Claimable(jobs[k], jobType, now) {}
    if SomeDue(jobs, jobType, now, skipped) {
      var id := EarliestDue(jobs, jobType, now, skipped, jobs.Keys);
      assert Selected(jobs, jobType, now, skipped, id);
    }
  }

  // How often the job has been failed.
  function Fails(steps: seq<Step>, id: string): nat {
    if steps == [] then 0 else Fails(steps[..|steps| - 1], id) + if steps[|steps| - 1] == Fail(id) then 1 else 0
  }

  lemma {:induction false} RunLast(w: World, steps: seq<Step>)
    requires steps != []
    ensures Run(w, steps) == Apply(Run(w, steps[..|steps| - 1]), steps[|steps| - 1])
    decreases |steps|
  {
    if |steps| == 1 {
      assert steps[..0] == [] && steps[1..] == [];
    } else {
      RunLast(Apply(w, steps[0]), steps[1..]);
      assert steps[1..][..|steps| - 2] == steps[..|steps| - 1][1..];
    }
  }

  lemma OneStepOfJob(w: World, step: Step, id: string)
    requires id in w.jobs
    ensures id in Apply(w, step).jobs
    ensures Apply(w, step).jobs[id].retryCount == w.jobs[id].retryCount + if step == Fail(id) then 1 else 0
    ensures Apply(w, step).jobs[id].runAt == w.jobs[id].runAt && Apply(w, step).jobs[id].jobType == w.jobs[id].jobType
    ensures step == Complete(id) ==> Apply(w, step).jobs[id].status.Completed?
    ensures step == Fail(id) ==> Apply(w, step).jobs[id].status.Failed?
  {
  }

  /** Over any run the retry count grows by exactly the failures of the job; its type and run time stay. */
  lemma {:induction false} RetriesAreFailures(w: World, steps: seq<Step>, id: string)
    requires id in w.jobs
    ensures id in Run(w, steps).jobs
    ensures Run(w, steps).jobs[id].retryCount == w.jobs[id].retryCount + Fails(steps, id)
    ensures Run(w, steps).jobs[id].runAt == w.jobs[id].runAt && Run(w, steps).jobs[id].jobType == w.jobs[id].jobType
    decreases |steps|
  {
    if steps != [] {
      RetriesAreFailures(w, steps[..|steps| - 1], id);
      RunLast(w, steps);
      OneStepOfJob(Run(w, steps[..|steps| - 1]), steps[|steps| - 1], id);
      hide Apply;
    }
  }

  /** Right after a claim its worker can renew, until the lease runs out nobody else is given the job, and from then on anyone. */
  lemma ClaimHolds(w: World, claim: Step, other: string, lease: int, later: int)
    requires claim.Claim? && Selected(w.jobs, claim.jobType, w.now, claim.skipped, claim.id) && later >= w.now
    ensures var u := Apply(w, claim);
            && CanRenew(u.jobs, claim.id, claim.worker)
            && u.jobs[claim.id].lockedUntil == Some(w.now + claim.lease)
            && (IsDue(u.jobs[claim.id], claim.jobType, later) <==> later >= w.now + claim.lease)
  {
  }

  // ---------------------------------------------------------------- superseded workers and finished jobs

  predicate NeverClaims(steps: seq<Step>, worker: string, id: string) {
    forall i :: 0 <= i < |steps| ==> !(steps[i].Claim? && steps[i].worker == worker && steps[i].id == id)
  }

  /** Once another worker has claimed the job, a worker that does not claim it again cannot renew it. */
  lemma {:induction false} SupersededCannotRenew(w: World, steps: seq<Step>, id: string, worker: string)
    requires id in w.jobs && w.jobs[id].lockedBy != Some(worker) && NeverClaims(steps, worker, id)
    ensures !CanRenew(Run(w, steps).jobs, id, worker)
    decreases |steps|
  {
    if steps != [] {
      assert NeverClaims(steps[1..], worker, id);
      assert !(steps[0].Claim? && steps[0].worker == worker && steps[0].id == id);
      SupersededCannotRenew(Apply(w, steps[0]), steps[1..], id, worker);
    }
  }

  lemma AnotherClaimSupersedes(w: World, claim: Step, steps: seq<Step>, worker: string)
    requires claim.Claim? && claim.worker != worker && NeverClaims(steps, worker, claim.id)
    requires Selected(w.jobs, claim.jobType, w.now, claim.skipped, claim.id)
    ensures !CanRenew(Run(Apply(w, claim), steps).jobs, claim.id, worker)
  {
    SupersededCannotRenew(Apply(w, claim), steps, claim.id, worker);
  }

  function GrantsFor(grants: seq<Grant>, id: string): seq<Grant> {
    if grants == [] then []
    else
      var last := grants[|grants| - 1];
      GrantsFor(grants[..|grants| - 1], id) + if last.job == id then [last] else []
  }

  /** A completed or failed job stays finished and is never claimed or renewed again. */
  lemma {:induction false} FinishedForGood(w: World, steps: seq<Step>, id: string)
    requires id in w.jobs && w.jobs[id].Finished()
    ensures id in Run(w, steps).jobs && Run(w, steps).jobs[id].Finished()
    ensures GrantsFor(Run(w, steps).grants, id) == GrantsFor(w.grants, id)
    decreases |steps|
  {
    if steps != [] {
      var u := Apply(w, steps[0]);
      assert u.grants != w.grants ==> u.grants[..|u.grants| - 1] == w.grants;
      FinishedForGood(u, steps[1..], id);
    }
  }

  predicate Ends(steps: seq<Step>, id: string) {
    exists i :: 0 <= i < |steps| && (steps[i] == Complete(id) || steps[i] == Fail(id))
  }

  // Completing and failing ask nobody: the holder of a window that is still open can no longer renew.
  lemma AnyoneEndsTheLease(w: World, id: string, holder: string, step: Step, steps: seq<Step>)
    requires CanRenew(w.jobs, id, holder) && (step == Complete(id) || step == Fail(id))
    ensures !CanRenew(Run(Apply(w, step), steps).jobs, id, holder)
  {
    FinishedForGood(Apply(w, step), steps, id);
  }

  /** While the job is locked, its lock lies in the future: before, between and after the steps. */
  predicate StaysOpen(w: World, steps: seq<Step>, id: string)
    decreases |steps|
  {
    && (id in w.jobs && w.jobs[id].lockedUntil.Some? ==> w.now < w.jobs[id].lockedUntil.value)
    && (steps == [] || StaysOpen(Apply(w, steps[0]), steps[1..], id))
  }

  lemma OpenLeaseStep(w: World, step: Step, id: string, holder: string)
    requires LocksAreGranted(w) && CanRenew(w.jobs, id, holder) && StaysOpen(w, [], id)
    requires step != Complete(id) && step != Fail(id)
    ensures CanRenew(Apply(w, step).jobs, id, holder)
  {
    assert w.jobs[id].lockedUntil.Some?;
  }

  lemma {:induction false} OpenLeaseRun(w: World, id: string, holder: string, steps: seq<Step>)
    requires LocksAreGranted(w) && CanRenew(w.jobs, id, holder) && StaysOpen(w, steps, id)
    ensures CanRenew(Run(w, steps).jobs, id, holder) <==> !Ends(steps, id)
    decreases |steps|
  {
    if steps != [] {
      var step, rest := steps[0], steps[1..];
      assert steps == [step] + rest;
      if step == Complete(id) || step == Fail(id) {
        AnyoneEndsTheLease(w, id, holder, step, rest);
      } else {
        OpenLeaseStep(w, step, id, holder);
        ApplyKeepsGranted(w, step);
        OpenLeaseRun(Apply(w, step), id, holder, rest);
        assert Ends(steps, id) ==> Ends(rest, id) by {
          if Ends(steps, id) {
            var i :| 0 <= i < |steps| && (steps[i] == Complete(id) || steps[i] == Fail(id));
            assert rest[i - 1] == steps[i];
          }
        }
        assert Ends(rest, id) ==> Ends(steps, id) by {
          if Ends(rest, id) {
            var i :| 0 <= i < |rest| && (rest[i] == Complete(id) || rest[i] == Fail(id));
            assert steps[i + 1] == rest[i];
          }
        }
      }
    }
  }

  /**
   In every run in which its lease stays open, a holder keeps the right to renew
   exactly when nobody, itself included, completes or fails the job.
   */
  lemma OnlyFinishingEndsTheLease(now: int, before: seq<Step>, id: string, holder: string, steps: seq<Step>)
    requires CanRenew(Run(Start(now), before).jobs, id, holder) && StaysOpen(Run(Start(now), before), steps, id)
    ensures CanRenew(Run(Run(Start(now), before), steps).jobs, id, holder) <==> !Ends(steps, id)
  {
    RunKeepsGranted(Start(now), before);
    OpenLeaseRun(Run(Start(now), before), id, holder, steps);
  }
}
