/** The alias queue object: the stored record and the sections of code that
    change it under the lock. */
module AliasQueue {
  import opened Wrappers
  import opened QueueSteps
  import opened QueueSafety

  class AliasQueue {
    var job: Job
    var workerRunning: bool
    /** Whether the run can still be told to stop. */
    var canCancel: bool
    /** Whether the run was told to stop. */
    var cancelled: bool
    var run: Run
    var resume: Resume
    ghost var world: World

    ghost function Now(): State
      reads this
    {
      State(job, run, resume, canCancel, cancelled, workerRunning, world)
    }

    ghost predicate Valid()
      reads this
    {
      Safe(Now())
    }

    constructor ()
      ensures Valid() && Now() == START
    {
      job, workerRunning, canCancel, cancelled := NO_JOB, false, false, false;
      run, resume, world := NoRun, NotResuming, NOTHING;
    }

    method Start(now: int)
      requires Valid()
      modifies this
      ensures Valid() && Now() == Next(old(Now()), StartWorker(now))
      ensures !old(workerRunning) ==> job.status != Running && job.candidate == old(job.candidate)
      ensures !old(workerRunning) && old(job).status == Running ==>
        if old(job).candidate != "" && old(job).candidateState == Reserving
        then job == old(job).(status := NeedsAttention, errorCode := "RESULT_CONFIRMATION_REQUIRED", nextAttempt := None)
        else job == old(job).(status := Queued, nextAttempt := Some(now))
      ensures old(workerRunning) || old(job).status != Running ==> job == old(job)
    {
      hide Safe;
      StepSafe(Now(), StartWorker(now));
      if workerRunning {
        return;
      }
      workerRunning := true;
      var state := job;
      if state.status == Running {
        if state.candidate != "" && state.candidateState == Reserving {
          state := state.(status := NeedsAttention, errorCode := "RESULT_CONFIRMATION_REQUIRED", nextAttempt := None);
        } else {
          state := state.(status := Queued, nextAttempt := Some(now));
        }
        job := state;
      }
    }

    method Enqueue(base: string, count: int, note: string, requestId: string, newId: string, now: int) returns (reply: Reply)
      requires Valid() && MayHappen(Now(), Event.Enqueue(base, count, note, requestId, newId, now))
      modifies this
      ensures Valid() && Now() == Next(old(Now()), Event.Enqueue(base, count, note, requestId, newId, now))
      ensures reply.Accepted? <==>
        && base != "" && |base| <= 158 && 1 <= count <= 99
        && if requestId != "" && old(job).requestId == requestId
           then old(job).baseLabel == base && old(job).requested == count && old(job).note == note
           else old(job).id == "" || old(job).status == Completed || old(job).status == Cancelled || old(job).status == Idle
      ensures reply.Accepted? ==> reply.job == job
      ensures reply.Accepted? ==>
        if requestId != "" && old(job).requestId == requestId then Now() == old(Now())
        else job == Job(newId, requestId, base, note, count, Queued, 0, 0, Some(now), "", "", NoCandidate)
      ensures reply.Refused? ==> Now() == old(Now())
      ensures reply.Refused? ==>
        (reply.code == if base == "" || (1 <= count <= 99 && |base| > 158) then "BAD_LABEL"
                       else if count < 1 || count > 99 then "BAD_COUNT"
                       else if requestId != "" && old(job).requestId == requestId then "IDEMPOTENCY_CONFLICT"
                       else "QUEUE_ACTIVE")
    {
      hide Safe;
      StepSafe(Now(), Event.Enqueue(base, count, note, requestId, newId, now));
      if base == "" {
        return Refused("BAD_LABEL");
      }
      if count < 1 || count > MAXIMUM_COUNT {
        return Refused("BAD_COUNT");
      }
      if |base| + 2 > 160 {
        return Refused("BAD_LABEL");
      }
      var current := job;
      if requestId != "" && current.requestId == requestId {
        if current.baseLabel == base && current.requested == count && current.note == note {
          return Accepted(current);
        }
        return Refused("IDEMPOTENCY_CONFLICT");
      }
      if current.id != "" && current.status != Completed && current.status != Cancelled && current.status != Idle {
        return Refused("QUEUE_ACTIVE");
      }
      current := Job(newId, requestId, base, note, count, Queued, 0, 0, Some(now), "", "", NoCandidate);
      job := current;
      world := NextJob(world);
      reply := Accepted(current);
    }

    method Control(jobId: string, target: Status) returns (ok: bool)
      requires Valid() && resume.NotResuming? && (target == Paused || target == Cancelled)
      modifies this
      ensures Valid() && Now() == QueueSteps.Control(old(Now()), jobId, target)
      ensures ok <==> old(job).id != "" && (jobId == "" || jobId == old(job).id)
                      && old(job).status != Completed && old(job).status != Cancelled
      ensures ok ==> job == old(job).(status := target, nextAttempt := None) && !canCancel && (old(canCancel) ==> cancelled)
      ensures !ok ==> Now() == old(Now())
    {
      hide Safe;
      ControlSafe(Now(), jobId, target);
      var s := job;
      if s.id == "" || (jobId != "" && s.id != jobId) || s.status == Completed || s.status == Cancelled {
        return false;
      }
      s := s.(status := target);
      s := s.(nextAttempt := None);
      var cancel := canCancel;
      canCancel := false;
      job := s;
      if cancel {
        cancelled := true;
      }
      ok := true;
    }

    // ---- Resuming ----

    /** First section: what is there to resume, and whether the alias list has
        to be asked about an interrupted reservation. */
    method BeginResume(jobId: string, confirmUncertain: bool) returns (accepted: bool)
      requires Valid() && resume.NotResuming?
      modifies this
      ensures Valid() && Now() == Next(old(Now()), Event.BeginResume(jobId, confirmUncertain))
      ensures accepted <==> job.id != "" && (jobId == "" || jobId == job.id) && (job.status == Paused || job.status == NeedsAttention)
      ensures accepted ==>
        resume == if job.status == NeedsAttention && job.candidate != "" then Listing(job.candidate, confirmUncertain) else Finishing
      ensures job == old(job)
    {
      hide Safe;
      BeginResumeSafe(Now(), jobId, confirmUncertain);
      var s := job;
      if s.id == "" || (jobId != "" && s.id != jobId) || (s.status != Paused && s.status != NeedsAttention) {
        return false;
      }
      if s.status == NeedsAttention && s.candidate != "" {
        resume := Listing(s.candidate, confirmUncertain);
      } else {
        resume := Finishing;
      }
      accepted := true;
    }

    /** Looks for the candidate among the listed addresses. Nothing is settled
        when the list fails, or when it lacks the candidate and the user does
        not confirm that. */
    method AnswerList(aliases: Option<seq<string>>) returns (settles: bool)
      requires Valid() && resume.Listing?
      requires aliases.Some? ==> forall a :: a in aliases.value && a == resume.address <==> a == resume.address && a in world.held
      modifies this
      ensures Valid()
      ensures Now() == Next(old(Now()), Event.AnswerList(
        if aliases.None? then None else Some(old(resume).address in aliases.value)))
      ensures settles <==> aliases.Some? && (old(resume).address in aliases.value || old(resume).confirmUncertain)
      ensures settles ==> resume == Settling(old(resume).address, old(resume).address in aliases.value)
      ensures !settles ==> resume == NotResuming
      ensures job == old(job)
    {
      hide Safe;
      ghost var answer := if aliases.None? then None else Some(resume.address in aliases.value);
      AnswerListSafe(Now(), answer);
      if aliases.None? {
        resume := NotResuming;
        return false;
      }
      var matched := false;
      for i := 0 to |aliases.value|
        invariant !matched && resume.address !in aliases.value[..i]
      {
        if aliases.value[i] == resume.address {
          matched := true;
          break;
        }
      }
      assert aliases.value[..|aliases.value|] == aliases.value;
      if !matched && !resume.confirmUncertain {
        resume := NotResuming;
        return false;
      }
      if !matched {
        world := Forget(world, resume.address);
      }
      resume := Settling(resume.address, matched);
      settles := true;
    }

    method SettleCandidate()
      requires Valid() && resume.Settling?
      modifies this
      ensures Valid() && Now() == Next(old(Now()), Settle)
      ensures job.candidate == "" && resume == Finishing
      ensures job.current == job.success == old(job.current) + if old(resume).matched then 1 else 0
    {
      hide Safe;
      SettleSafe(Now());
      SafeFacts(Now());
      var s := job;
      if resume.matched {
        s := s.(current := s.current + 1);
        s := s.(success := s.success + 1);
        world := world.(counted := world.counted + {resume.address});
      }
      s := s.(candidate := "", candidateState := NoCandidate);
      job := s;
      resume := Finishing;
    }

    method FinishResume(now: int)
      requires Valid() && resume.Finishing?
      modifies this
      ensures Valid() && Now() == Next(old(Now()), Event.FinishResume(now))
      ensures if old(job).current >= old(job).requested then job.status == Completed && job.nextAttempt.None?
              else job.status == Queued && job.nextAttempt == Some(now)
      ensures job == old(job).(status := job.status, nextAttempt := job.nextAttempt)
    {
      hide Safe;
      FinishResumeSafe(Now(), now);
      var s := job;
      resume := NotResuming;
      if s.current >= s.requested {
        job := s.(status := Completed, nextAttempt := None);
        return;
      }
      s := s.(status := Queued);
      job := s.(nextAttempt := Some(now));
    }

    // ---- The run ----

    method RunIfDue(now: int)
      requires Valid() && run.NoRun? && workerRunning
      modifies this
      ensures Valid() && Now() == Next(old(Now()), Tick(now))
      ensures run.Opening? <==>
        && old(job).id != "" && old(job).nextAttempt.Some? && old(job).nextAttempt.value <= now
        && (old(job).status == Queued || old(job).status == WaitingRateLimit || old(job).status == WaitingRetry)
      ensures run.Opening? ==> job.status == Running && job.current < job.requested
    {
      hide Safe;
      TickSafe(Now(), now);
      SafeFacts(Now());
      var s := job;
      if s.id == "" || s.nextAttempt.None? || s.nextAttempt.value > now {
        return;
      }
      if s.status == WaitingRateLimit || s.status == WaitingRetry {
        s := s.(status := Queued);
      }
      if s.status != Queued {
        return;
      }
      canCancel, cancelled := true, false;
      s := s.(status := Running);
      job := s;
      run := Opening(s);
    }

    /** Stores a generated address before anything is asked for it. */
    method SaveCandidate()
      requires Valid() && run.HaveCandidate?
      modifies this
      ensures Valid() && Now() == Next(old(Now()), Event.SaveCandidate)
    {
      hide Safe;
      SaveCandidateSafe(Now());
      var s := job;
      s := s.(candidate := run.fresh', candidateState := Generated);
      job := s;
      run := BeforeReserve(s, run.index, run.fresh');
    }

    method BeginReserve() returns (sends: bool)
      requires Valid() && run.BeforeReserve?
      modifies this
      ensures Valid() && Now() == Next(old(Now()), Event.BeginReserve)
      ensures sends <==> run.InReserve?
      ensures sends <==> old(job).status != Paused && old(job).status != Cancelled
      ensures sends ==> job.candidateState == Reserving && job.candidate == run.address && run.address in world.possible
    {
      hide Safe;
      BeginReserveSafe(Now());
      SafeFacts(Now());
      var s := job;
      if s.status == Cancelled || s.status == Paused {
        run, canCancel := NoRun, false;
        return false;
      }
      job := s.(candidateState := Reserving);
      run := InReserve(run.initial, run.index, run.address);
      world := world.(possible := world.possible + {run.address});
      sends := true;
    }

    method CountReserved()
      requires Valid() && run.ReserveAnswered?
      modifies this
      ensures Valid() && Now() == Next(old(Now()), Count)
      ensures job.current == job.success == old(job.current) + 1 == |world.counted| && job.candidate == ""
      ensures job.status == Completed <==> job.current == job.requested
    {
      hide Safe;
      CountSafe(Now());
      SafeFacts(Now());
      SafeFacts(CountStep(Now()));
      var s, index, address := job, run.index, run.address;
      s := s.(current := index, success := index, candidate := "", candidateState := NoCandidate);
      if index >= s.requested {
        s := s.(nextAttempt := None, status := Completed);
      }
      job := s;
      world := world.(counted := world.counted + {address});
      if index < s.requested {
        run := Spacing(s);
      } else {
        run, canCancel := NoRun, false;
      }
    }

    method HandleCreateError(now: int)
      requires Valid() && run.CreateFailed?
      modifies this
      ensures Valid() && Now() == Next(old(Now()), HandleError(now))
      ensures run.NoRun? && job.current == old(job.current)
      ensures job.candidate == if old(run).error == InvalidCandidate then "" else old(job.candidate)
      ensures match old(run).error
              case RateLimited => job.status == WaitingRateLimit && job.errorCode == "RATE_LIMITED" && job.nextAttempt == Some(now + 1800)
              case InvalidCandidate =>
                job.status == WaitingRetry && job.errorCode == "INVALID_CANDIDATE_RETRY" && job.nextAttempt == Some(now + 2)
              case SessionExpired => job.status == NeedsAttention && job.errorCode == "SESSION_EXPIRED" && job.nextAttempt.None?
              case Network =>
                if old(run).reserveStarted
                then job.status == NeedsAttention && job.errorCode == "RESULT_CONFIRMATION_REQUIRED" && job.nextAttempt.None?
                else job.status == WaitingRetry && job.errorCode == "NETWORK_RETRY" && job.nextAttempt == Some(now + 60)
              case OtherError => job.status == NeedsAttention && job.errorCode == "CREATE_ERROR" && job.nextAttempt.None?
    {
      hide Safe;
      HandleErrorSafe(Now(), now);
      SafeFacts(Now());
      var jobId, error, reserveStarted := run.initial.id, run.error, run.reserveStarted;
      run, canCancel := NoRun, false;
      match error {
        case RateLimited =>
          FailWithDelay(jobId, "RATE_LIMITED", WaitingRateLimit, COOLDOWN, now);
        case InvalidCandidate =>
          var s := job;
          s := s.(candidate := "", candidateState := NoCandidate);
          job := s.(status := WaitingRetry, errorCode := "INVALID_CANDIDATE_RETRY", nextAttempt := Some(now + 2));
        case SessionExpired =>
          FailWithDelay(jobId, "SESSION_EXPIRED", NeedsAttention, 0, now);
        case Network =>
          if reserveStarted {
            FailWithDelay(jobId, "RESULT_CONFIRMATION_REQUIRED", NeedsAttention, 0, now);
          } else {
            FailWithDelay(jobId, "NETWORK_RETRY", WaitingRetry, RETRY, now);
          }
        case OtherError =>
          FailWithDelay(jobId, "CREATE_ERROR", NeedsAttention, 0, now);
      }
    }

    method FailWithDelay(jobId: string, code: string, status: Status, delay: int, now: int)
      modifies this`job
      ensures job == Failed(old(job), jobId, code, status, delay, now)
    {
      var s := job;
      if s.id != jobId {
        return;
      }
      s := s.(status := status, errorCode := code);
      if delay > 0 {
        s := s.(nextAttempt := Some(now + delay));
      } else {
        s := s.(nextAttempt := None);
      }
      job := s;
    }
  }
}
