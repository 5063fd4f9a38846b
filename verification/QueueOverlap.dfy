/** What a job that is queued during a run of an earlier, cancelled job suffers. */
module QueueOverlap {
  import opened Wrappers
  import opened QueueSteps
  import opened QueueSafety

  /** Some run from here on counts, holds or stores something that it should not. */
  ghost predicate MayLose(s: State) {
    exists events :: MayRun(s, events) && Loses(s, events)
  }

  ghost predicate Loses(s: State, events: seq<Event>) {
    !Conserved(After(s, events).job, After(s, events).world)
  }

  /** A run that is about to reserve, or has reserved, an address of its own, or
      that will number an address of the new job as it numbers its own. */
  predicate Endangers(run: Run) {
    match run
    case Generating(_, index) => index > 1
    case HaveCandidate(_, index, _) => index > 1
    case BeforeReserve(_, _, _) => true
    case InReserve(_, _, _) => true
    case ReserveAnswered(_, _, _) => true
    case _ => false
  }

  /** Storing a new job breaks nothing at once, and it breaks the invariant exactly
      when a run is alive. Conservation is lost later in some allowed run exactly
      when that run is past the point where it can be stopped. */
  lemma EnqueueExactly(s: State, base: string, count: int, note: string, requestId: string, newId: string, now: int)
    requires Safe(s) && s.resume.NotResuming? && newId != "" && newId != s.job.id
    requires var reply := Enqueued(s.job, base, count, note, requestId, newId, now);
             reply.Accepted? && reply.job.id == newId
    ensures var s' := EnqueueStep(s, base, count, note, requestId, newId, now);
            && Conserved(s'.job, s'.world) && (Safe(s') <==> s.run.NoRun?)
            && (MayLose(s') <==> Endangers(s.run))
  {
    var s' := EnqueueStep(s, base, count, note, requestId, newId, now);
    if s.run.NoRun? {
      hide Safe, MayLose;
      EnqueueSafe(s, base, count, note, requestId, newId, now);
      NeverLoses(s');
    } else {
      Overlaps(s, s');
      hide Safe, Conserved, MayLose, Fresh;
      if Endangers(s.run) {
        EndangeredLoses(s');
      } else {
        NeverLoses(s');
      }
    }
  }

  // ---- A new job beside an old run ----

  /** The stored job is fresh and the run is of another one, told to stop. */
  ghost predicate Overlapping(s: State) {
    && Fresh(s.job, s.world) && s.job.status != NeedsAttention && s.job.status != Completed && s.job.status != Idle
    && s.worker && s.cancelled && "" !in s.world.earlier
    && (s.resume.NotResuming? || s.resume.Finishing?)
    && !s.run.NoRun? && s.run.initial.id != s.job.id
  }

  /** Nothing was asked for the job yet. */
  ghost predicate Fresh(job: Job, world: World) {
    && job.id != "" && job.requested >= 1 && job.current == job.success == 0
    && job.candidate == "" && job.candidateState == NoCandidate
    && world.held == {} && world.possible == {} && world.counted == {}
  }

  lemma Overlaps(s: State, s': State)
    requires Safe(s) && !s.run.NoRun? && s.resume.NotResuming?
    requires s' == s.(job := s'.job, world := NextJob(s.world)) && s'.job.id != s.job.id && s'.job.id != ""
    requires !Active(s.job) && s'.job.status == Queued && Fresh(s'.job, NextJob(s.world))
    ensures Overlapping(s') && !Safe(s') && Conserved(s'.job, s'.world) && s'.job.status == Queued && s'.resume.NotResuming?
    ensures s'.run.InReserve? ==> s'.run.address in s'.world.earlier
    ensures s'.run.HaveCandidate? ==> s'.run.fresh' != "" && s'.run.fresh' !in s'.world.earlier
    ensures s'.run.Generating? || s'.run.HaveCandidate? ==> s'.run.index >= 1
  {
  }

  // ---- Runs that can still be stopped ----

  /** The run stops, fails, or goes on with an address that it stores for the new job. */
  ghost predicate Harmless(s: State) {
    && Overlapping(s) && !Endangers(s.run)
    && (s.run.Generating? || s.run.HaveCandidate? ==> s.run.index == 1)
    && (s.run.HaveCandidate? ==> s.run.fresh' != "" && s.run.fresh' !in s.world.earlier)
  }

  lemma HarmlessStep(s: State, event: Event)
    requires Harmless(s) && MayHappen(s, event)
    ensures Conserved(s.job, s.world) && (Harmless(Next(s, event)) || Safe(Next(s, event)))
  {
    hide Safe, Conserved;
    FreshConserved(s.job, s.world);
    match event {
      case OpenSession(_) => EndsSafe(s, s.job);
      case CheckCancel => EndsSafe(s, s.job);
      case StopPaused => EndsSafe(s, s.job);
      case EndSpacing(_) => EndsSafe(s, s.job);
      case AnswerGenerate(_, _) => EndsSafe(s, s.job);
      case HandleError(_) =>
        EndsSafe(s, s.job);
        EndsSafe(s, Next(s, event).job);
      case SaveCandidate =>
        if s.run.HaveCandidate? {
          SavedSafe(s);
        }
      case Crash => CrashedSafe(s);
      case _ =>
    }
  }

  lemma FreshConserved(job: Job, world: World)
    requires Fresh(job, world) && job.status != Completed
    ensures Conserved(job, world)
  {
  }

  /** The run is over, and the job is as fresh as it was. */
  lemma EndsSafe(s: State, job: Job)
    requires Overlapping(s) && Fresh(job, s.world)
    requires job.status != NeedsAttention && job.status != Completed && job.status != Idle
    ensures Safe(Ended(s.(job := job)))
  {
    hide Conserved;
    FreshConserved(job, s.world);
  }

  lemma CrashedSafe(s: State)
    requires Overlapping(s)
    ensures Safe(Crashed(s))
  {
    hide Conserved;
    FreshConserved(s.job, s.world);
  }

  /** The run goes on as a run of the new job. */
  lemma SavedSafe(s: State)
    requires Harmless(s) && s.run.HaveCandidate?
    ensures Safe(Next(s, SaveCandidate))
  {
    hide Conserved;
    SavedConserved(s.job, s.world, s.run.fresh');
  }

  lemma SavedConserved(job: Job, world: World, address: string)
    requires Fresh(job, world) && job.status != Completed && address != ""
    ensures Conserved(WithCandidate(job, address), world)
  {
  }

  lemma {:induction false} HarmlessRun(s: State, events: seq<Event>)
    requires (Harmless(s) || Safe(s)) && MayRun(s, events)
    ensures Conserved(After(s, events).job, After(s, events).world)
    decreases events
  {
    hide MayHappen, Next, Conserved, Fresh;
    if Safe(s) {
      RunSafe(s, events);
    } else if events != [] {
      HarmlessStep(s, events[0]);
      HarmlessRun(Next(s, events[0]), events[1..]);
    } else {
      FreshConserved(s.job, s.world);
    }
  }

  lemma NeverLoses(s: State)
    requires Harmless(s) || Safe(s)
    ensures !MayLose(s)
  {
    hide Harmless, Safe, Conserved;
    forall events | MayRun(s, events)
      ensures !Loses(s, events)
    {
      HarmlessRun(s, events);
    }
  }

  // ---- Runs that cannot ----

  lemma LosesNow(s: State)
    requires !Conserved(s.job, s.world)
    ensures MayLose(s)
  {
    assert MayRun(s, []) && Loses(s, []);
  }

  lemma LosesAfter(s: State, event: Event)
    requires MayHappen(s, event) && MayLose(Next(s, event))
    ensures MayLose(s)
  {
    hide MayHappen, Next, Conserved;
    var events :| MayRun(Next(s, event), events) && Loses(Next(s, event), events);
    var all := [event] + events;
    assert all[0] == event && all[1..] == events;
    assert MayRun(s, all) && Loses(s, all);
  }

  /** Counting an address that the job does not hold, or as another one than the first. */
  lemma CountLoses(s: State)
    requires s.run.ReserveAnswered? && s.world.counted == {} && (s.run.address !in s.world.held || s.run.index > 1)
    ensures MayLose(s)
  {
    hide MayLose, Conserved;
    CountMiscounts(s);
    LosesNow(Next(s, Count));
    LosesAfter(s, Count);
  }

  lemma CountMiscounts(s: State)
    requires s.run.ReserveAnswered? && s.world.counted == {} && (s.run.address !in s.world.held || s.run.index > 1)
    ensures !Conserved(Next(s, Count).job, Next(s, Count).world)
  {
    hide Conserved;
    var next := Next(s, Count);
    var counted := s.world.counted + {s.run.address};
    assert counted == {s.run.address} && |counted| == 1;
    assert next.world.counted == counted && next.job.current == s.run.index;
    Broken(next.job, next.world);
  }

  lemma Broken(job: Job, world: World)
    requires !(world.counted <= world.held) || job.current != |world.counted| || (job.candidate == "" && job.candidateState == Reserving)
    ensures !Conserved(job, world)
  {
  }

  lemma ReserveLoses(s: State)
    requires s.run.InReserve? && s.world.counted == {} && s.run.address in s.world.held + s.world.earlier
    requires s.run.address !in s.world.held || s.run.index > 1
    ensures MayLose(s)
  {
    hide MayLose;
    CountLoses(Next(s, AnswerReserve(true, None)));
    LosesAfter(s, AnswerReserve(true, None));
  }

  lemma SaveLoses(s: State)
    requires s.run.HaveCandidate? && s.run.index > 1 && s.job.status == Queued && s.world.counted == {}
    ensures MayLose(s)
  {
    hide MayLose, Conserved;
    var address := s.run.fresh';
    var s1 := Next(s, SaveCandidate);
    var s2 := Next(s1, BeginReserve);
    var s3 := Next(s2, Execute(address));
    ReserveLoses(s3);
    LosesAfter(s2, Execute(address));
    LosesAfter(s1, BeginReserve);
    LosesAfter(s, SaveCandidate);
  }

  lemma GenerateLoses(s: State)
    requires s.run.Generating? && s.run.index > 1 && s.job.status == Queued && s.world.counted == s.world.possible == {}
    ensures MayLose(s)
  {
    hide MayLose, Conserved;
    var address := NewAddress(s.world.earlier);
    var event := AnswerGenerate(Some(address), None);
    SaveLoses(Next(s, event));
    LosesAfter(s, event);
  }

  /** The intent to reserve is stored in a job that has no candidate. */
  lemma BeginLoses(s: State)
    requires s.run.BeforeReserve? && s.job.status == Queued && s.job.candidate == ""
    ensures MayLose(s)
  {
    hide MayLose, Conserved;
    var next := Next(s, BeginReserve);
    Broken(next.job, next.world);
    LosesNow(next);
    LosesAfter(s, BeginReserve);
  }

  lemma EndangeredLoses(s: State)
    requires Overlapping(s) && Endangers(s.run) && s.job.status == Queued
    requires s.run.InReserve? ==> s.run.address in s.world.earlier
    ensures MayLose(s)
  {
    hide MayLose, Conserved;
    match s.run {
      case Generating(_, _) =>
        GenerateLoses(s);
      case HaveCandidate(_, _, _) =>
        SaveLoses(s);
      case BeforeReserve(_, _, _) =>
        BeginLoses(s);
      case InReserve(_, _, _) =>
        ReserveLoses(s);
      case ReserveAnswered(_, _, _) =>
        CountLoses(s);
    }
  }

  /** Some address is not among finitely many. */
  lemma {:induction false} LongerThanAll(taken: set<string>) returns (address: string)
    ensures address != "" && forall a :: a in taken ==> |a| < |address|
    decreases |taken|
  {
    if taken == {} {
      return "a";
    }
    var a :| a in taken;
    var rest := LongerThanAll(taken - {a});
    address := rest + a + "a";
    assert forall b :: b in taken ==> b == a || b in taken - {a};
  }

  lemma NewAddress(taken: set<string>) returns (address: string)
    ensures address != "" && address !in taken
  {
    address := LongerThanAll(taken);
  }

  // ---- A late success ----

  const QUEUED := Job("first", "", "label", "", 2, Queued, 0, 0, Some(0), "", "", NoCandidate)
  const RUNNING := QUEUED.(status := Running)
  const RESERVING := RUNNING.(candidate := "address", candidateState := Reserving)
  const TAKEN := World({"address"}, {"address"}, {}, {})

  /** A run whose reservation succeeds while its job is being cancelled. */
  const LATE_SUCCESS: seq<Event> := [
    StartWorker(0), Enqueue("label", 2, "", "", "first", 0), Tick(0), OpenSession(true), CheckCancel,
    AnswerGenerate(Some("address"), None), SaveCandidate, BeginReserve, Execute("address"), AnswerReserve(true, None),
    Cancel("first")]

  function Working(job: Job, run: Run, world: World): State {
    State(job, run, NotResuming, true, false, true, world)
  }

  const LATE := Working(RESERVING, ReserveAnswered(WithCandidate(RUNNING, "address"), 1, "address"), TAKEN)
    .(job := Controlled(RESERVING, Cancelled), canCancel := false, cancelled := true)

  const SAVED := WithCandidate(RUNNING, "address")

  /** The states that it goes through. */
  const LATE_STATES: seq<State> := [
    START, START.(worker := true), START.(worker := true, job := QUEUED),
    Working(RUNNING, Opening(RUNNING), NOTHING), Working(RUNNING, LoopHead(RUNNING), NOTHING),
    Working(RUNNING, Generating(RUNNING, 1), NOTHING), Working(RUNNING, HaveCandidate(RUNNING, 1, "address"), NOTHING),
    Working(SAVED, BeforeReserve(SAVED, 1, "address"), NOTHING),
    Working(RESERVING, InReserve(SAVED, 1, "address"), TAKEN.(held := {})),
    Working(RESERVING, InReserve(SAVED, 1, "address"), TAKEN),
    Working(RESERVING, ReserveAnswered(SAVED, 1, "address"), TAKEN), LATE]

  ghost predicate LateStep(i: nat)
    requires i < |LATE_SUCCESS| && |LATE_STATES| == |LATE_SUCCESS| + 1
  {
    MayHappen(LATE_STATES[i], LATE_SUCCESS[i]) && Next(LATE_STATES[i], LATE_SUCCESS[i]) == LATE_STATES[i + 1]
  }

  lemma EarlySteps(i: nat)
    requires i < 6
    ensures LateStep(i)
  {
    hide Conserved;
  }

  lemma LateSteps(i: nat)
    requires 6 <= i < 11
    ensures LateStep(i)
  {
    hide Conserved;
  }

  lemma {:induction false} LateFrom(i: nat)
    requires i <= |LATE_SUCCESS|
    ensures MayRun(LATE_STATES[i], LATE_SUCCESS[i..]) && After(LATE_STATES[i], LATE_SUCCESS[i..]) == LATE
    decreases |LATE_SUCCESS| - i
  {
    hide Next, MayHappen;
    if i < |LATE_SUCCESS| {
      if i < 6 {
        EarlySteps(i);
      } else {
        LateSteps(i);
      }
      LateFrom(i + 1);
      assert LATE_SUCCESS[i..][0] == LATE_SUCCESS[i] && LATE_SUCCESS[i..][1..] == LATE_SUCCESS[i + 1..];
    }
  }

  /** It can happen, and leads to a cancelled job with a live run. */
  lemma LateSuccessHappens()
    ensures MayRun(START, LATE_SUCCESS) && After(START, LATE_SUCCESS) == LATE
  {
    hide MayRun, After, Working;
    LateFrom(0);
    assert LATE_SUCCESS[0..] == LATE_SUCCESS;
  }

  /** If a job is queued then, the old run's success is counted in it: it claims an
      address that it does not hold. */
  lemma LateSuccessMiscounts()
    ensures Safe(LATE) && !Safe(EnqueueStep(LATE, "other", 3, "", "", "second", 1))
    ensures MayLose(EnqueueStep(LATE, "other", 3, "", "", "second", 1))
    ensures var after := CountStep(EnqueueStep(LATE, "other", 3, "", "", "second", 1));
            after.job.id == "second" && after.job.current == 1 && after.world.held == {}
  {
    hide Safe, MayLose, Conserved, After, MayRun;
    StartSafe();
    LateSuccessHappens();
    RunSafe(START, LATE_SUCCESS);
    EnqueueExactly(LATE, "other", 3, "", "", "second", 1);
  }
}
