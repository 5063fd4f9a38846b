/** No address is lost or made twice: conservation over every run of the queue. */
module QueueSafety {
  import opened Wrappers
  import opened QueueSteps

  function CandidateOf(job: Job): set<string> {
    if job.candidate == "" then {} else {job.candidate}
  }

  predicate Unfinished(status: Status) {
    status == Queued || status == Running || status == WaitingRateLimit || status == WaitingRetry
  }

  /** Held addresses are the counted ones and at most the stored candidate, and
      the counters say how many were counted. */
  ghost predicate Conserved(job: Job, world: World) {
    && world.counted <= world.held <= world.possible <= world.counted + CandidateOf(job)
    && job.candidate !in world.counted && "" !in world.possible
    && job.current == job.success == |world.counted| <= job.requested
    && (job.candidate != "" || Unfinished(job.status) ==> job.current < job.requested)
    && (job.status == Completed ==> job.current == job.requested)
    && (job.candidate == "" <==> job.candidateState == NoCandidate)
  }

  /** The run's copy of the record agrees with the stored one where it matters. */
  ghost predicate Agrees(initial: Job, job: Job) {
    initial.id == job.id && initial.requested == job.requested && initial.current == job.current < job.requested
  }

  ghost predicate RunAgrees(s: State) {
    match s.run
    case NoRun => true
    case Opening(initial) => Agrees(initial, s.job) && initial.candidate == s.job.candidate
    case LoopHead(initial) => Agrees(initial, s.job) && initial.candidate == s.job.candidate
    case SawCancel(initial) => Agrees(initial, s.job)
    case Generating(initial, index) => Agrees(initial, s.job) && s.job.candidate == "" && index == s.job.current + 1
    case HaveCandidate(initial, index, address) =>
      Agrees(initial, s.job) && s.job.candidate == "" && index == s.job.current + 1 && address != ""
      && address !in s.world.possible + s.world.earlier
    case BeforeReserve(initial, index, address) =>
      Agrees(initial, s.job) && index == s.job.current + 1 && address != "" && s.job.candidate == address
    case InReserve(initial, index, address) =>
      Agrees(initial, s.job) && index == s.job.current + 1 && address != "" && s.job.candidate == address
      && address in s.world.possible && s.job.candidateState == Reserving
    case ReserveAnswered(initial, index, address) =>
      Agrees(initial, s.job) && index == s.job.current + 1 && address != "" && s.job.candidate == address && address in s.world.held
    case CreateFailed(initial, error, reserveStarted) =>
      Agrees(initial, s.job) && (error == InvalidCandidate ==> s.job.candidate !in s.world.possible)
      && (reserveStarted ==> s.job.candidate != "" && s.job.candidateState == Reserving)
    case Spacing(initial) => Agrees(initial, s.job) && initial.candidate == s.job.candidate
  }

  ghost predicate ResumeAgrees(s: State) {
    match s.resume
    case NotResuming => true
    case Listing(address, _) =>
      s.run.NoRun? && s.job.status == NeedsAttention && s.job.candidate == address != ""
    case Settling(address, matched) =>
      && s.run.NoRun? && s.job.status == NeedsAttention && s.job.candidate == address != ""
      && (if matched then address in s.world.held else address !in s.world.possible)
    case Finishing => s.job.id != ""
  }

  ghost predicate Safe(s: State) {
    && Conserved(s.job, s.world) && RunAgrees(s) && ResumeAgrees(s)
    && (if s.job.id == "" then s.job == NO_JOB && s.run.NoRun? else s.job.status != Idle)
    && (s.job.status == NeedsAttention ==> s.run.NoRun?)
    && (!s.worker ==> s.run.NoRun?)
    && Told(s) && "" !in s.world.earlier && s.job.candidate !in s.world.earlier
  }

  /** A live run can still be told to stop or has been, and it has been if its job
      is paused or cancelled. */
  ghost predicate Told(s: State) {
    s.run.NoRun? || s.cancelled || (s.canCancel && s.job.status != Paused && s.job.status != Cancelled)
  }

  lemma StartWorkerSafe(s: State, now: int)
    requires Safe(s)
    ensures Safe(StartWorkerStep(s, now))
  {
  }

  lemma EnqueueSafe(s: State, base: string, count: int, note: string, requestId: string, newId: string, now: int)
    requires Safe(s)
    requires s.run.NoRun? && s.resume.NotResuming? && newId != "" && newId != s.job.id
    ensures Safe(EnqueueStep(s, base, count, note, requestId, newId, now))
  {
  }

  lemma ControlSafe(s: State, jobId: string, target: Status)
    requires Safe(s)
    requires s.resume.NotResuming? && (target == Paused || target == Cancelled)
    ensures Safe(Control(s, jobId, target))
  {
  }

  lemma BeginResumeSafe(s: State, jobId: string, confirmUncertain: bool)
    requires Safe(s)
    requires s.resume.NotResuming?
    ensures Safe(BeginResumeStep(s, jobId, confirmUncertain))
  {
    hide Conserved;
  }

  lemma AnswerListSafe(s: State, matched: Option<bool>)
    requires Safe(s)
    requires s.resume.Listing? && matched.Some? ==> (matched.value <==> s.resume.address in s.world.held)
    ensures Safe(AnswerListStep(s, matched))
  {
  }

  lemma SettleSafe(s: State)
    requires Safe(s)
    ensures Safe(SettleStep(s))
  {
  }

  lemma FinishResumeSafe(s: State, now: int)
    requires Safe(s)
    ensures Safe(FinishResumeStep(s, now))
  {
  }

  lemma TickSafe(s: State, now: int)
    requires Safe(s)
    requires s.run.NoRun?
    ensures Safe(TickStep(s, now))
  {
  }

  lemma OpenSessionSafe(s: State, works: bool)
    requires Safe(s)
    ensures Safe(OpenSessionStep(s, works))
  {
  }

  lemma CheckCancelSafe(s: State)
    requires Safe(s)
    ensures Safe(CheckCancelStep(s))
  {
    hide Conserved;
  }

  lemma StopPausedSafe(s: State)
    requires Safe(s)
    ensures Safe(StopPausedStep(s))
  {
  }

  lemma AnswerGenerateSafe(s: State, generated: Option<string>, error: Option<CreateError>)
    requires Safe(s)
    requires s.run.Generating? && generated.Some? ==> generated.value != "" && generated.value !in s.world.possible + s.world.earlier
    ensures Safe(AnswerGenerateStep(s, generated, error))
  {
  }

  lemma SaveCandidateSafe(s: State)
    requires Safe(s)
    ensures Safe(SaveCandidateStep(s))
  {
  }

  lemma BeginReserveSafe(s: State)
    requires Safe(s)
    ensures Safe(BeginReserveStep(s))
  {
    hide Conserved;
    if s.run.BeforeReserve? {
      ReserveConserved(s.job, s.world, s.run.address);
    }
  }

  lemma ReserveConserved(job: Job, world: World, address: string)
    requires Conserved(job, world) && job.candidate == address != ""
    ensures Conserved(job.(candidateState := Reserving), world.(possible := world.possible + {address}))
  {
  }

  lemma AnswerReserveSafe(s: State, ok: bool, error: Option<CreateError>)
    requires Safe(s)
    requires MayHappen(s, AnswerReserve(ok, error))
    ensures Safe(AnswerReserveStep(s, ok, error))
  {
  }

  lemma CountSafe(s: State)
    requires Safe(s)
    ensures Safe(CountStep(s))
  {
    hide Conserved;
    if s.run.ReserveAnswered? {
      CountConserved(s.job, s.world, s.run.index, s.run.address);
    }
  }

  lemma CountConserved(job: Job, world: World, index: int, address: string)
    requires Conserved(job, world) && address == job.candidate != "" && address in world.held && index == job.current + 1
    ensures Conserved(Counted(job, index), world.(counted := world.counted + {address}))
    ensures job.current < job.requested
  {
  }

  lemma HandleErrorSafe(s: State, now: int)
    requires Safe(s)
    ensures Safe(HandleErrorStep(s, now))
  {
    hide Conserved;
    if s.run.CreateFailed? {
      ErrorConserved(s.job, s.world, s.run.initial.id, s.run.error, s.run.reserveStarted, now);
    }
  }

  lemma ErrorConserved(job: Job, world: World, jobId: string, error: CreateError, reserveStarted: bool, now: int)
    requires Conserved(job, world) && job.current < job.requested
    requires error == InvalidCandidate ==> job.candidate !in world.possible
    ensures Conserved(AfterCreateError(job, jobId, error, reserveStarted, now), world)
  {
  }

  lemma EndSpacingSafe(s: State, timer: bool)
    requires Safe(s)
    ensures Safe(EndSpacingStep(s, timer))
  {
    hide Conserved;
  }

  lemma ExecuteSafe(s: State, address: string)
    requires Safe(s)
    ensures Safe(Executed(s, address))
  {
  }

  lemma CrashSafe(s: State)
    requires Safe(s)
    ensures Safe(Crashed(s))
  {
    hide Conserved;
  }

  lemma StepSafe(s: State, event: Event)
    requires Safe(s) && MayHappen(s, event)
    ensures Safe(Next(s, event))
  {
    hide Safe, StartWorkerStep, EnqueueStep, Control, BeginResumeStep, AnswerListStep, SettleStep,
      FinishResumeStep, TickStep, OpenSessionStep, CheckCancelStep, StopPausedStep, AnswerGenerateStep,
      SaveCandidateStep, BeginReserveStep, AnswerReserveStep, CountStep, HandleErrorStep, EndSpacingStep, Executed,
      Crashed;
    match event {
      case StartWorker(now) => StartWorkerSafe(s, now);
      case Enqueue(base, count, note, requestId, newId, now) => EnqueueSafe(s, base, count, note, requestId, newId, now);
      case Pause(jobId) => ControlSafe(s, jobId, Paused);
      case Cancel(jobId) => ControlSafe(s, jobId, Cancelled);
      case BeginResume(jobId, confirmUncertain) => BeginResumeSafe(s, jobId, confirmUncertain);
      case AnswerList(matched) => AnswerListSafe(s, matched);
      case Settle => SettleSafe(s);
      case FinishResume(now) => FinishResumeSafe(s, now);
      case Tick(now) => TickSafe(s, now);
      case OpenSession(works) => OpenSessionSafe(s, works);
      case CheckCancel => CheckCancelSafe(s);
      case StopPaused => StopPausedSafe(s);
      case AnswerGenerate(generated, error) => AnswerGenerateSafe(s, generated, error);
      case SaveCandidate => SaveCandidateSafe(s);
      case BeginReserve => BeginReserveSafe(s);
      case AnswerReserve(ok, error) => AnswerReserveSafe(s, ok, error);
      case Count => CountSafe(s);
      case HandleError(now) => HandleErrorSafe(s, now);
      case EndSpacing(timer) => EndSpacingSafe(s, timer);
      case Execute(address) => ExecuteSafe(s, address);
      case Crash => CrashSafe(s);
    }
  }

  ghost predicate MayRun(s: State, events: seq<Event>)
    decreases events
  {
    events == [] || (MayHappen(s, events[0]) && MayRun(Next(s, events[0]), events[1..]))
  }

  function After(s: State, events: seq<Event>): State
    decreases events
  {
    if events == [] then s else After(Next(s, events[0]), events[1..])
  }

  const START := State(NO_JOB, NoRun, NotResuming, false, false, false, NOTHING)

  lemma {:induction false} RunSafe(s: State, events: seq<Event>)
    requires Safe(s) && MayRun(s, events)
    ensures Safe(After(s, events))
    decreases events
  {
    hide Safe, Next, MayHappen;
    if events != [] {
      StepSafe(s, events[0]);
      RunSafe(Next(s, events[0]), events[1..]);
    }
  }

  /** What the methods of the queue rely on. */
  lemma SafeFacts(s: State)
    requires Safe(s)
    ensures s.job.current == s.job.success == |s.world.counted| <= s.job.requested
    ensures s.job.status == Completed ==> s.job.current == s.job.requested
    ensures Unfinished(s.job.status) ==> s.job.current < s.job.requested
    ensures s.run.BeforeReserve? ==> s.job.candidate == s.run.address
    ensures s.run.CreateFailed? ==> s.run.initial.id == s.job.id
    ensures s.run.ReserveAnswered? ==> s.run.index == s.job.current + 1 <= s.job.requested
  {
  }

  /** A run that was told to stop ends at the head of its loop; its job is then
      cancelled if the user cancelled it, and paused otherwise. */
  lemma ToldRunStops(s: State)
    requires Safe(s) && s.run.LoopHead? && s.cancelled
    ensures if s.job.status == Cancelled then Next(s, CheckCancel) == s.(run := NoRun, canCancel := false)
            else var stopped := Next(Next(s, CheckCancel), StopPaused);
                 && stopped.run.NoRun? && stopped.job.candidate == s.job.candidate
                 && stopped.job.status == Paused && stopped.job.nextAttempt.None? && stopped.job.errorCode == "CANCELLED"
  {
    hide Conserved;
  }

  // ---- What that means for the user ----

  /** From an empty queue, whatever happens: the addresses that the job holds, or
      that a request of it may still take, never outnumber what was requested. */
  lemma NeverTooMany(events: seq<Event>)
    requires MayRun(START, events)
    ensures var s := After(START, events);
            && |s.world.possible| <= s.job.requested
            && s.world.counted <= s.world.held <= s.world.counted + CandidateOf(s.job)
            && s.job.current == s.job.success == |s.world.counted|
  {
    StartSafe();
    RunSafe(START, events);
    var s := After(START, events);
    SubsetSize(s.world.possible, s.world.counted + CandidateOf(s.job));
  }

  /** A completed job holds exactly as many addresses as were requested, and has
      counted each of them. */
  lemma CompletedIsExact(events: seq<Event>)
    requires MayRun(START, events)
    ensures var s := After(START, events);
            s.job.status == Completed ==> s.world.held == s.world.counted && |s.world.held| == s.job.requested
  {
    StartSafe();
    RunSafe(START, events);
  }

  lemma StartSafe()
    ensures Safe(START)
  {
  }
}
