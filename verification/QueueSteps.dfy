/** The batch alias queue as a state machine. A step is one section of code that
    holds the queue lock, or one answer of the alias service; everything else may
    come in between. */
module QueueSteps {
  import opened Wrappers

  datatype Status = Idle | Queued | Running | WaitingRateLimit | WaitingRetry | Paused | NeedsAttention | Completed | Cancelled

  datatype CandidateState = NoCandidate | Generated | Reserving

  /** The stored record of a job. */
  datatype Job = Job(
    id: string, requestId: string, baseLabel: string, note: string, requested: int, status: Status,
    current: int, success: int, nextAttempt: Option<int>, errorCode: string,
    candidate: string, candidateState: CandidateState)

  const NO_JOB := Job("", "", "", "", 0, Idle, 0, 0, None, "", "", NoCandidate)

  const MAXIMUM_COUNT := 99
  const COOLDOWN := 1800
  const RETRY := 60

  // ---- Sections that change the record ----

  datatype CreateError = RateLimited | InvalidCandidate | SessionExpired | Network | OtherError

  datatype Reply = Refused(code: string) | Accepted(job: Job)

  predicate Active(job: Job) {
    job.id != "" && job.status != Completed && job.status != Cancelled && job.status != Idle
  }

  function Enqueued(job: Job, base: string, count: int, note: string, requestId: string, newId: string, now: int): Reply {
    if base == "" then Refused("BAD_LABEL")
    else if count < 1 || count > MAXIMUM_COUNT then Refused("BAD_COUNT")
    else if |base| + 2 > 160 then Refused("BAD_LABEL")
    else if requestId != "" && job.requestId == requestId then
      if job.baseLabel == base && job.requested == count && job.note == note then Accepted(job)
      else Refused("IDEMPOTENCY_CONFLICT")
    else if Active(job) then Refused("QUEUE_ACTIVE")
    else Accepted(Job(newId, requestId, base, note, count, Queued, 0, 0, Some(now), "", "", NoCandidate))
  }

  function Recovered(job: Job, now: int): Job {
    if job.status != Running then job
    else if job.candidate != "" && job.candidateState == Reserving then
      job.(status := NeedsAttention, errorCode := "RESULT_CONFIRMATION_REQUIRED", nextAttempt := None)
    else job.(status := Queued, nextAttempt := Some(now))
  }

  predicate Controllable(job: Job, jobId: string) {
    job.id != "" && (jobId == "" || job.id == jobId) && job.status != Completed && job.status != Cancelled
  }

  function Controlled(job: Job, target: Status): Job {
    job.(status := target, nextAttempt := None)
  }

  predicate Resumable(job: Job, jobId: string) {
    job.id != "" && (jobId == "" || job.id == jobId) && (job.status == Paused || job.status == NeedsAttention)
  }

  function WithoutCandidate(job: Job): Job {
    job.(candidate := "", candidateState := NoCandidate)
  }

  /** The candidate of an interrupted reservation is settled by the alias list. */
  function Settled(job: Job, matched: bool): Job {
    WithoutCandidate(if matched then job.(current := job.current + 1, success := job.success + 1) else job)
  }

  function Resumed(job: Job, now: int): Job {
    if job.current >= job.requested then job.(status := Completed, nextAttempt := None)
    else job.(status := Queued, nextAttempt := Some(now))
  }

  predicate Due(job: Job, now: int) {
    job.id != "" && job.nextAttempt.Some? && job.nextAttempt.value <= now
    && (job.status == Queued || job.status == WaitingRateLimit || job.status == WaitingRetry)
  }

  function WithCandidate(job: Job, candidate: string): Job {
    job.(candidate := candidate, candidateState := Generated)
  }

  function Counted(job: Job, index: int): Job {
    var counted := WithoutCandidate(job.(current := index, success := index));
    if index >= job.requested then counted.(status := Completed, nextAttempt := None) else counted
  }

  /** A failure of another job's run changes nothing. */
  function Failed(job: Job, jobId: string, code: string, status: Status, delay: int, now: int): Job {
    if job.id != jobId then job
    else job.(status := status, errorCode := code, nextAttempt := if delay > 0 then Some(now + delay) else None)
  }

  function AfterCreateError(job: Job, jobId: string, error: CreateError, reserveStarted: bool, now: int): Job {
    match error
    case RateLimited => Failed(job, jobId, "RATE_LIMITED", WaitingRateLimit, COOLDOWN, now)
    case InvalidCandidate =>
      WithoutCandidate(job).(status := WaitingRetry, errorCode := "INVALID_CANDIDATE_RETRY", nextAttempt := Some(now + 2))
    case SessionExpired => Failed(job, jobId, "SESSION_EXPIRED", NeedsAttention, 0, now)
    case Network =>
      if reserveStarted then Failed(job, jobId, "RESULT_CONFIRMATION_REQUIRED", NeedsAttention, 0, now)
      else Failed(job, jobId, "NETWORK_RETRY", WaitingRetry, RETRY, now)
    case OtherError => Failed(job, jobId, "CREATE_ERROR", NeedsAttention, 0, now)
  }

  // ---- The machine ----

  /** Where the worker's run of a job stands. `index` numbers the address that it
      works on. */
  datatype Run =
    | NoRun
    | Opening(initial: Job)
    | LoopHead(initial: Job)
    | SawCancel(initial: Job)
    | Generating(initial: Job, index: int)
    | HaveCandidate(initial: Job, index: int, fresh': string)
    | BeforeReserve(initial: Job, index: int, address: string)
    | InReserve(initial: Job, index: int, address: string)
    | ReserveAnswered(initial: Job, index: int, address: string)
    | CreateFailed(initial: Job, error: CreateError, reserveStarted: bool)
    | Spacing(initial: Job)

  datatype Resume =
    | NotResuming
    | Listing(address: string, confirmUncertain: bool)
    | Settling(address: string, matched: bool)
    | Finishing

  /** What the alias service did for the stored job. `possible` are the addresses
      that a request has taken or may still take, `held` the taken ones, and
      `counted` the ones that the job has counted. `earlier` are those that
      requests for earlier jobs have taken or may still take. */
  datatype World = World(held: set<string>, possible: set<string>, counted: set<string>, earlier: set<string>)

  const NOTHING := World({}, {}, {}, {})

  /** A new job is stored: what was asked for belongs to an earlier one. */
  function NextJob(world: World): World {
    World({}, {}, {}, world.earlier + world.possible)
  }

  datatype State = State(job: Job, run: Run, resume: Resume, canCancel: bool, cancelled: bool, worker: bool, world: World)

  datatype Event =
    // control calls
    | StartWorker(now: int)
    | Enqueue(base: string, count: int, note: string, requestId: string, newId: string, now: int)
    | Pause(jobId: string)
    | Cancel(jobId: string)
    | BeginResume(jobId: string, confirmUncertain: bool)
    | AnswerList(matched: Option<bool>)
    | Settle
    | FinishResume(now: int)
    // the worker
    | Tick(now: int)
    | OpenSession(works: bool)
    | CheckCancel
    | StopPaused
    | AnswerGenerate(generated: Option<string>, error: Option<CreateError>)
    | SaveCandidate
    | BeginReserve
    | AnswerReserve(ok: bool, error: Option<CreateError>)
    | Count
    | HandleError(now: int)
    | EndSpacing(timer: bool)
    // the environment
    | Execute(address: string)
    | Crash

  function Forget(world: World, address: string): World {
    world.(possible := world.possible - {address})
  }

  function Control(s: State, jobId: string, target: Status): State {
    if !Controllable(s.job, jobId) then s
    else s.(job := Controlled(s.job, target), cancelled := s.cancelled || s.canCancel, canCancel := false)
  }

  /** The head of the loop: the run is over when the job has all its addresses. */
  function AtLoop(s: State, initial: Job): State {
    if initial.current < initial.requested then s.(run := LoopHead(initial)) else Ended(s)
  }

  function Ended(s: State): State {
    s.(run := NoRun, canCancel := false)
  }

  function StartWorkerStep(s: State, now: int): State {
    if s.worker then s else s.(job := Recovered(s.job, now), worker := true)
  }

  function EnqueueStep(s: State, base: string, count: int, note: string, requestId: string, newId: string, now: int): State {
    var reply := Enqueued(s.job, base, count, note, requestId, newId, now);
    if reply.Accepted? && reply.job != s.job then s.(job := reply.job, world := NextJob(s.world)) else s
  }

  function BeginResumeStep(s: State, jobId: string, confirmUncertain: bool): State {
    if !Resumable(s.job, jobId) then s
    else if s.job.status == NeedsAttention && s.job.candidate != "" then s.(resume := Listing(s.job.candidate, confirmUncertain))
    else s.(resume := Finishing)
  }

  function AnswerListStep(s: State, matched: Option<bool>): State {
    if !s.resume.Listing? then s
    else if matched.None? || (!matched.value && !s.resume.confirmUncertain) then s.(resume := NotResuming)
    else s.(resume := Settling(s.resume.address, matched.value),
            world := if matched.value then s.world else Forget(s.world, s.resume.address))
  }

  function SettleStep(s: State): State {
    if !s.resume.Settling? then s
    else s.(job := Settled(s.job, s.resume.matched), resume := Finishing,
            world := if s.resume.matched then s.world.(counted := s.world.counted + {s.resume.address}) else s.world)
  }

  function FinishResumeStep(s: State, now: int): State {
    if !s.resume.Finishing? then s else s.(job := Resumed(s.job, now), resume := NotResuming)
  }

  function TickStep(s: State, now: int): State {
    if !s.worker || !Due(s.job, now) then s
    else
      var started := s.job.(status := Running);
      s.(job := started, run := Opening(started), canCancel := true, cancelled := false)
  }

  function OpenSessionStep(s: State, works: bool): State {
    if !s.run.Opening? then s
    else if !works then Ended(s.(job := Failed(s.job, s.run.initial.id, "SESSION_ERROR", NeedsAttention, 0, 0)))
    else AtLoop(s, s.run.initial)
  }

  function CheckCancelStep(s: State): State {
    if !s.run.LoopHead? then s
    else if s.cancelled then
      if s.job.status == Cancelled then Ended(s) else s.(run := SawCancel(s.run.initial))
    else
      var initial := s.run.initial;
      var index := initial.current + 1;
      if initial.candidate == "" then s.(run := Generating(initial, index))
      else s.(run := BeforeReserve(initial, index, initial.candidate))
  }

  function StopPausedStep(s: State): State {
    if !s.run.SawCancel? then s
    else Ended(s.(job := Failed(s.job, s.run.initial.id, "CANCELLED", Paused, 0, 0)))
  }

  function AnswerGenerateStep(s: State, generated: Option<string>, error: Option<CreateError>): State {
    if !s.run.Generating? then s
    else if generated.Some? then s.(run := HaveCandidate(s.run.initial, s.run.index, generated.value))
    else if error.None? then Ended(s)
    else s.(run := CreateFailed(s.run.initial, error.value, false))
  }

  function SaveCandidateStep(s: State): State {
    if !s.run.HaveCandidate? then s
    else
      var saved := WithCandidate(s.job, s.run.fresh');
      s.(job := saved, run := BeforeReserve(saved, s.run.index, s.run.fresh'))
  }

  function BeginReserveStep(s: State): State {
    if !s.run.BeforeReserve? then s
    else if s.job.status == Cancelled || s.job.status == Paused then Ended(s)
    else s.(job := s.job.(candidateState := Reserving), run := InReserve(s.run.initial, s.run.index, s.run.address),
            world := s.world.(possible := s.world.possible + {s.run.address}))
  }

  function AnswerReserveStep(s: State, ok: bool, error: Option<CreateError>): State {
    if !s.run.InReserve? then s
    else if ok then s.(run := ReserveAnswered(s.run.initial, s.run.index, s.run.address))
    else if error.None? then Ended(s)
    else s.(run := CreateFailed(s.run.initial, error.value, true),
            world := if error.value == InvalidCandidate then Forget(s.world, s.run.address) else s.world)
  }

  function CountStep(s: State): State {
    if !s.run.ReserveAnswered? then s
    else
      var counted := Counted(s.job, s.run.index);
      var after := s.(job := counted, world := s.world.(counted := s.world.counted + {s.run.address}));
      if s.run.index < counted.requested then after.(run := Spacing(counted)) else AtLoop(after, counted)
  }

  function HandleErrorStep(s: State, now: int): State {
    if !s.run.CreateFailed? then s
    else Ended(s.(job := AfterCreateError(s.job, s.run.initial.id, s.run.error, s.run.reserveStarted, now)))
  }

  function EndSpacingStep(s: State, timer: bool): State {
    if !s.run.Spacing? then s else if timer then AtLoop(s, s.run.initial) else Ended(s)
  }

  function Executed(s: State, address: string): State {
    if address in s.world.possible then s.(world := s.world.(held := s.world.held + {address})) else s
  }

  function Crashed(s: State): State {
    s.(run := NoRun, resume := NotResuming, canCancel := false, cancelled := false, worker := false)
  }

  function Next(s: State, event: Event): State {
    match event
    case StartWorker(now) => StartWorkerStep(s, now)
    case Enqueue(base, count, note, requestId, newId, now) => EnqueueStep(s, base, count, note, requestId, newId, now)
    case Pause(jobId) => Control(s, jobId, Paused)
    case Cancel(jobId) => Control(s, jobId, Cancelled)
    case BeginResume(jobId, confirmUncertain) => BeginResumeStep(s, jobId, confirmUncertain)
    case AnswerList(matched) => AnswerListStep(s, matched)
    case Settle => SettleStep(s)
    case FinishResume(now) => FinishResumeStep(s, now)
    case Tick(now) => TickStep(s, now)
    case OpenSession(works) => OpenSessionStep(s, works)
    case CheckCancel => CheckCancelStep(s)
    case StopPaused => StopPausedStep(s)
    case AnswerGenerate(generated, error) => AnswerGenerateStep(s, generated, error)
    case SaveCandidate => SaveCandidateStep(s)
    case BeginReserve => BeginReserveStep(s)
    case AnswerReserve(ok, error) => AnswerReserveStep(s, ok, error)
    case Count => CountStep(s)
    case HandleError(now) => HandleErrorStep(s, now)
    case EndSpacing(timer) => EndSpacingStep(s, timer)
    case Execute(address) => Executed(s, address)
    case Crash => Crashed(s)
  }

  /** What the environment promises. One run at a time and no overlapping control
      calls; a new job has a new identifier; a generated address is new; a successful answer is true; a refusal
      as invalid, and a user's confirmation, are for an address that is not held
      and will not be; the alias list is true. */
  ghost predicate MayHappen(s: State, event: Event) {
    match event
    case Enqueue(_, _, _, _, newId, _) => s.run.NoRun? && s.resume.NotResuming? && newId != "" && newId != s.job.id
    case Pause(_) => s.resume.NotResuming?
    case Cancel(_) => s.resume.NotResuming?
    case BeginResume(_, _) => s.resume.NotResuming?
    case Tick(_) => s.run.NoRun?
    case AnswerList(matched) =>
      s.resume.Listing? && matched.Some? ==> (matched.value <==> s.resume.address in s.world.held)
    case AnswerGenerate(generated, error) =>
      && (s.run.Generating? && generated.Some? ==> generated.value != "" && generated.value !in s.world.possible + s.world.earlier)
    case AnswerReserve(ok, error) =>
      s.run.InReserve? ==>
        && (ok ==> s.run.address in s.world.held + s.world.earlier)
        && (!ok && error == Some(InvalidCandidate) ==> s.run.address !in s.world.held)
    case _ => true
  }
}
