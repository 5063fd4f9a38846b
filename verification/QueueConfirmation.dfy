/** A reservation whose result is unknown: nothing is asked for again until somebody
    says what became of it. */
module QueueConfirmation {
  import opened Wrappers
  import opened QueueSteps
  import opened QueueSafety

  /** A reservation of the candidate was sent and no answer to it is known. A job
      that the process left running is not taken up again before a restart. */
  ghost predicate Uncertain(s: State) {
    && s.run.NoRun? && s.job.id != "" && s.job.candidate != "" && s.job.candidateState == Reserving
    && (s.job.status == NeedsAttention || s.job.status == Cancelled || (s.job.status == Running && !s.worker))
    && (s.resume.NotResuming? || (s.resume.Listing? && !s.resume.confirmUncertain))
  }

  /** What may lead to another request: the alias list has the candidate, the user
      confirms that it was not created, pauses the job, or queues another one. */
  predicate Releases(event: Event) {
    match event
    case AnswerList(matched) => matched == Some(true)
    case BeginResume(_, confirmUncertain) => confirmUncertain
    case Pause(_) => true
    case Enqueue(_, _, _, _, _, _) => true
    case _ => false
  }

  /** A network failure of a reservation leaves it uncertain unless a resume is
      under way, and so does a crash during one, unless the job was paused. */
  lemma BecomesUncertain(s: State, now: int)
    requires Safe(s)
    ensures s.run.CreateFailed? && s.run.error == Network ==>
              Next(s, HandleError(now)).job.candidate == s.job.candidate && Next(s, HandleError(now)).job.current == s.job.current
    ensures Next(s, Crash).job == s.job
    ensures s.run.CreateFailed? && s.run.error == Network && s.run.reserveStarted && s.resume.NotResuming? ==>
              Uncertain(Next(s, HandleError(now)))
    ensures s.run.InReserve? && (s.job.status == Running || s.job.status == Cancelled) ==> Uncertain(Next(s, Crash))
  {
    hide Conserved;
  }

  lemma StaysUncertain(s: State, event: Event)
    requires Uncertain(s) && !Releases(event)
    ensures Uncertain(Next(s, event))
    ensures Next(s, event).job.candidate == s.job.candidate && Next(s, event).job.current == s.job.current
  {
  }

  /** Over any events, crashes and restarts included: while nothing releases it, no
      run starts, so no reservation is sent, and the candidate is kept. */
  lemma {:induction false} NoSilentRetry(s: State, events: seq<Event>)
    requires Uncertain(s) && forall event :: event in events ==> !Releases(event)
    ensures Uncertain(After(s, events))
    ensures After(s, events).job.candidate == s.job.candidate && After(s, events).job.current == s.job.current
    decreases events
  {
    hide Uncertain, Releases, Next;
    if events != [] {
      assert events[0] in events;
      StaysUncertain(s, events[0]);
      NoSilentRetry(Next(s, events[0]), events[1..]);
    }
  }

  /** From an empty queue: after a reservation failed in the network, or the process
      crashed during one, nothing is reserved until something releases it. */
  lemma NoSilentRetryFromStart(before: seq<Event>, failure: Event, after: seq<Event>)
    requires MayRun(START, before) && forall event :: event in after ==> !Releases(event)
    requires var s := After(START, before);
             || (failure.HandleError? && s.run.CreateFailed? && s.run.error == Network && s.run.reserveStarted && s.resume.NotResuming?)
             || (failure.Crash? && s.run.InReserve? && (s.job.status == Running || s.job.status == Cancelled))
    ensures var s := After(START, before);
            var t := After(Next(s, failure), after);
            t.run.NoRun? && t.job.candidate == s.job.candidate && t.job.current == s.job.current
  {
    hide Uncertain, Releases;
    StartSafe();
    RunSafe(START, before);
    var s := After(START, before);
    hide After, MayRun;
    BecomesUncertain(s, if failure.HandleError? then failure.now else 0);
    NoSilentRetry(Next(s, failure), after);
    UncertainIsIdle(After(Next(s, failure), after));
  }

  lemma UncertainIsIdle(s: State)
    requires Uncertain(s)
    ensures s.run.NoRun?
  {
  }

  // ---- Pausing releases ----

  /** The candidate is reserved again in some run in which nothing but pausing
      releases it. */
  ghost predicate MayAskAgain(s: State, address: string) {
    exists events :: MayRun(s, events) && OnlyPauses(events) && AsksFor(After(s, events), address)
  }

  ghost predicate OnlyPauses(events: seq<Event>) {
    forall i :: 0 <= i < |events| ==> events[i].Pause? || !Releases(events[i])
  }

  ghost predicate AsksFor(s: State, address: string) {
    s.run.InReserve? && s.run.address == address
  }

  lemma AsksNow(s: State, address: string)
    requires AsksFor(s, address)
    ensures MayAskAgain(s, address)
  {
    assert MayRun(s, []) && OnlyPauses([]) && After(s, []) == s;
  }

  lemma AsksLater(s: State, event: Event, address: string)
    requires MayHappen(s, event) && (event.Pause? || !Releases(event)) && MayAskAgain(Next(s, event), address)
    ensures MayAskAgain(s, address)
  {
    hide MayHappen, Next, Releases, AsksFor;
    var events :| MayRun(Next(s, event), events) && OnlyPauses(events) && AsksFor(After(Next(s, event), events), address);
    var all := [event] + events;
    assert all[0] == event && all[1..] == events;
    assert MayRun(s, all) && OnlyPauses(all) && AsksFor(After(s, all), address);
  }

  /** Pausing and resuming a job that needs attention skips the question: its
      candidate is reserved again although nobody said what became of it. */
  lemma PauseRetries(s: State, now: int)
    requires Safe(s) && Uncertain(s) && s.job.status == NeedsAttention && s.worker && s.resume.NotResuming?
    ensures MayAskAgain(s, s.job.candidate)
  {
    hide MayAskAgain, MayHappen;
    var s1 := Next(s, Pause(""));
    var s2 := Next(s1, BeginResume("", false));
    var s3 := Next(s2, FinishResume(now));
    SafeFacts(s);
    CandidateUnfinished(s);
    DueAsks(s3, now);
    hide Next;
    MayAlways(s, s1, s2, now);
    AsksLater(s2, FinishResume(now), s.job.candidate);
    AsksLater(s1, BeginResume("", false), s.job.candidate);
    AsksLater(s, Pause(""), s.job.candidate);
  }

  lemma CandidateUnfinished(s: State)
    requires Safe(s) && s.job.candidate != ""
    ensures s.job.current < s.job.requested
  {
  }

  lemma MayAlways(s: State, s1: State, s2: State, now: int)
    requires Uncertain(s) && s.resume.NotResuming? && s1 == Next(s, Pause("")) && s2 == Next(s1, BeginResume("", false))
    ensures MayHappen(s, Pause("")) && MayHappen(s1, BeginResume("", false)) && MayHappen(s2, FinishResume(now))
  {
  }

  lemma DueAsks(s: State, now: int)
    requires s.job.status == Queued && s.job.nextAttempt == Some(now) && s.job.candidate != ""
    requires s.run.NoRun? && s.worker && s.job.id != "" && s.job.current < s.job.requested
    ensures MayAskAgain(s, s.job.candidate)
  {
    hide MayAskAgain;
    var s1 := Next(s, Tick(now));
    var s2 := Next(s1, OpenSession(true));
    var s3 := Next(s2, CheckCancel);
    AsksNow(Next(s3, BeginReserve), s.job.candidate);
    AsksLater(s3, BeginReserve, s.job.candidate);
    AsksLater(s2, CheckCancel, s.job.candidate);
    AsksLater(s1, OpenSession(true), s.job.candidate);
    AsksLater(s, Tick(now), s.job.candidate);
  }
}
