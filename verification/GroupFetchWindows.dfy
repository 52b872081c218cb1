/**
 * The fetch window of a group over runs: what the fetches that a run records make
 * of the attempts, the end of the window, the head that it reached and the denial.
 */
module GroupFetchWindows {
  import opened Options
  import opened Sequences
  import opened GroupReceiveRecord
  import opened GroupFetchModel
  import opened GroupFetchClaims

  /** The event records the outcome of a fetch of the group that called the server. */
  predicate RecordsServerFetch(w: World, e: Event, group: string) {
    e.RecordFetch? && e.group == group && group in w.inFlight && w.inFlight[group].serverCall
  }

  function WindowOf(w: World, group: string): FetchState {
    if group in w.store then w.store[group].receive.init else FetchState(0, 0, None, [], None)
  }

  /** The record of the group lives, and no server fetch of the group is recorded. */
  ghost predicate RecordsNone(w: World, events: seq<Event>, group: string)
    requires ValidRun(w, events)
    decreases |events|
  {
    && group in w.store
    && (events == []
        || (!RecordsServerFetch(w, events[0], group) && RecordsNone(Next(w, events[0]), events[1..], group)))
  }

  lemma OtherEventsKeepTheWindow(w: World, e: Event, group: string)
    requires Enabled(w, e) && group in w.store && group in Next(w, e).store && !RecordsServerFetch(w, e, group)
    ensures WindowOf(Next(w, e), group) == WindowOf(w, group)
  {
    if e.RecordFetch? && e.group == group {
      CarriedChangeLeavesTheWindow(w, group, e.outcome);
    } else {
      OnlyRecordsChangeWindows(w, e, group);
    }
  }

  /** Nothing but a recorded server fetch changes the window of a group that lives. */
  lemma {:induction false} TheWindowStays(w: World, events: seq<Event>, group: string)
    requires ValidRun(w, events) && RecordsNone(w, events, group)
    ensures WindowOf(Run(w, events), group) == WindowOf(w, group)
    decreases |events|
  {
    if events != [] {
      OtherEventsKeepTheWindow(w, events[0], group);
      TheWindowStays(Next(w, events[0]), events[1..], group);
    }
  }

  /** What one recorded server fetch makes of the window of its group. */
  ghost predicate OpensWindow(before: FetchState, after: FetchState, outcome: Outcome, now: int) {
    match outcome
    case Synced(head, _) =>
      after.attempts == 0 && after.nextAttemptAt == now + GROUP_FETCH_WINDOW_MS && after.head == Some(head)
      && after.denied == None
    case Refused(reason) =>
      after.attempts == before.attempts + 1 && after.nextAttemptAt == now + BackoffMs(after.attempts)
      && after.head == None && after.denied.Some? && after.denied.value.reason == reason
    case Failed =>
      after.attempts == before.attempts + 1 && after.nextAttemptAt == now + BackoffMs(after.attempts)
      && after.head == None && after.denied == before.denied
  }

  /** The claims of an open window stay, those of a closed one go, and the target of the fetch is counted once. */
  ghost predicate CountsTarget(before: FetchState, after: FetchState, target: int, now: int) {
    var kept := if now < before.nextAttemptAt then before.fetchedClaims else [];
    && kept <= after.fetchedClaims
    && (forall claim :: claim in after.fetchedClaims <==> claim in kept || claim == target)
    && (Unique(kept) ==> Unique(after.fetchedClaims))
  }

  lemma RecordedFetchOpensTheWindow(w: World, e: Event, group: string)
    requires Enabled(w, e) && RecordsServerFetch(w, e, group)
    ensures group in Next(w, e).store
    ensures OpensWindow(WindowOf(w, group), WindowOf(Next(w, e), group), e.outcome, w.now)
    ensures CountsTarget(WindowOf(w, group), WindowOf(Next(w, e), group), w.inFlight[group].target, w.now)
  {
    var before, after := WindowOf(w, group), WindowOf(Next(w, e), group);
    var kept := if w.now < before.nextAttemptAt then before.fetchedClaims else [];
    assert after.fetchedClaims == if w.inFlight[group].target in kept then kept else kept + [w.inFlight[group].target];
  }

  /**
   * The last server fetch that a run records decides the window, however many other
   * events come after it: a sync sets the attempts back and keeps its head for 30
   * seconds, and a refused or failed fetch adds an attempt, forgets the head and
   * backs off. Each counts its target once.
   */
  lemma TheLastFetchDecidesTheWindow(w: World, e: Event, events: seq<Event>, group: string)
    requires Enabled(w, e) && RecordsServerFetch(w, e, group)
    requires ValidRun(Next(w, e), events) && RecordsNone(Next(w, e), events, group)
    ensures OpensWindow(WindowOf(w, group), WindowOf(Run(Next(w, e), events), group), e.outcome, w.now)
    ensures CountsTarget(WindowOf(w, group), WindowOf(Run(Next(w, e), events), group), w.inFlight[group].target, w.now)
  {
    RecordedFetchOpensTheWindow(w, e, group);
    TheWindowStays(Next(w, e), events, group);
  }

  // --- Failures in a row ----------------------------------------------------------------------

  /** The record lives, and every server fetch that the run records is refused or fails. */
  ghost predicate OnlyFailures(w: World, events: seq<Event>, group: string)
    requires ValidRun(w, events)
    decreases |events|
  {
    && group in w.store
    && (events == []
        || (&& (RecordsServerFetch(w, events[0], group) ==> !events[0].outcome.Synced?)
            && OnlyFailures(Next(w, events[0]), events[1..], group)))
  }

  /** The number of server fetches of the group that the run records. */
  function FetchCount(w: World, events: seq<Event>, group: string): nat
    requires ValidRun(w, events)
    decreases |events|
  {
    if events == [] then 0
    else (if RecordsServerFetch(w, events[0], group) then 1 else 0) + FetchCount(Next(w, events[0]), events[1..], group)
  }

  /** The time of the last server fetch of the group that the run records. */
  function LastFetchAt(w: World, events: seq<Event>, group: string): int
    requires ValidRun(w, events)
    decreases |events|
  {
    if events == [] then 0
    else if FetchCount(Next(w, events[0]), events[1..], group) > 0 then
      LastFetchAt(Next(w, events[0]), events[1..], group)
    else w.now
  }

  /**
   * After n failures or refusals in a row the attempts grew by n, the window ends
   * the backoff of that count after the last of them, and no head is known. Without
   * a failure the window is what it was.
   */
  lemma {:induction false} FailuresBackOff(w: World, events: seq<Event>, group: string)
    requires ValidRun(w, events) && OnlyFailures(w, events, group)
    ensures var n, before, after := FetchCount(w, events, group), WindowOf(w, group), WindowOf(Run(w, events), group);
            && after.attempts == before.attempts + n
            && (n == 0 ==> after == before)
            && (n > 0 ==> after.head == None
                          && after.nextAttemptAt == LastFetchAt(w, events, group) + BackoffMs(after.attempts))
    decreases |events|
  {
    if events != [] {
      FailuresBackOff(Next(w, events[0]), events[1..], group);
      if RecordsServerFetch(w, events[0], group) {
        RecordedFetchOpensTheWindow(w, events[0], group);
      } else {
        OtherEventsKeepTheWindow(w, events[0], group);
      }
    }
  }

  // --- The head of a window ---------------------------------------------------------------------

  /** The outcome of the last server fetch of the group that the run records. */
  function LastOutcome(w: World, events: seq<Event>, group: string): Option<Outcome>
    requires ValidRun(w, events)
    decreases |events|
  {
    if events == [] then None
    else
      var later := LastOutcome(Next(w, events[0]), events[1..], group);
      if later.Some? then later
      else if RecordsServerFetch(w, events[0], group) then Some(events[0].outcome)
      else None
  }

  /**
   * While the record lives, the window knows a head if and only if the last
   * recorded server fetch was a sync, and then it is the head of that sync.
   */
  lemma {:induction false} TheHeadIsOfTheLastSync(w: World, events: seq<Event>, group: string)
    requires ValidRun(w, events) && AliveThroughout(w, events, group)
    ensures WindowOf(Run(w, events), group).head
            == match LastOutcome(w, events, group)
               case None => WindowOf(w, group).head
               case Some(Synced(head, _)) => Some(head)
               case Some(_) => None
    decreases |events|
  {
    if events != [] {
      TheHeadIsOfTheLastSync(Next(w, events[0]), events[1..], group);
      if RecordsServerFetch(w, events[0], group) {
        RecordedFetchOpensTheWindow(w, events[0], group);
      } else {
        OtherEventsKeepTheWindow(w, events[0], group);
      }
    }
  }
}
