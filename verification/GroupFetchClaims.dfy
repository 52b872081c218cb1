/**
 * Theorems over every run of the group fetcher: no claim is lost, a denial
 * answers exactly the known claims, and a window fetches each claim once.
 */
module GroupFetchClaims {
  import opened Options
  import opened Sequences
  import opened GroupReceiveRecord
  import opened GroupFetchModel
  import opened GroupEviction

  // --- No claim is lost -----------------------------------------------------

  /** One event lowers a required revision only by recording a sync that reached the server head. */
  lemma OnlyServerSyncLowers(w: World, e: Event, group: string)
    requires Enabled(w, e) && group in w.store && group in Next(w, e).store
    ensures Required(Next(w, e), group) < Required(w, group) ==> RecordsServerSync(e, group)
    ensures RecordsServerSync(e, group) ==>
              Required(Next(w, e), group)
              == Max(e.outcome.head, w.inFlight[group].raised.GetOr(e.outcome.head))
  {
    if e.AdmitContext? || e.AdmitContextCrash? {
      AdmissionSparesItsGroup(w, e.group, e.sender, e.waiting);
    }
  }

  /** The fetch in flight for the group, if one runs, knows a claim of at least `revision`. */
  ghost predicate FlightKnows(w: World, group: string, revision: int) {
    group in w.inFlight ==> w.inFlight[group].raised.Some? && w.inFlight[group].raised.value >= revision
  }

  /** A claim reaches the record and the fetch in flight in one step. */
  lemma ClaimReachesRecordAndFlight(w: World, e: Event, group: string)
    requires Enabled(w, e) && ClaimOn(w, e, group).Some?
    ensures var after := Next(w, e);
            && group in after.store
            && Required(after, group) >= ClaimOn(w, e, group).value
            && FlightKnows(after, group, ClaimOn(w, e, group).value)
  {
    if e.AdmitContext? || e.AdmitContextCrash? {
      AdmissionSparesItsGroup(w, e.group, e.sender, e.waiting);
    }
  }

  /** The group keeps a receive record through the whole run. */
  ghost predicate AliveThroughout(w: World, events: seq<Event>, group: string)
    requires ValidRun(w, events)
    decreases |events|
  {
    group in w.store && (events == [] || AliveThroughout(Next(w, events[0]), events[1..], group))
  }

  lemma {:induction false} NoServerSyncKeepsRequired(w: World, events: seq<Event>, group: string, revision: int)
    requires ValidRun(w, events) && AliveThroughout(w, events, group)
    requires Required(w, group) >= revision
    requires forall k :: 0 <= k < |events| ==> !RecordsServerSync(events[k], group)
    ensures Required(Run(w, events), group) >= revision
    decreases |events|
  {
    if events != [] {
      OnlyServerSyncLowers(w, events[0], group);
      NoServerSyncKeepsRequired(Next(w, events[0]), events[1..], group, revision);
    }
  }

  /** Some fetch of the group starts at an event of the run, and a later event records a server sync. */
  ghost predicate AnsweredByLaterFetch(events: seq<Event>, group: string) {
    exists i, k :: 0 <= i < k < |events| && events[i].Start? && events[i].group == group
                   && RecordsServerSync(events[k], group)
  }

  lemma LaterAnswerIsAnAnswer(events: seq<Event>, group: string)
    requires events != [] && AnsweredByLaterFetch(events[1..], group)
    ensures AnsweredByLaterFetch(events, group)
  {
    var rest := events[1..];
    var i, k :| 0 <= i < k < |rest| && rest[i].Start? && rest[i].group == group
                && RecordsServerSync(rest[k], group);
    assert events[i + 1] == rest[i] && events[k + 1] == rest[k];
  }

  /**
   * A run that starts after a claim ends with a required revision of at least
   * that claim, unless a fetch that started after the claim recorded a server
   * sync. A fetch that ran already when the claim came does not lower it.
   */
  lemma {:induction false} NoClaimIsLost(w: World, events: seq<Event>, group: string, revision: int)
    requires ValidRun(w, events) && AliveThroughout(w, events, group)
    requires Required(w, group) >= revision && FlightKnows(w, group, revision)
    requires !AnsweredByLaterFetch(events, group)
    ensures Required(Run(w, events), group) >= revision
    decreases |events|
  {
    if events != [] {
      var e, rest := events[0], events[1..];
      var after := Next(w, e);
      OnlyServerSyncLowers(w, e, group);
      if e.Start? && e.group == group {
        forall k | 0 <= k < |rest| ensures !RecordsServerSync(rest[k], group) {
          assert rest[k] == events[k + 1];
        }
        NoServerSyncKeepsRequired(after, rest, group, revision);
      } else {
        if AnsweredByLaterFetch(rest, group) {
          LaterAnswerIsAnAnswer(events, group);
        }
        if e.AdmitContext? || e.AdmitContextCrash? {
          AdmissionSparesItsGroup(w, e.group, e.sender, e.waiting);
        }
        NoClaimIsLost(after, rest, group, revision);
      }
    }
  }

  /** Every claim of a run is kept in the same way, from the event that applies it. */
  lemma NoClaimOfARunIsLost(w: World, e: Event, events: seq<Event>, group: string)
    requires Enabled(w, e) && ClaimOn(w, e, group).Some?
    requires ValidRun(Next(w, e), events) && AliveThroughout(Next(w, e), events, group)
    requires !AnsweredByLaterFetch(events, group)
    ensures Required(Run(Next(w, e), events), group) >= ClaimOn(w, e, group).value
  {
    ClaimReachesRecordAndFlight(w, e, group);
    NoClaimIsLost(Next(w, e), events, group, ClaimOn(w, e, group).value);
  }

  // --- Denials --------------------------------------------------------------

  predicate IsDenied(w: World, group: string) {
    ReceiveStatus(RecordOf(w, group), RevisionOf(w, group)) == Status.Denied
  }

  /** The event removes the stored group: a deletion, or an eviction for another group. */
  predicate Removes(w: World, e: Event, group: string) {
    match e
    case Delete(g) => g == group
    case AdmitContext(g, _, sender, waiting) => !HasKey(w, g) && group in EvictedFor(w, g, sender, waiting)
    case AdmitContextCrash(g, _, sender, waiting) => !HasKey(w, g) && group in EvictedFor(w, g, sender, waiting)
    case _ => false
  }

  /** The event can end a denial at `atRevision`: a removal, a higher claim, a budgeted sync, a new denial. */
  predicate EndsDenial(w: World, e: Event, group: string, atRevision: int) {
    || Removes(w, e, group)
    || (ClaimOn(w, e, group).Some? && ClaimOn(w, e, group).value > atRevision)
    || (e.RecordFetch? && e.group == group && e.outcome.Synced? && group in w.inFlight && w.inFlight[group].serverCall)
    || (e.RecordFetch? && e.group == group && e.outcome.Refused?)
  }

  ghost predicate NothingEndsDenial(w: World, events: seq<Event>, group: string, atRevision: int)
    requires ValidRun(w, events)
    decreases |events|
  {
    events == [] || (!EndsDenial(w, events[0], group, atRevision)
                     && NothingEndsDenial(Next(w, events[0]), events[1..], group, atRevision))
  }

  lemma StepKeepsDenial(w: World, e: Event, group: string)
    requires Enabled(w, e) && group in w.store && IsDenied(w, group)
    requires !EndsDenial(w, e, group, w.store[group].receive.init.denied.value.atRevision)
    ensures group in Next(w, e).store && IsDenied(Next(w, e), group)
    ensures Next(w, e).store[group].receive.init.denied == w.store[group].receive.init.denied
  {
    if e.AdmitContext? || e.AdmitContextCrash? {
      AdmissionSparesItsGroup(w, e.group, e.sender, e.waiting);
    }
  }

  /** A denial holds through failed fetches, carried changes, lower claims and every other event. */
  lemma {:induction false} DenialHolds(w: World, events: seq<Event>, group: string)
    requires ValidRun(w, events) && group in w.store && IsDenied(w, group)
    requires NothingEndsDenial(w, events, group, w.store[group].receive.init.denied.value.atRevision)
    ensures AliveEnd(w, events, group)
    ensures IsDenied(Run(w, events), group)
    ensures Run(w, events).store[group].receive.init.denied == w.store[group].receive.init.denied
    decreases |events|
  {
    if events != [] {
      StepKeepsDenial(w, events[0], group);
      DenialHolds(Next(w, events[0]), events[1..], group);
    }
  }

  ghost predicate AliveEnd(w: World, events: seq<Event>, group: string)
    requires ValidRun(w, events)
  {
    group in Run(w, events).store
  }

  /** Each event but a new denial ends a denial if and only if it is one of those that can. */
  lemma DenialEnds(w: World, e: Event, group: string)
    requires Enabled(w, e) && group in w.store && IsDenied(w, group)
    requires !(e.RecordFetch? && e.outcome.Refused?)
    ensures !IsDenied(Next(w, e), group) <==>
            EndsDenial(w, e, group, w.store[group].receive.init.denied.value.atRevision)
  {
    if EndsDenial(w, e, group, w.store[group].receive.init.denied.value.atRevision) {
      if e.AdmitContext? || e.AdmitContextCrash? {
        AdmissionSparesItsGroup(w, e.group, e.sender, e.waiting);
      }
    } else {
      StepKeepsDenial(w, e, group);
    }
  }

  /** Every claim that the run applies to the group is at most `bound`. */
  ghost predicate ClaimsAtMost(w: World, events: seq<Event>, group: string, bound: int)
    requires ValidRun(w, events)
    decreases |events|
  {
    events == []
    || ((ClaimOn(w, events[0], group).Some? ==> ClaimOn(w, events[0], group).value <= bound)
        && ClaimsAtMost(Next(w, events[0]), events[1..], group, bound))
  }

  /** The run keeps the fetch of the group in flight and unrecorded, and deletes no record of the group. */
  ghost predicate FetchRuns(w: World, events: seq<Event>, group: string)
    requires ValidRun(w, events)
    decreases |events|
  {
    && group in w.inFlight && !w.inFlight[group].recorded
    && (events == []
        || (&& (group in w.store ==> group in Next(w, events[0]).store)
            && FetchRuns(Next(w, events[0]), events[1..], group)))
  }

  /** While a fetch runs, the required revision is what the fetch started from, or the claim raised since. */
  ghost predicate RequiredIsKnown(w: World, group: string)
    requires group in w.inFlight
  {
    var flight := w.inFlight[group];
    Required(w, group) == Max(flight.required, flight.raised.GetOr(flight.required))
  }

  predicate RaisedAtMost(w: World, group: string, bound: int)
    requires group in w.inFlight
  {
    w.inFlight[group].raised.Some? ==> w.inFlight[group].raised.value <= bound
  }

  /** One event notes on a running fetch exactly the claim that it applies. */
  lemma FlightNotesClaim(w: World, e: Event, group: string)
    requires Enabled(w, e) && group in w.inFlight
    requires group in Next(w, e).inFlight && !Next(w, e).inFlight[group].recorded
    ensures var flight, claim := w.inFlight[group], ClaimOn(w, e, group);
            Next(w, e).inFlight[group]
            == if claim.None? then flight
               else flight.(raised := Some(Max(flight.raised.GetOr(claim.value), claim.value)))
  {
  }

  /** While a fetch runs, one event raises the required revision to exactly the claim that it applies. */
  lemma RequiredFollowsClaim(w: World, e: Event, group: string)
    requires Enabled(w, e) && group in w.inFlight
    requires group in w.store ==> group in Next(w, e).store
    requires group in Next(w, e).inFlight && !Next(w, e).inFlight[group].recorded
    ensures Required(Next(w, e), group)
         == if ClaimOn(w, e, group).None? then Required(w, group)
            else Max(Required(w, group), ClaimOn(w, e, group).value)
  {
    if e.AdmitContext? || e.AdmitContextCrash? {
      AdmissionSparesItsGroup(w, e.group, e.sender, e.waiting);
    }
  }

  lemma {:induction false} ClaimsDuringFetch(w: World, events: seq<Event>, group: string, bound: int)
    requires ValidRun(w, events) && FetchRuns(w, events, group) && RequiredIsKnown(w, group)
    ensures FetchEnd(w, events, group)
    ensures var end := Run(w, events);
            && RequiredIsKnown(end, group)
            && end.inFlight[group].target == w.inFlight[group].target
            && end.inFlight[group].required == w.inFlight[group].required
            && end.inFlight[group].serverCall == w.inFlight[group].serverCall
            && (RaisedAtMost(end, group, bound)
                <==> RaisedAtMost(w, group, bound) && ClaimsAtMost(w, events, group, bound))
    decreases |events|
  {
    if events != [] {
      FlightNotesClaim(w, events[0], group);
      RequiredFollowsClaim(w, events[0], group);
      ClaimsDuringFetch(Next(w, events[0]), events[1..], group, bound);
    }
  }

  ghost predicate FetchEnd(w: World, events: seq<Event>, group: string)
    requires ValidRun(w, events)
  {
    var end := Run(w, events);
    group in end.inFlight && !end.inFlight[group].recorded
  }

  /**
   * A fetch that starts from the required revision of its group and that the
   * server refuses leaves the group denied if and only if no claim raised
   * while it ran is above every claim known at its start.
   */
  lemma DenialAnswersExactlyTheKnownClaims(
    w: World, group: string, target: int, events: seq<Event>, reason: DenialReason)
    requires group !in w.inFlight
    requires ValidRun(Next(w, Start(group, target, Required(w, group), true)), events)
    requires FetchRuns(Next(w, Start(group, target, Required(w, group), true)), events, group)
    ensures var started := Next(w, Start(group, target, Required(w, group), true));
            var known := Max(target, Required(w, group));
            && FetchEnd(started, events, group)
            && Enabled(Run(started, events), RecordFetch(group, Refused(reason)))
            && var refused := Next(Run(started, events), RecordFetch(group, Refused(reason)));
               && group in refused.store
               && refused.store[group].receive.init.denied == Some(Denial(known, reason))
               && (IsDenied(refused, group) <==> ClaimsAtMost(started, events, group, known))
  {
    ClaimsDuringFetch(Next(w, Start(group, target, Required(w, group), true)), events, group,
                      Max(target, Required(w, group)));
  }

  // --- The fetch budget -----------------------------------------------------

  /** The start follows a decision of this moment, and the clock only goes forward. */
  ghost predicate WithinBudget(w: World, e: Event) {
    && (e.Start? ==> exists claim :: DecidesToStart(w, e, claim))
    && (e.Tick? ==> e.time >= w.now)
  }

  predicate DecidesToStart(w: World, e: Event, claim: Option<MessageClaim>)
    requires e.Start?
  {
    match Decide(w, e.group, claim)
    case Fetch(target, required) => e == Start(e.group, target, required, true)
    case Apply(target, required, _) => e == Start(e.group, target, required, false)
    case Answered(_) => false
  }

  ghost predicate BudgetedRun(w: World, events: seq<Event>)
    requires ValidRun(w, events)
    decreases |events|
  {
    events == [] || (WithinBudget(w, events[0]) && BudgetedRun(Next(w, events[0]), events[1..]))
  }

  predicate WindowOpen(w: World, group: string) {
    group in w.store && w.now < w.store[group].receive.init.nextAttemptAt
  }

  function ClaimsOf(w: World, group: string): seq<int> {
    if group in w.store then w.store[group].receive.init.fetchedClaims else []
  }

  ghost predicate BudgetHolds(w: World) {
    && (forall group :: group in w.store ==>
          Unique(ClaimsOf(w, group)) && |ClaimsOf(w, group)| <= GROUP_FETCH_CLAIMS_PER_WINDOW)
    && (forall group :: group in w.inFlight && w.inFlight[group].serverCall && !w.inFlight[group].recorded
                        && WindowOpen(w, group) ==>
          w.inFlight[group].target !in ClaimsOf(w, group)
          && |ClaimsOf(w, group)| < GROUP_FETCH_CLAIMS_PER_WINDOW)
  }

  /** Each event changes the claims and the window of a group only by recording a fetch of the group. */
  lemma OnlyRecordsChangeWindows(w: World, e: Event, group: string)
    requires Enabled(w, e) && group in w.store && group in Next(w, e).store
    requires !(e.RecordFetch? && e.group == group)
    ensures Next(w, e).store[group].receive.init == w.store[group].receive.init
  {
    match e
    case AdmitContext(admitted, revision, sender, waiting) =>
      AdmissionKeepsWindows(w, admitted, revision, sender, waiting, true, group);
    case AdmitContextCrash(admitted, revision, sender, waiting) =>
      AdmissionKeepsWindows(w, admitted, revision, sender, waiting, false, group);
    case _ =>
  }

  lemma AdmissionKeepsWindows(w: World, admitted: string, revision: int, sender: SenderDevice, waiting: set<string>,
                              keyStored: bool, group: string)
    requires group in w.store && group in AdmitContextStep(w, admitted, revision, sender, waiting, keyStored).store
    ensures AdmitContextStep(w, admitted, revision, sender, waiting, keyStored).store[group].receive.init
         == w.store[group].receive.init
  {
    AdmissionSparesItsGroup(w, admitted, sender, waiting);
    assert group in EvictedFor(w, admitted, sender, waiting) ==> group != admitted;
  }

  lemma NewRecordsHaveNoClaims(w: World, e: Event, group: string)
    requires Enabled(w, e) && group !in w.store && !(e.RecordFetch? && e.group == group)
    ensures ClaimsOf(Next(w, e), group) == []
  {
  }

  lemma OtherEventsKeepClaims(w: World, e: Event, group: string)
    requires Enabled(w, e) && !(e.RecordFetch? && e.group == group)
    ensures group in w.store && group in Next(w, e).store ==>
              Next(w, e).store[group].receive.init == w.store[group].receive.init
    ensures !(group in w.store && group in Next(w, e).store) ==> ClaimsOf(Next(w, e), group) == []
  {
    if group !in w.store {
      NewRecordsHaveNoClaims(w, e, group);
    } else if group in Next(w, e).store {
      OnlyRecordsChangeWindows(w, e, group);
    }
  }

  lemma OnlyStartsAddFlights(w: World, e: Event, group: string)
    requires Enabled(w, e) && group in Next(w, e).inFlight
    ensures group !in w.inFlight ==>
              e.Start? && e.group == group
              && Next(w, e).inFlight[group] == Flight(e.target, e.required, e.serverCall, None, false)
    ensures group in w.inFlight ==>
              && Next(w, e).inFlight[group].target == w.inFlight[group].target
              && Next(w, e).inFlight[group].serverCall == w.inFlight[group].serverCall
              && (w.inFlight[group].recorded ==> Next(w, e).inFlight[group].recorded)
  {
    if e.AdmitContext? || e.AdmitContextCrash? {
      AdmissionSparesItsGroup(w, e.group, e.sender, e.waiting);
    }
  }

  lemma BudgetIsKept(w: World, e: Event)
    requires BudgetHolds(w) && Enabled(w, e) && WithinBudget(w, e)
    ensures BudgetHolds(Next(w, e))
  {
    var after := Next(w, e);
    forall group | group in after.store
      ensures Unique(ClaimsOf(after, group)) && |ClaimsOf(after, group)| <= GROUP_FETCH_CLAIMS_PER_WINDOW
    {
      if !(e.RecordFetch? && e.group == group) {
        OtherEventsKeepClaims(w, e, group);
      }
    }
    forall group | group in after.inFlight && after.inFlight[group].serverCall && !after.inFlight[group].recorded
                   && WindowOpen(after, group)
      ensures after.inFlight[group].target !in ClaimsOf(after, group)
      ensures |ClaimsOf(after, group)| < GROUP_FETCH_CLAIMS_PER_WINDOW
    {
      OnlyStartsAddFlights(w, e, group);
      if !(e.RecordFetch? && e.group == group) {
        OtherEventsKeepClaims(w, e, group);
      }
    }
  }

  /** The target of the server fetch of the group that the event records, if it records one. */
  function FetchedTarget(w: World, e: Event, group: string): seq<int>
    requires Enabled(w, e)
  {
    if e.RecordFetch? && e.group == group && w.inFlight[group].serverCall then [w.inFlight[group].target] else []
  }

  /** The targets of the server fetches of a group that a run records, in order. */
  function FetchedTargets(w: World, events: seq<Event>, group: string): seq<int>
    requires ValidRun(w, events)
    decreases |events|
  {
    if events == [] then []
    else FetchedTarget(w, events[0], group) + FetchedTargets(Next(w, events[0]), events[1..], group)
  }

  /** One window of the group stays open from the start of the run to its end. */
  ghost predicate SameWindow(w: World, events: seq<Event>, group: string)
    requires ValidRun(w, events)
    decreases |events|
  {
    WindowOpen(w, group) && (events == [] || SameWindow(Next(w, events[0]), events[1..], group))
  }

  lemma {:induction false} BudgetHoldsThroughout(w: World, events: seq<Event>)
    requires ValidRun(w, events) && BudgetHolds(w) && BudgetedRun(w, events)
    ensures BudgetHolds(Run(w, events))
    decreases |events|
  {
    if events != [] {
      BudgetIsKept(w, events[0]);
      BudgetHoldsThroughout(Next(w, events[0]), events[1..]);
    }
  }

  lemma {:induction false} AWindowCollectsItsTargets(w: World, events: seq<Event>, group: string)
    requires ValidRun(w, events)
    requires BudgetHolds(w) && BudgetedRun(w, events) && SameWindow(w, events, group)
    ensures ClaimsOf(Run(w, events), group) == ClaimsOf(w, group) + FetchedTargets(w, events, group)
    decreases |events|
  {
    if events == [] {
      assert ClaimsOf(w, group) + [] == ClaimsOf(w, group);
    } else {
      var after, rest := Next(w, events[0]), events[1..];
      BudgetIsKept(w, events[0]);
      OpenWindowAddsTheTarget(w, events[0], group);
      AWindowCollectsItsTargets(after, rest, group);
      ConcatIsAssociative(ClaimsOf(w, group), FetchedTarget(w, events[0], group), FetchedTargets(after, rest, group));
    }
  }

  /**
   * While one window stays open, the recorded server fetches of the group add
   * exactly their targets to its claims, so each distinct claim is fetched at
   * most once and the window fetches at most 16 claims.
   */
  lemma AWindowFetchesEachClaimOnce(w: World, events: seq<Event>, group: string)
    requires ValidRun(w, events)
    requires BudgetHolds(w) && BudgetedRun(w, events) && SameWindow(w, events, group)
    ensures ClaimsOf(Run(w, events), group) == ClaimsOf(w, group) + FetchedTargets(w, events, group)
    ensures Unique(ClaimsOf(w, group) + FetchedTargets(w, events, group))
    ensures |ClaimsOf(w, group)| + |FetchedTargets(w, events, group)| <= GROUP_FETCH_CLAIMS_PER_WINDOW
  {
    AWindowCollectsItsTargets(w, events, group);
    BudgetHoldsThroughout(w, events);
    if group !in Run(w, events).store {
      assert ClaimsOf(Run(w, events), group) == [];
    }
  }

  lemma OpenWindowAddsTheTarget(w: World, e: Event, group: string)
    requires BudgetHolds(w) && Enabled(w, e) && WindowOpen(w, group) && WindowOpen(Next(w, e), group)
    ensures ClaimsOf(Next(w, e), group) == ClaimsOf(w, group) + FetchedTarget(w, e, group)
  {
    if !(e.RecordFetch? && e.group == group) {
      OtherEventsKeepClaims(w, e, group);
      assert ClaimsOf(w, group) + [] == ClaimsOf(w, group);
    }
  }

  /**
   * A message is decided on its own claim: while the group is not denied, the
   * highest claim of any sender changes neither the answer nor the target.
   */
  lemma AnotherClaimDoesNotDecide(w: World, group: string, required: int, claim: MessageClaim)
    requires group in w.store && !IsDenied(w, group)
    requires var other := w.store[group].receive.(requiredRevision := required);
             !IsDenied(PutRecord(w, group, other), group)
    ensures var other := w.store[group].receive.(requiredRevision := required);
            match Decide(w, group, Some(claim))
            case Fetch(target, _) => Decide(PutRecord(w, group, other), group, Some(claim)) == Fetch(target, required)
            case Apply(target, _, wait) =>
              Decide(PutRecord(w, group, other), group, Some(claim)) == Apply(target, required, wait)
            case answer => Decide(PutRecord(w, group, other), group, Some(claim)) == answer
  {
  }

  /** A carried change that applies beyond the budget leaves the window, the claims and any denial as they are. */
  lemma CarriedChangeLeavesTheWindow(w: World, group: string, outcome: Outcome)
    requires group in w.store && Enabled(w, RecordFetch(group, outcome)) && !w.inFlight[group].serverCall
    ensures Next(w, RecordFetch(group, outcome)).store[group].receive.init == w.store[group].receive.init
    ensures Required(Next(w, RecordFetch(group, outcome)), group) == Required(w, group)
    ensures IsDenied(Next(w, RecordFetch(group, outcome)), group) <==> IsDenied(w, group)
  {
  }

  /**
   * The budget needs the decision and the start in one step. A start that
   * follows an earlier decision can fetch a claim that the window fetched
   * already, although every other step is within the budget.
   */
  lemma StaleDecisionFetchesAgain()
    ensures exists w: World, events: seq<Event>, late: Event ::
              && BudgetHolds(w) && w.inFlight == map[]
              && late.Start? && DecidesToStart(w, late, None)
              && ValidRun(w, events) && BudgetedRun(w, events)
              && Enabled(Run(w, events), late)
              && WindowOpen(Run(w, events), late.group)
              && late.target in ClaimsOf(Run(w, events), late.group)
  {
    var record := NewRecord(FromLocal).(requiredRevision := 5);
    var w := World(map["g" := Stored(record, true, None)], ["g"], map[], 0);
    var start, recorded, finish := Start("g", 5, 5, true), RecordFetch("g", Synced(3, true)), Finish("g");
    var w1 := Next(w, start);
    var w2 := Next(w1, recorded);
    var w3 := Next(w2, finish);
    assert DecidesToStart(w, start, None);
    assert ValidRun(w3, []) && BudgetedRun(w3, []) && Run(w3, []) == w3;
    RunOne(w2, finish, []);
    RunOne(w1, recorded, [finish]);
    RunOne(w, start, [recorded, finish]);
    assert ClaimsOf(w3, "g") == [5];
    assert BudgetHolds(w);
  }

  lemma RunOne(w: World, e: Event, rest: seq<Event>)
    requires Enabled(w, e) && WithinBudget(w, e) && ValidRun(Next(w, e), rest) && BudgetedRun(Next(w, e), rest)
    ensures ValidRun(w, [e] + rest) && BudgetedRun(w, [e] + rest)
    ensures Run(w, [e] + rest) == Run(Next(w, e), rest)
  {
    assert ([e] + rest)[1..] == rest;
  }
}
