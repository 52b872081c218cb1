/**
 * One call that asks whether a group is fresh (client/group-fetcher.ts): up to
 * three rounds that join a running fetch, answer from the store, or start a
 * fetch and wait for it until a deadline.
 */
module GroupFreshness {
  import opened Options
  import opened Sequences
  import opened GroupReceiveRecord
  import opened GroupFetchModel
  import opened GroupFetchClaims

  const ROUNDS: nat := 3

  /**
   * What happens around one round: the steps between the read of a decision and
   * the start of its fetch, and the steps while the call waits for a fetch. A
   * fetch that does not end in `waiting` ends after the deadline.
   */
  datatype Round = Round(reading: seq<Event>, waiting: seq<Event>)

  /** The world after the steps, without those that are not enabled. */
  function Others(w: World, events: seq<Event>): World
    decreases |events|
  {
    if events == [] then w
    else if Enabled(w, events[0]) then Others(Next(w, events[0]), events[1..])
    else Others(w, events[1..])
  }

  /** The steps that are enabled. */
  function Taken(w: World, events: seq<Event>): seq<Event>
    decreases |events|
  {
    if events == [] then []
    else if Enabled(w, events[0]) then [events[0]] + Taken(Next(w, events[0]), events[1..])
    else Taken(w, events[1..])
  }

  /** How a fetch of a group ends: with a recorded outcome, or with none. */
  datatype Ending = Recorded(outcome: Outcome) | NotApplied

  /**
   * The end of the fetch of the group in the steps, with the outcome that was
   * recorded before it. None when the fetch does not end in the steps.
   */
  function EndOf(w: World, group: string, events: seq<Event>, recorded: Option<Outcome>): Option<Ending>
    decreases |events|
  {
    if events == [] then None
    else if !Enabled(w, events[0]) then EndOf(w, group, events[1..], recorded)
    else
      match events[0]
      case Finish(g) =>
        if g != group then EndOf(Next(w, events[0]), group, events[1..], recorded)
        else if recorded.Some? then Some(Recorded(recorded.value))
        else Some(NotApplied)
      case RecordFetch(g, outcome) =>
        EndOf(Next(w, events[0]), group, events[1..], if g == group then Some(outcome) else recorded)
      case Crash => None
      case _ => EndOf(Next(w, events[0]), group, events[1..], recorded)
  }

  function StartOf(group: string, decision: Decision): Event
    requires !decision.Answered?
  {
    match decision
    case Fetch(target, required) => Start(group, target, required, true)
    case Apply(target, required, _) => Start(group, target, required, false)
  }

  /** The time until the next fetch of the group, 0 for a group with no record. */
  function RetryAfter(w: World, group: string): (retryAfterMs: int)
    ensures retryAfterMs >= 0
    ensures group in w.store ==>
              retryAfterMs == if WindowOpen(w, group) then w.store[group].receive.init.nextAttemptAt - w.now else 0
  {
    if group in w.store then Max(0, w.store[group].receive.init.nextAttemptAt - w.now) else Max(0, -w.now)
  }

  /** The answer of the call after its own fetch. */
  function FreshnessOf(w: World, group: string, decision: Decision, ending: Option<Ending>): Freshness {
    match ending
    case None => UpdatePending
    case Some(NotApplied) => if decision.Apply? then decision.wait else UpdatePending
    case Some(Recorded(Synced(head, _))) => Fresh(head)
    case Some(Recorded(Refused(reason))) => DeniedFor(reason)
    case Some(Recorded(Failed)) => UpdateFailed(RetryAfter(w, group))
  }

  /** The steps of one round. */
  function Played(w: World, group: string, claim: Option<MessageClaim>, round: Round): seq<Event> {
    if group in w.inFlight then round.waiting
    else
      var decision := Decide(w, group, claim);
      if decision.Answered? then []
      else if group in Others(w, round.reading).inFlight then round.reading
      else round.reading + [StartOf(group, decision)] + round.waiting
  }

  /** The answer of one round. None when the call goes on with the next round. */
  function Answer(w: World, group: string, claim: Option<MessageClaim>, round: Round): Option<Freshness> {
    if group in w.inFlight then
      if EndOf(w, group, round.waiting, None).None? then Some(UpdatePending) else None
    else
      var decision := Decide(w, group, claim);
      var read := Others(w, round.reading);
      if decision.Answered? then Some(decision.freshness)
      else if group in read.inFlight then None
      else
        var started := Next(read, StartOf(group, decision));
        Some(FreshnessOf(Others(started, round.waiting), group, decision, EndOf(started, group, round.waiting, None)))
  }

  /** The world and the answer after the rounds. */
  function AfterRounds(w: World, group: string, claim: Option<MessageClaim>, rounds: seq<Round>): (World, Freshness)
    decreases |rounds|
  {
    if rounds == [] then (w, UpdatePending)
    else
      var after := Others(w, Played(w, group, claim, rounds[0]));
      var answer := Answer(w, group, claim, rounds[0]);
      if answer.Some? then (after, answer.value) else AfterRounds(after, group, claim, rounds[1..])
  }

  /** All steps of the rounds, those of the call and those of others. */
  function Steps(w: World, group: string, claim: Option<MessageClaim>, rounds: seq<Round>): seq<Event>
    decreases |rounds|
  {
    if rounds == [] then []
    else
      var played := Played(w, group, claim, rounds[0]);
      var more := if Answer(w, group, claim, rounds[0]).Some? then []
                  else Steps(Others(w, played), group, claim, rounds[1..]);
      Taken(w, played) + more
  }

  // --- What the store says about a message ------------------------------------------------

  /** The claim of a message, or else the required revision. */
  function TargetOf(w: World, group: string, claim: Option<MessageClaim>): int {
    if claim.Some? then claim.value.revision else Required(w, group)
  }

  /** A stored denial answers every required revision up to its own. */
  predicate Denies(w: World, group: string) {
    && group in w.store && w.store[group].receive.init.denied.Some?
    && w.store[group].receive.init.denied.value.atRevision >= w.store[group].receive.requiredRevision
  }

  predicate DeniedWith(w: World, group: string, reason: DenialReason) {
    Denies(w, group) && w.store[group].receive.init.denied.value.reason == reason
  }

  /** The verified state is at the claim. */
  predicate AtTheClaim(w: World, group: string, claim: Option<MessageClaim>) {
    group in w.store && w.store[group].revision.Some? && w.store[group].revision.value >= TargetOf(w, group, claim)
  }

  /** The open window fetched the claim. */
  predicate FetchedInWindow(w: World, group: string, claim: Option<MessageClaim>) {
    WindowOpen(w, group) && TargetOf(w, group, claim) in w.store[group].receive.init.fetchedClaims
  }

  /** The open window fetched 16 claims. */
  predicate WindowIsFull(w: World, group: string) {
    WindowOpen(w, group) && |w.store[group].receive.init.fetchedClaims| >= GROUP_FETCH_CLAIMS_PER_WINDOW
  }

  /** The open window fetched the claim, and the verified state is at the head that it reached. */
  predicate AtTheHead(w: World, group: string, claim: Option<MessageClaim>) {
    && FetchedInWindow(w, group, claim) && w.store[group].receive.init.head.Some?
    && w.store[group].revision.Some?
    && w.store[group].revision.value >= w.store[group].receive.init.head.value
  }

  /** A message must lead to a fetch from the server. */
  predicate MustFetch(w: World, group: string, claim: Option<MessageClaim>) {
    && !Denies(w, group) && !AtTheClaim(w, group, claim)
    && !FetchedInWindow(w, group, claim) && !WindowIsFull(w, group)
  }

  /** A message must lead to applying the change that it carries, with no fetch from the server. */
  predicate MustApply(w: World, group: string, claim: Option<MessageClaim>) {
    && !Denies(w, group) && !AtTheClaim(w, group, claim)
    && !FetchedInWindow(w, group, claim) && WindowIsFull(w, group)
    && claim.Some? && claim.value.carriesChange
  }

  /** Each decision is made exactly when the stored record, the state and the clock say so. */
  lemma DecisionIff(w: World, group: string, claim: Option<MessageClaim>)
    ensures var decision, target, required := Decide(w, group, claim), TargetOf(w, group, claim), Required(w, group);
            && (decision == Fetch(target, required) <==> MustFetch(w, group, claim))
            && (decision.Fetch? ==> decision == Fetch(target, required))
            && (decision.Apply? <==> MustApply(w, group, claim))
            && (decision.Apply? ==>
                  decision == Apply(target, required,
                                    UpdateFailed(w.store[group].receive.init.nextAttemptAt - w.now)))
            && (decision.Answered? ==> StoreAnswers(w, group, claim, decision.freshness)
                                       && decision.freshness != UpdatePending)
  {
  }

  // --- A call is a run ---------------------------------------------------------------------

  lemma {:induction false} TakenRuns(w: World, events: seq<Event>)
    ensures ValidRun(w, Taken(w, events)) && Run(w, Taken(w, events)) == Others(w, events)
    decreases |events|
  {
    if events != [] {
      if Enabled(w, events[0]) {
        TakenRuns(Next(w, events[0]), events[1..]);
        assert Taken(w, events)[1..] == Taken(Next(w, events[0]), events[1..]);
      } else {
        TakenRuns(w, events[1..]);
      }
    }
  }

  /** A run of the others is taken whole. */
  lemma {:induction false} ValidStepsAreTaken(w: World, events: seq<Event>)
    requires ValidRun(w, events)
    ensures Taken(w, events) == events && Others(w, events) == Run(w, events)
    decreases |events|
  {
    if events != [] {
      ValidStepsAreTaken(Next(w, events[0]), events[1..]);
    }
  }

  /** A run of at least one step. */
  lemma RunOfFirst(w: World, events: seq<Event>)
    requires events != []
    ensures ValidRun(w, events) <==> Enabled(w, events[0]) && ValidRun(Next(w, events[0]), events[1..])
    ensures ValidRun(w, events) ==> Run(w, events) == Run(Next(w, events[0]), events[1..])
  {
  }

  lemma ConcatOfFirst(first: seq<Event>, second: seq<Event>)
    requires first != []
    ensures (first + second)[0] == first[0] && (first + second)[1..] == first[1..] + second
  {
  }

  lemma {:induction false} RunConcat(w: World, first: seq<Event>, second: seq<Event>)
    requires ValidRun(w, first) && ValidRun(Run(w, first), second)
    ensures ValidRun(w, first + second) && Run(w, first + second) == Run(Run(w, first), second)
    decreases |first|
  {
    if first == [] {
      assert first + second == second;
    } else {
      var both := first + second;
      ConcatOfFirst(first, second);
      RunOfFirst(w, first);
      RunOfFirst(w, both);
      RunConcat(Next(w, first[0]), first[1..], second);
    }
  }

  lemma {:induction false} OthersConcat(w: World, first: seq<Event>, second: seq<Event>)
    ensures Others(w, first + second) == Others(Others(w, first), second)
    ensures Taken(w, first + second) == Taken(w, first) + Taken(Others(w, first), second)
    decreases |first|
  {
    if first == [] {
      assert first + second == second;
    } else {
      OthersConcat(if Enabled(w, first[0]) then Next(w, first[0]) else w, first[1..], second);
      assert (first + second)[1..] == first[1..] + second;
    }
  }

  /** The steps of a call are a run, so every theorem about runs is about calls. */
  lemma {:induction false} CallIsARun(w: World, group: string, claim: Option<MessageClaim>, rounds: seq<Round>)
    ensures ValidRun(w, Steps(w, group, claim, rounds))
    ensures Run(w, Steps(w, group, claim, rounds)) == AfterRounds(w, group, claim, rounds).0
    decreases |rounds|
  {
    if rounds != [] {
      var played := Played(w, group, claim, rounds[0]);
      TakenRuns(w, played);
      if Answer(w, group, claim, rounds[0]).Some? {
        assert Taken(w, played) + [] == Taken(w, played);
      } else {
        CallIsARun(Others(w, played), group, claim, rounds[1..]);
        RunConcat(w, Taken(w, played), Steps(Others(w, played), group, claim, rounds[1..]));
      }
    }
  }

  // --- What an answer means ------------------------------------------------------------------

  /**
   * The store of this moment gives the answer. A fresh group has a verified state
   * at the claim, or at the head that the window reached when it fetched the claim.
   * A failed update is an open window with nothing left to fetch, and a pending
   * one is a fetch in flight.
   */
  ghost predicate StoreAnswers(w: World, group: string, claim: Option<MessageClaim>, freshness: Freshness) {
    match freshness
    case Fresh(revision) =>
      RevisionOf(w, group) == Some(revision) && (AtTheClaim(w, group, claim) || AtTheHead(w, group, claim))
    case DeniedFor(reason) => DeniedWith(w, group, reason)
    case UpdateFailed(retryAfterMs) =>
      && !Denies(w, group) && !AtTheClaim(w, group, claim) && !AtTheHead(w, group, claim)
      && (FetchedInWindow(w, group, claim) || WindowIsFull(w, group))
      && retryAfterMs == w.store[group].receive.init.nextAttemptAt - w.now > 0
    case UpdatePending => group in w.inFlight
  }

  /** The step records the outcome that gives the answer. */
  predicate OutcomeAnswers(e: Event, group: string, freshness: Freshness) {
    match freshness
    case Fresh(revision) => e.RecordFetch? && e.group == group && e.outcome.Synced? && e.outcome.head == revision
    case DeniedFor(reason) => e == RecordFetch(group, Refused(reason))
    case UpdateFailed(_) => e == RecordFetch(group, Failed)
    case UpdatePending => false
  }

  /** At some moment of the run, the store gives the answer or a step records it. */
  ghost predicate Witnessed(
      w: World, steps: seq<Event>, group: string, claim: Option<MessageClaim>, freshness: Freshness)
    requires ValidRun(w, steps)
    decreases |steps|
  {
    || StoreAnswers(w, group, claim, freshness)
    || (steps != []
        && (|| OutcomeAnswers(steps[0], group, freshness)
            || Witnessed(Next(w, steps[0]), steps[1..], group, claim, freshness)))
  }

  lemma {:induction false} WitnessedLater(
      w: World, first: seq<Event>, second: seq<Event>, group: string, claim: Option<MessageClaim>,
      freshness: Freshness)
    requires ValidRun(w, first) && ValidRun(Run(w, first), second) && ValidRun(w, first + second)
    requires Witnessed(Run(w, first), second, group, claim, freshness)
    ensures Witnessed(w, first + second, group, claim, freshness)
    decreases |first|
  {
    if first == [] {
      assert first + second == second;
    } else {
      assert (first + second)[1..] == first[1..] + second;
      WitnessedLater(Next(w, first[0]), first[1..], second, group, claim, freshness);
    }
  }

  /** A store that gives the answer at the end of a run is a witness. */
  lemma WitnessedAtTheEnd(
      w: World, steps: seq<Event>, group: string, claim: Option<MessageClaim>, freshness: Freshness)
    requires ValidRun(w, steps) && StoreAnswers(Run(w, steps), group, claim, freshness)
    ensures Witnessed(w, steps, group, claim, freshness)
  {
    assert steps + [] == steps;
    WitnessedLater(w, steps, [], group, claim, freshness);
  }

  /** A fetch that ends with a recorded answer has a step that records it, unless it was recorded before. */
  lemma {:induction false} EndIsWitnessed(
      w: World, events: seq<Event>, recorded: Option<Outcome>, group: string, claim: Option<MessageClaim>,
      freshness: Freshness)
    requires EndOf(w, group, events, recorded).Some? && EndOf(w, group, events, recorded).value.Recorded?
    requires OutcomeAnswers(RecordFetch(group, EndOf(w, group, events, recorded).value.outcome), group, freshness)
    ensures ValidRun(w, Taken(w, events))
    ensures || recorded == Some(EndOf(w, group, events, recorded).value.outcome)
            || Witnessed(w, Taken(w, events), group, claim, freshness)
    decreases |events|
  {
    TakenRuns(w, events);
    if !Enabled(w, events[0]) {
      EndIsWitnessed(w, events[1..], recorded, group, claim, freshness);
    } else if !(events[0].Finish? && events[0].group == group) {
      var e := events[0];
      var more := if e.RecordFetch? && e.group == group then Some(e.outcome) else recorded;
      EndIsWitnessed(Next(w, e), events[1..], more, group, claim, freshness);
      assert Taken(w, events)[0] == e && Taken(w, events)[1..] == Taken(Next(w, e), events[1..]);
    }
  }

  lemma OneStep(w: World, e: Event)
    requires Enabled(w, e)
    ensures Taken(w, [e]) == [e] && Others(w, [e]) == Next(w, e)
  {
    assert [e][1..] == [];
    assert Taken(Next(w, e), []) == [] && Others(Next(w, e), []) == Next(w, e);
  }

  /** The steps of a round that starts a fetch. */
  lemma StartingRound(w: World, group: string, claim: Option<MessageClaim>, round: Round)
    requires group !in w.inFlight && !Decide(w, group, claim).Answered?
    requires group !in Others(w, round.reading).inFlight
    ensures var read := Others(w, round.reading);
            var started := Next(read, StartOf(group, Decide(w, group, claim)));
            var played := Played(w, group, claim, round);
            && Others(w, played) == Others(started, round.waiting)
            && Taken(w, played) == Taken(w, round.reading)
                                   + ([StartOf(group, Decide(w, group, claim))] + Taken(started, round.waiting))
  {
    var start := StartOf(group, Decide(w, group, claim));
    var read := Others(w, round.reading);
    OneStep(read, start);
    OthersConcat(w, round.reading + [start], round.waiting);
    OthersConcat(w, round.reading, [start]);
    ConcatIsAssociative(Taken(w, round.reading), [start], Taken(Next(read, start), round.waiting));
  }

  lemma WaitingIsWitnessed(
      w: World, start: Event, events: seq<Event>, group: string, claim: Option<MessageClaim>, answer: Freshness)
    requires start.Start? && start.group == group && Enabled(w, start)
    requires var ending := EndOf(Next(w, start), group, events, None);
             || answer == UpdatePending
             || (ending.Some? && ending.value.Recorded?
                 && OutcomeAnswers(RecordFetch(group, ending.value.outcome), group, answer))
    ensures var steps := [start] + Taken(Next(w, start), events);
            ValidRun(w, steps) && Witnessed(w, steps, group, claim, answer)
  {
    var started := Next(w, start);
    TakenRuns(started, events);
    assert ([start] + Taken(started, events))[1..] == Taken(started, events);
    if answer == UpdatePending {
      assert StoreAnswers(started, group, claim, answer);
    } else {
      EndIsWitnessed(started, events, None, group, claim, answer);
    }
  }

  lemma OwnFetchIsWitnessed(
      w: World, group: string, claim: Option<MessageClaim>, round: Round, start: Event, answer: Freshness)
    requires group !in w.inFlight && !Decide(w, group, claim).Answered?
    requires group !in Others(w, round.reading).inFlight && start == StartOf(group, Decide(w, group, claim))
    requires var steps := [start] + Taken(Next(Others(w, round.reading), start), round.waiting);
             && ValidRun(Others(w, round.reading), steps)
             && Witnessed(Others(w, round.reading), steps, group, claim, answer)
    ensures var steps := Taken(w, Played(w, group, claim, round));
            ValidRun(w, steps) && Witnessed(w, steps, group, claim, answer)
  {
    var steps := [start] + Taken(Next(Others(w, round.reading), start), round.waiting);
    TakenRuns(w, Played(w, group, claim, round));
    StartingRound(w, group, claim, round);
    TakenRuns(w, round.reading);
    WitnessedLater(w, Taken(w, round.reading), steps, group, claim, answer);
  }

  lemma AnswerIsWitnessed(w: World, group: string, claim: Option<MessageClaim>, round: Round)
    requires Answer(w, group, claim, round).Some?
    ensures var steps := Taken(w, Played(w, group, claim, round));
            ValidRun(w, steps) && Witnessed(w, steps, group, claim, Answer(w, group, claim, round).value)
  {
    TakenRuns(w, Played(w, group, claim, round));
    DecisionIff(w, group, claim);
    if group !in w.inFlight && !Decide(w, group, claim).Answered? {
      var start, read := StartOf(group, Decide(w, group, claim)), Others(w, round.reading);
      var answer := Answer(w, group, claim, round).value;
      var ending := EndOf(Next(read, start), group, round.waiting, None);
      if answer == UpdatePending || (ending.Some? && ending.value.Recorded?) {
        WaitingIsWitnessed(read, start, round.waiting, group, claim, answer);
        OwnFetchIsWitnessed(w, group, claim, round, start, answer);
      }
    }
  }

  /** A round that the call goes on after saw a fetch of the group in flight. */
  lemma AnotherRoundIsWitnessed(w: World, group: string, claim: Option<MessageClaim>, round: Round)
    requires Answer(w, group, claim, round).None?
    ensures var steps := Taken(w, Played(w, group, claim, round));
            ValidRun(w, steps) && Witnessed(w, steps, group, claim, UpdatePending)
  {
    TakenRuns(w, Played(w, group, claim, round));
    if group !in w.inFlight {
      WitnessedAtTheEnd(w, Taken(w, round.reading), group, claim, UpdatePending);
    }
  }

  /**
   * Each answer of a call holds at some moment of the call: the store showed the
   * fresh state, the denial or the window with nothing left to fetch, or a fetch
   * of the group recorded the head, the refusal or the failure that the call
   * answers with. A pending answer saw a fetch of the group in flight.
   */
  lemma {:induction false} AnswersComeFromTheRun(
      w: World, group: string, claim: Option<MessageClaim>, rounds: seq<Round>)
    requires rounds != []
    ensures ValidRun(w, Steps(w, group, claim, rounds))
    ensures Witnessed(w, Steps(w, group, claim, rounds), group, claim, AfterRounds(w, group, claim, rounds).1)
    decreases |rounds|
  {
    CallIsARun(w, group, claim, rounds);
    var played := Played(w, group, claim, rounds[0]);
    TakenRuns(w, played);
    if Answer(w, group, claim, rounds[0]).Some? {
      AnswerIsWitnessed(w, group, claim, rounds[0]);
      assert Taken(w, played) + [] == Taken(w, played);
    } else if rounds[1..] == [] {
      AnotherRoundIsWitnessed(w, group, claim, rounds[0]);
      assert Taken(w, played) + [] == Taken(w, played);
    } else {
      var rest := Steps(Others(w, played), group, claim, rounds[1..]);
      AnswersComeFromTheRun(Others(w, played), group, claim, rounds[1..]);
      WitnessedLater(w, Taken(w, played), rest, group, claim, AfterRounds(w, group, claim, rounds).1);
    }
  }

  // --- When a call fetches, and what it answers then ---------------------------------------------

  /**
   * A call that finds no fetch in flight starts a server fetch of the claim as its
   * first step if and only if the store holds no denial, its state is not at the
   * claim, and no open window fetched the claim or is full. It starts to apply a
   * carried change if and only if the window is full. Else it takes no step.
   */
  lemma CallFetchesIff(w: World, group: string, claim: Option<MessageClaim>, rounds: seq<Round>)
    requires rounds != [] && group !in w.inFlight && rounds[0].reading == []
    ensures var steps, target, required := Steps(w, group, claim, rounds), TargetOf(w, group, claim),
                                           Required(w, group);
            && (MustFetch(w, group, claim) <==> steps != [] && steps[0] == Start(group, target, required, true))
            && (MustApply(w, group, claim) <==> steps != [] && steps[0] == Start(group, target, required, false))
            && (!MustFetch(w, group, claim) && !MustApply(w, group, claim) <==> steps == [])
  {
    DecisionIff(w, group, claim);
    if !Decide(w, group, claim).Answered? {
      StartingRound(w, group, claim, rounds[0]);
    }
  }

  /** In a later round, or when others take steps while it reads, a call starts the same fetch, or joins another one. */
  lemma RoundFetchesIff(w: World, group: string, claim: Option<MessageClaim>, round: Round)
    ensures var played, read := Played(w, group, claim, round), Others(w, round.reading);
            var start := Start(group, TargetOf(w, group, claim), Required(w, group), MustFetch(w, group, claim));
            if group in w.inFlight then
              played == round.waiting
              && Answer(w, group, claim, round)
                 == (if EndOf(w, group, round.waiting, None).None? then Some(UpdatePending) else None)
            else if !MustFetch(w, group, claim) && !MustApply(w, group, claim) then
              played == [] && Answer(w, group, claim, round).Some?
              && StoreAnswers(w, group, claim, Answer(w, group, claim, round).value)
            else if group in read.inFlight then played == round.reading && Answer(w, group, claim, round).None?
            else played == round.reading + [start] + round.waiting && Answer(w, group, claim, round).Some?
  {
    DecisionIff(w, group, claim);
  }

  /**
   * A call that started a fetch answers with what the fetch recorded, or waits
   * when it ended with nothing or did not end.
   */
  lemma OwnFetchAnswers(w: World, group: string, claim: Option<MessageClaim>, round: Round)
    requires group !in w.inFlight && group !in Others(w, round.reading).inFlight
    requires MustFetch(w, group, claim) || MustApply(w, group, claim)
    ensures var start := Start(group, TargetOf(w, group, claim), Required(w, group), MustFetch(w, group, claim));
            var started := Next(Others(w, round.reading), start);
            Answer(w, group, claim, round) ==
            match EndOf(started, group, round.waiting, None)
            case None => Some(UpdatePending)
            case Some(Recorded(Synced(head, _))) => Some(Fresh(head))
            case Some(Recorded(Refused(reason))) => Some(DeniedFor(reason))
            case Some(Recorded(Failed)) => Some(UpdateFailed(RetryAfter(Others(started, round.waiting), group)))
            case Some(NotApplied) =>
              Some(if MustApply(w, group, claim) then UpdateFailed(RetryAfter(w, group)) else UpdatePending)
  {
    DecisionIff(w, group, claim);
  }

  /** The fetch of the group ends at a step of the run: its first end, with no crash before it. */
  ghost predicate EndsAt(steps: seq<Event>, group: string, i: nat) {
    && i < |steps| && steps[i] == Finish(group)
    && forall j :: 0 <= j < i ==> steps[j] != Crash && steps[j] != Finish(group)
  }

  ghost predicate RecordsAt(steps: seq<Event>, group: string, i: nat) {
    i < |steps| && steps[i].RecordFetch? && steps[i].group == group
  }

  /** The outcome of the last record of the group before a step, or the outcome recorded before. */
  ghost predicate LastRecorded(
      steps: seq<Event>, group: string, i: nat, recorded: Option<Outcome>, outcome: Option<Outcome>)
  {
    || (outcome == recorded && forall j: nat :: j < i ==> !RecordsAt(steps, group, j))
    || exists j: nat :: j < i && RecordsAt(steps, group, j) && outcome == Some(steps[j].outcome)
                        && forall k: nat :: j < k < i ==> !RecordsAt(steps, group, k)
  }

  lemma LastRecordedShifts(
      e: Event, rest: seq<Event>, group: string, i: nat, recorded: Option<Outcome>, outcome: Option<Outcome>)
    requires var more := if e.RecordFetch? && e.group == group then Some(e.outcome) else recorded;
             LastRecorded(rest, group, i, more, outcome)
    ensures LastRecorded([e] + rest, group, i + 1, recorded, outcome)
  {
    var steps := [e] + rest;
    var more := if e.RecordFetch? && e.group == group then Some(e.outcome) else recorded;
    assert forall j: nat :: RecordsAt(steps, group, j + 1) <==> RecordsAt(rest, group, j);
    assert forall k: nat :: 0 < k && RecordsAt(steps, group, k) ==> RecordsAt(rest, group, k - 1);
    if outcome == more && forall j: nat :: j < i ==> !RecordsAt(rest, group, j) {
      if e.RecordFetch? && e.group == group {
        assert RecordsAt(steps, group, 0);
      } else {
        assert !RecordsAt(steps, group, 0);
      }
    } else {
      var j: nat :| j < i && RecordsAt(rest, group, j) && outcome == Some(rest[j].outcome)
                    && forall k: nat :: j < k < i ==> !RecordsAt(rest, group, k);
      assert RecordsAt(steps, group, j + 1) && steps[j + 1] == rest[j];
    }
  }

  /** How a fetch ends is told by the steps that were taken. */
  lemma {:induction false} EndOfIff(w: World, group: string, events: seq<Event>, recorded: Option<Outcome>)
    ensures EndOf(w, group, events, recorded).None? <==> forall i: nat :: !EndsAt(Taken(w, events), group, i)
    ensures EndOf(w, group, events, recorded).Some? ==>
              exists i: nat, outcome ::
                && EndsAt(Taken(w, events), group, i)
                && LastRecorded(Taken(w, events), group, i, recorded, outcome)
                && EndOf(w, group, events, recorded).value
                   == if outcome.Some? then Recorded(outcome.value) else NotApplied
    decreases |events|
  {
    if events != [] {
      if !Enabled(w, events[0]) {
        assert Taken(w, events) == Taken(w, events[1..]);
        EndOfIff(w, group, events[1..], recorded);
      } else {
        var e := events[0];
        var rest := Taken(Next(w, e), events[1..]);
        var more := if e.RecordFetch? && e.group == group then Some(e.outcome) else recorded;
        assert Taken(w, events) == [e] + rest;
        if e == Finish(group) {
          assert EndsAt(Taken(w, events), group, 0);
          assert LastRecorded([e] + rest, group, 0, recorded, recorded);
        } else if e == Crash {
          assert ([e] + rest)[0] == Crash;
        } else {
          EndOfIff(Next(w, e), group, events[1..], more);
          EndShifts(e, rest, group);
          if EndOf(w, group, events, recorded).Some? {
            var i: nat, outcome :|
              && EndsAt(rest, group, i) && LastRecorded(rest, group, i, more, outcome)
              && EndOf(w, group, events, recorded).value
                 == if outcome.Some? then Recorded(outcome.value) else NotApplied;
            LastRecordedShifts(e, rest, group, i, recorded, outcome);
          }
        }
      }
    }
  }

  lemma EndShifts(e: Event, rest: seq<Event>, group: string)
    requires e != Crash && e != Finish(group)
    ensures forall i: nat :: EndsAt(rest, group, i) ==> EndsAt([e] + rest, group, i + 1)
    ensures forall i: nat :: EndsAt([e] + rest, group, i) ==> i > 0 && EndsAt(rest, group, i - 1)
  {
    var steps := [e] + rest;
    assert forall i :: 0 <= i < |rest| ==> steps[i + 1] == rest[i];
    forall i: nat | EndsAt(rest, group, i) ensures EndsAt(steps, group, i + 1) {
      forall j | 0 <= j < i + 1 ensures steps[j] != Crash && steps[j] != Finish(group) {
        assert j > 0 ==> steps[j] == rest[j - 1];
      }
    }
    forall i: nat | EndsAt(steps, group, i) ensures i > 0 && EndsAt(rest, group, i - 1) {
      assert steps[0] == e;
      forall j | 0 <= j < i - 1 ensures rest[j] != Crash && rest[j] != Finish(group) {
        assert rest[j] == steps[j + 1];
      }
    }
  }

  // --- The budget of a call --------------------------------------------------------------------

  /** The steps of others keep the budget, and none comes between the decision and the start of the call. */
  ghost predicate OthersKeepBudget(w: World, group: string, claim: Option<MessageClaim>, rounds: seq<Round>)
    decreases |rounds|
  {
    rounds == []
    || (&& rounds[0].reading == []
        && (var from := if group in w.inFlight || Decide(w, group, claim).Answered? then w
                        else Next(w, StartOf(group, Decide(w, group, claim)));
            ValidRun(from, Taken(from, rounds[0].waiting)) && BudgetedRun(from, Taken(from, rounds[0].waiting)))
        && OthersKeepBudget(Others(w, Played(w, group, claim, rounds[0])), group, claim, rounds[1..]))
  }

  lemma {:induction false} BudgetedConcat(w: World, first: seq<Event>, second: seq<Event>)
    requires ValidRun(w, first) && ValidRun(Run(w, first), second) && ValidRun(w, first + second)
    requires BudgetedRun(w, first) && BudgetedRun(Run(w, first), second)
    ensures BudgetedRun(w, first + second)
    decreases |first|
  {
    if first == [] {
      assert first + second == second;
    } else {
      ConcatOfFirst(first, second);
      RunOfFirst(w, first);
      BudgetedConcat(Next(w, first[0]), first[1..], second);
    }
  }

  lemma RoundKeepsBudget(w: World, group: string, claim: Option<MessageClaim>, rounds: seq<Round>)
    requires rounds != [] && OthersKeepBudget(w, group, claim, rounds)
    ensures var steps := Taken(w, Played(w, group, claim, rounds[0])); ValidRun(w, steps) && BudgetedRun(w, steps)
  {
    var round := rounds[0];
    TakenRuns(w, Played(w, group, claim, round));
    if group !in w.inFlight && !Decide(w, group, claim).Answered? {
      var start := StartOf(group, Decide(w, group, claim));
      StartingRound(w, group, claim, round);
      assert DecidesToStart(w, start, claim);
      var steps := [start] + Taken(Next(w, start), round.waiting);
      assert Taken(w, []) + steps == steps && steps[1..] == Taken(Next(w, start), round.waiting);
    }
  }

  /** Then the whole call is a run within the budget, so it keeps the fetch budget of every window. */
  lemma {:induction false} CallKeepsBudget(w: World, group: string, claim: Option<MessageClaim>, rounds: seq<Round>)
    requires BudgetHolds(w) && OthersKeepBudget(w, group, claim, rounds)
    ensures ValidRun(w, Steps(w, group, claim, rounds)) && BudgetedRun(w, Steps(w, group, claim, rounds))
    ensures BudgetHolds(AfterRounds(w, group, claim, rounds).0)
    decreases |rounds|
  {
    CallIsARun(w, group, claim, rounds);
    if rounds != [] {
      var played := Played(w, group, claim, rounds[0]);
      TakenRuns(w, played);
      RoundKeepsBudget(w, group, claim, rounds);
      BudgetHoldsThroughout(w, Taken(w, played));
      if Answer(w, group, claim, rounds[0]).Some? {
        assert Taken(w, played) + [] == Taken(w, played);
      } else {
        CallKeepsBudget(Others(w, played), group, claim, rounds[1..]);
        BudgetedConcat(w, Taken(w, played), Steps(Others(w, played), group, claim, rounds[1..]));
      }
    }
  }
}
