/**
 * The delivery error of one failed envelope (client/delivery-error.ts): when
 * the error hook and the recovery hook run, and when the stored request record
 * says that they did.
 */
module DeliveryError {
  import opened Options
  import opened Sequences

  const DAY_MS := 86_400_000
  const RELIABILITY_RECORD_TTL_MS := 30 * DAY_MS
  const RETRY_REQUESTER_RECORD_TTL_MS := 2 * RELIABILITY_RECORD_TTL_MS
  const RETRY_PLACEHOLDER_DEADLINE_MS := 3_600_000

  datatype Hint = Default | Resendable | Implicit

  datatype TerminalClass = AbuseAllowanceExhausted | OtherTerminal

  datatype FailureClass = TransportOutage | RateRefusal

  datatype Cause = RateLimit | RequestEnded | Deadline | ContentHint

  /** The part of a stored request record that the hooks depend on. */
  datatype Record = Record(
    attempt: nat,
    requestedAt: int,
    receivedAt: Option<int>,
    failedSender: Option<string>,
    contentHint: Option<Hint>,
    terminal: Option<TerminalClass>,
    lastFailure: Option<FailureClass>,
    errorShown: bool,
    recoveredEmitted: bool)

  datatype Processed = Processed(processedAt: int, fulfilled: bool, completed: bool)

  datatype Store = Store(record: Option<Record>, processed: Option<Processed>)

  datatype Due = Due(at: int, cause: Cause)

  /** The record, when it is not expired. */
  function GetRecord(store: Store, now: int): Option<Record> {
    if store.record.Some? && store.record.value.requestedAt >= now - RETRY_REQUESTER_RECORD_TTL_MS
    then store.record else None
  }

  function GetProcessed(store: Store, now: int): Option<Processed> {
    if store.processed.None? then None
    else
      var lasting := store.processed.value.fulfilled || store.processed.value.completed;
      var ttl := if lasting then RETRY_REQUESTER_RECORD_TTL_MS else RELIABILITY_RECORD_TTL_MS;
      if store.processed.value.processedAt < now - ttl then None else store.processed
  }

  /** When the error of a record is due, 0 for at once, and why. */
  function DeliveryErrorDue(record: Record): Option<Due> {
    if record.errorShown || record.receivedAt.None? || record.failedSender.None?
       || record.contentHint == Some(Implicit) then None
    else if record.terminal == Some(AbuseAllowanceExhausted) || record.lastFailure == Some(RateRefusal)
    then Some(Due(0, RateLimit))
    else if record.terminal.Some? then Some(Due(0, RequestEnded))
    else if record.contentHint == Some(Resendable)
    then Some(Due(record.receivedAt.value + RETRY_PLACEHOLDER_DEADLINE_MS, Deadline))
    else Some(Due(0, ContentHint))
  }

  // --- The two reports ---------------------------------------------------------------------

  /**
   * What a hook does: it returns and the client reaches the mark at a time, it
   * returns and the client stops before the mark, or it throws or stops with the
   * client.
   */
  datatype Outcome = Returns(at: int) | StopsBeforeTheMark | Fails

  /** A hook that ran, or a report that found no hook registered. */
  datatype Call =
    | Ran(recovery: bool, at: int, cause: Option<Cause>, returned: bool)
    | Skipped(recovery: bool)

  datatype World = World(store: Store, calls: seq<Call>)

  datatype Event =
    | First(requestedAt: int, receivedAt: Option<int>, failedSender: Option<string>, contentHint: Option<Hint>)
    | NextAttempt(now: int)
    | Terminate(ending: TerminalClass)
    | Fail(failure: Option<FailureClass>)
    | Process(now: int, fulfilled: bool, completed: bool)
    | ForgetProcessed
    | Expire
    | ReportError(registered: bool, now: int, outcome: Outcome)
    | ReportRecovered(registered: bool, now: int, outcome: Outcome)

  /** The error of the record is due now, and the application does not have the content. */
  predicate ErrorRuns(store: Store, now: int) {
    && GetRecord(store, now).Some?
    && DeliveryErrorDue(GetRecord(store, now).value).Some?
    && !(GetProcessed(store, now).Some? && GetProcessed(store, now).value.fulfilled)
    && DeliveryErrorDue(GetRecord(store, now).value).value.at <= now
  }

  predicate RecoveryRuns(store: Store, now: int) {
    && GetRecord(store, now).Some?
    && GetRecord(store, now).value.errorShown && !GetRecord(store, now).value.recoveredEmitted
    && GetRecord(store, now).value.receivedAt.Some? && GetRecord(store, now).value.failedSender.Some?
    && GetProcessed(store, now).Some? && GetProcessed(store, now).value.completed
  }

  function Called(recovery: bool, registered: bool, now: int, cause: Option<Cause>, outcome: Outcome): Call {
    if registered then Ran(recovery, now, cause, !outcome.Fails?) else Skipped(recovery)
  }

  function ErrorStep(w: World, registered: bool, now: int, outcome: Outcome): World {
    if !ErrorRuns(w.store, now) then w
    else
      var due := DeliveryErrorDue(GetRecord(w.store, now).value).value;
      var calls := w.calls + [Called(false, registered, now, Some(due.cause), outcome)];
      if outcome.Returns? && GetRecord(w.store, outcome.at).Some? then
        World(w.store.(record := Some(w.store.record.value.(errorShown := true))), calls)
      else w.(calls := calls)
  }

  function RecoveredStep(w: World, registered: bool, now: int, outcome: Outcome): World {
    if !RecoveryRuns(w.store, now) then w
    else
      var calls := w.calls + [Called(true, registered, now, None, outcome)];
      if outcome.Returns? && GetRecord(w.store, outcome.at).Some? then
        World(w.store.(record := Some(w.store.record.value.(recoveredEmitted := true))), calls)
      else w.(calls := calls)
  }

  // --- When a hook runs, told by the stored records --------------------------------------------

  /** A stored request record lasts 60 days from its request. */
  predicate RecordLasts(store: Store, now: int) {
    store.record.Some? && now - store.record.value.requestedAt <= 60 * DAY_MS
  }

  /** A processed record lasts 30 days, and 60 days when the content came. */
  predicate ProcessedLasts(store: Store, now: int) {
    && store.processed.Some?
    && now - store.processed.value.processedAt
       <= (if store.processed.value.fulfilled || store.processed.value.completed then 60 else 30) * DAY_MS
  }

  lemma RecordsLast(store: Store, now: int)
    ensures GetRecord(store, now) == if RecordLasts(store, now) then store.record else None
    ensures GetProcessed(store, now) == if ProcessedLasts(store, now) then store.processed else None
  {
  }

  /** The failed envelope can be shown at all: it came from a sender at a time, and is not Implicit. */
  predicate CanBeShown(record: Record) {
    record.receivedAt.Some? && record.failedSender.Some? && record.contentHint != Some(Implicit)
  }

  /** The error need not wait: the request ended or was refused for its rate, or no resend is expected. */
  predicate IsDueAtOnce(record: Record) {
    record.terminal.Some? || record.lastFailure == Some(RateRefusal) || record.contentHint != Some(Resendable)
  }

  /**
   * The error hook runs if and only if the record lasts, was not shown and can be
   * shown, the application does not have the content, and the error is due: at
   * once, or one hour after the envelope came.
   */
  lemma ErrorRunsIff(store: Store, now: int)
    requires now >= 0
    ensures ErrorRuns(store, now) <==>
            && RecordLasts(store, now) && !store.record.value.errorShown && CanBeShown(store.record.value)
            && !(ProcessedLasts(store, now) && store.processed.value.fulfilled)
            && (|| IsDueAtOnce(store.record.value)
                || now >= store.record.value.receivedAt.value + 3_600_000)
  {
  }

  /** The cause that the hook gets: a rate limit before an ended request before a deadline. */
  lemma CauseIff(record: Record)
    requires DeliveryErrorDue(record).Some?
    ensures var cause := DeliveryErrorDue(record).value.cause;
            && (cause == RateLimit <==>
                  record.terminal == Some(AbuseAllowanceExhausted) || record.lastFailure == Some(RateRefusal))
            && (cause == RequestEnded <==>
                  record.terminal == Some(OtherTerminal) && record.lastFailure != Some(RateRefusal))
            && (cause == Deadline <==> !IsDueAtOnce(record))
            && (cause == ContentHint <==>
                  record.terminal.None? && record.lastFailure != Some(RateRefusal)
                  && record.contentHint != Some(Resendable))
  {
    if record.terminal.Some? {
      match record.terminal.value
      case AbuseAllowanceExhausted =>
      case OtherTerminal =>
    }
  }

  /**
   * The recovery hook runs if and only if the record lasts, the error was shown and
   * the recovery was not, and the application finished the content.
   */
  lemma RecoveryRunsIff(store: Store, now: int)
    ensures RecoveryRuns(store, now) <==>
            && RecordLasts(store, now) && store.record.value.errorShown && !store.record.value.recoveredEmitted
            && store.record.value.receivedAt.Some? && store.record.value.failedSender.Some?
            && ProcessedLasts(store, now) && store.processed.value.completed
  {
  }

  /**
   * A report whose hook runs logs one call, and marks the record if and only if the
   * client reached the mark while the record lasted. Another report does nothing.
   */
  lemma ReportWrites(w: World, registered: bool, now: int, outcome: Outcome)
    ensures var after := ErrorStep(w, registered, now, outcome);
            && after.store.processed == w.store.processed
            && (if !ErrorRuns(w.store, now) then after == w
                else
                  && |after.calls| == |w.calls| + 1 && w.calls <= after.calls
                  && (registered ==>
                        after.calls[|w.calls|]
                        == Ran(false, now, Some(DeliveryErrorDue(w.store.record.value).value.cause), !outcome.Fails?))
                  && (!registered ==> after.calls[|w.calls|] == Skipped(false))
                  && after.store.record
                     == Some(w.store.record.value.(
                          errorShown := outcome.Returns? && RecordLasts(w.store, outcome.at))))
    ensures var after := RecoveredStep(w, registered, now, outcome);
            && after.store.processed == w.store.processed
            && (if !RecoveryRuns(w.store, now) then after == w
                else
                  && |after.calls| == |w.calls| + 1 && w.calls <= after.calls
                  && (registered ==> after.calls[|w.calls|] == Ran(true, now, None, !outcome.Fails?))
                  && (!registered ==> after.calls[|w.calls|] == Skipped(true))
                  && after.store.record
                     == Some(w.store.record.value.(
                          recoveredEmitted := outcome.Returns? && RecordLasts(w.store, outcome.at))))
  {
  }

  // --- Runs of one failed envelope ------------------------------------------------------------

  /** A request is stored when there is none. The calls are those of the stored request. */
  predicate Enabled(w: World, event: Event) {
    match event
    case First(_, _, _, _) => w.store.record.None?
    case NextAttempt(now) => GetRecord(w.store, now).Some?
    case _ => true
  }

  function Changed(w: World, record: Record): World {
    w.(store := w.store.(record := Some(record)))
  }

  function Next(w: World, event: Event): World
    requires Enabled(w, event)
  {
    match event
    case First(requestedAt, receivedAt, sender, hint) =>
      Changed(w.(calls := []), Record(1, requestedAt, receivedAt, sender, hint, None, None, false, false))
    case NextAttempt(now) =>
      var record := w.store.record.value;
      Changed(w, record.(attempt := record.attempt + 1, requestedAt := now, terminal := None, lastFailure := None))
    case Terminate(ending) =>
      if w.store.record.None? then w
      else Changed(w, w.store.record.value.(terminal := Some(ending), lastFailure := None))
    case Fail(failure) =>
      if w.store.record.None? then w else Changed(w, w.store.record.value.(lastFailure := failure))
    case Process(now, fulfilled, completed) =>
      var before := GetProcessed(w.store, now).GetOr(Processed(now, false, false));
      w.(store := w.store.(processed :=
        Some(Processed(now, fulfilled || before.fulfilled, completed || before.completed))))
    case ForgetProcessed => w.(store := w.store.(processed := None))
    case Expire => World(w.store.(record := None), [])
    case ReportError(registered, now, outcome) => ErrorStep(w, registered, now, outcome)
    case ReportRecovered(registered, now, outcome) => RecoveredStep(w, registered, now, outcome)
  }

  /**
   * Field by field: a request gives the record its facts, which no later event
   * changes; an attempt starts with no failure, and an ended request has no other
   * one; content that came or was finished stays so while its record lasts.
   */
  lemma FieldsAfter(w: World, event: Event)
    requires Enabled(w, event)
    ensures var before, after := w.store.record, Next(w, event).store.record;
            && (after.Some? <==> event.First? || (before.Some? && event != Expire))
            && (event.First? ==>
                  after.value == Record(1, event.requestedAt, event.receivedAt, event.failedSender, event.contentHint,
                                        None, None, false, false))
            && (after.Some? && !event.First? ==>
                  && after.value.receivedAt == before.value.receivedAt
                  && after.value.failedSender == before.value.failedSender
                  && after.value.contentHint == before.value.contentHint
                  && after.value.attempt == before.value.attempt + (if event.NextAttempt? then 1 else 0)
                  && after.value.requestedAt == (if event.NextAttempt? then event.now else before.value.requestedAt)
                  && after.value.terminal
                     == (if event.NextAttempt? then None
                         else if event.Terminate? then Some(event.ending) else before.value.terminal)
                  && after.value.lastFailure
                     == (if event.NextAttempt? || event.Terminate? then None
                         else if event.Fail? then event.failure else before.value.lastFailure)
                  && (before.value.errorShown ==> after.value.errorShown)
                  && (before.value.recoveredEmitted ==> after.value.recoveredEmitted)
                  && (!event.ReportError? ==> after.value.errorShown == before.value.errorShown)
                  && (!event.ReportRecovered? ==> after.value.recoveredEmitted == before.value.recoveredEmitted))
    ensures var before, after := w.store.processed, Next(w, event).store.processed;
            && (after.Some? <==> event.Process? || (before.Some? && event != ForgetProcessed))
            && (after.Some? && !event.Process? ==> after == before)
            && (event.Process? ==>
                  && after.value.processedAt == event.now
                  && (after.value.fulfilled <==>
                        event.fulfilled || (ProcessedLasts(w.store, event.now) && before.value.fulfilled))
                  && (after.value.completed <==>
                        event.completed || (ProcessedLasts(w.store, event.now) && before.value.completed)))
  {
  }

  predicate ValidRun(w: World, events: seq<Event>)
    decreases |events|
  {
    events == [] || (Enabled(w, events[0]) && ValidRun(Next(w, events[0]), events[1..]))
  }

  function Run(w: World, events: seq<Event>): World
    requires ValidRun(w, events)
    decreases |events|
  {
    if events == [] then w else Run(Next(w, events[0]), events[1..])
  }

  /** Events take effect one after another. */
  lemma {:induction false} OneMoreEvent(w: World, events: seq<Event>, last: Event)
    requires ValidRun(w, events)
    ensures ValidRun(w, events + [last]) <==> Enabled(Run(w, events), last)
    ensures ValidRun(w, events + [last]) ==> Run(w, events + [last]) == Next(Run(w, events), last)
    decreases |events|
  {
    var all := events + [last];
    if events != [] {
      OneMoreEvent(Next(w, events[0]), events[1..], last);
      assert all[0] == events[0] && all[1..] == events[1..] + [last];
    }
  }

  /** A request is stored only when there is none, and attempted again while its record lasts. */
  lemma CanHappenIff(w: World, event: Event)
    ensures Enabled(w, event) <==>
            (event.First? ==> w.store.record.None?) && (event.NextAttempt? ==> RecordLasts(w.store, event.now))
  {
  }

  const EMPTY := World(Store(None, None), [])

  // --- The invariant ---------------------------------------------------------------------------

  /** The registered hook returned, or no hook was registered when the report ran. */
  ghost predicate Settled(calls: seq<Call>, recovery: bool) {
    exists i :: 0 <= i < |calls| && calls[i].recovery == recovery && (calls[i].Ran? ==> calls[i].returned)
  }

  /** Every error call comes before every recovery call. */
  ghost predicate ErrorsFirst(calls: seq<Call>) {
    forall i, j :: 0 <= i < j < |calls| && calls[i].recovery ==> calls[j].recovery
  }

  /**
   * An error call at its content hint is not of a Resendable envelope, and one
   * at its deadline waited for it.
   */
  ghost predicate RightTime(record: Record, call: Call) {
    call.Ran? && !call.recovery ==>
      && (call.cause == Some(ContentHint) ==> record.contentHint != Some(Resendable))
      && (call.cause == Some(Deadline) ==>
            && record.receivedAt.Some?
            && call.at >= record.receivedAt.value + RETRY_PLACEHOLDER_DEADLINE_MS)
  }

  ghost predicate RecordOk(record: Record, calls: seq<Call>) {
    && (record.errorShown ==> Settled(calls, false))
    && (record.recoveredEmitted ==> record.errorShown && Settled(calls, true))
    && (forall i :: 0 <= i < |calls| && calls[i].recovery ==> record.errorShown)
    && (record.contentHint == Some(Implicit) ==> !record.errorShown && calls == [])
    && (forall i :: 0 <= i < |calls| ==> RightTime(record, calls[i]))
    && ErrorsFirst(calls)
  }

  ghost predicate Sound(w: World) {
    w.store.record.Some? ==> RecordOk(w.store.record.value, w.calls)
  }

  lemma SettledByLast(calls: seq<Call>, call: Call)
    requires call.Ran? ==> call.returned
    ensures Settled(calls + [call], call.recovery)
  {
    assert (calls + [call])[|calls|] == call;
  }

  lemma SettledStays(calls: seq<Call>, call: Call, recovery: bool)
    requires Settled(calls, recovery)
    ensures Settled(calls + [call], recovery)
  {
    var i :| 0 <= i < |calls| && calls[i].recovery == recovery && (calls[i].Ran? ==> calls[i].returned);
    assert (calls + [call])[i] == calls[i];
  }

  lemma ErrorStepKeeps(w: World, registered: bool, now: int, outcome: Outcome)
    requires Sound(w)
    ensures Sound(ErrorStep(w, registered, now, outcome))
  {
    if ErrorRuns(w.store, now) {
      var due := DeliveryErrorDue(w.store.record.value).value;
      var call := Called(false, registered, now, Some(due.cause), outcome);
      assert forall i :: 0 <= i < |w.calls| ==> !w.calls[i].recovery;
      if outcome.Returns? {
        SettledByLast(w.calls, call);
      }
    }
  }

  lemma RecoveredStepKeeps(w: World, registered: bool, now: int, outcome: Outcome)
    requires Sound(w)
    ensures Sound(RecoveredStep(w, registered, now, outcome))
  {
    if RecoveryRuns(w.store, now) {
      var call := Called(true, registered, now, None, outcome);
      SettledStays(w.calls, call, false);
      if outcome.Returns? {
        SettledByLast(w.calls, call);
      }
    }
  }

  lemma StepKeepsSound(w: World, event: Event)
    requires Sound(w) && Enabled(w, event)
    ensures Sound(Next(w, event))
  {
    match event
    case ReportError(registered, now, outcome) => ErrorStepKeeps(w, registered, now, outcome);
    case ReportRecovered(registered, now, outcome) => RecoveredStepKeeps(w, registered, now, outcome);
    case _ =>
  }

  /**
   * In every run: a mark is set only after its hook returned or none was
   * registered, no recovery runs before a shown error, every error call comes
   * before every recovery call, a Resendable envelope gets no error before its
   * deadline but for a rate limit or an ended request, and an Implicit one gets
   * neither hook.
   */
  lemma {:induction false} MarksFollowTheHooks(w: World, events: seq<Event>)
    requires Sound(w) && ValidRun(w, events)
    ensures var after := Run(w, events);
            after.store.record.Some? ==> RecordOk(after.store.record.value, after.calls)
    decreases |events|
  {
    if events != [] {
      StepKeepsSound(w, events[0]);
      MarksFollowTheHooks(Next(w, events[0]), events[1..]);
    }
  }

  ghost predicate AlwaysRegistered(events: seq<Event>) {
    forall event :: event in events ==>
      && (event.ReportError? ==> event.registered)
      && (event.ReportRecovered? ==> event.registered)
  }

  lemma {:induction false} EveryReportRan(w: World, events: seq<Event>)
    requires ValidRun(w, events) && AlwaysRegistered(events)
    requires forall i :: 0 <= i < |w.calls| ==> w.calls[i].Ran?
    ensures forall i :: 0 <= i < |Run(w, events).calls| ==> Run(w, events).calls[i].Ran?
    decreases |events|
  {
    if events != [] {
      assert events[0] in events;
      EveryReportRan(Next(w, events[0]), events[1..]);
    }
  }

  /** The call is of a hook that returned. */
  predicate ReturnedCall(call: Call, recovery: bool) {
    call.recovery == recovery && call.Ran? && call.returned
  }

  /** With both hooks registered in every report, a mark means that its hook returned. */
  lemma MarkedMeansReturned(events: seq<Event>)
    requires ValidRun(EMPTY, events) && AlwaysRegistered(events) && Run(EMPTY, events).store.record.Some?
    ensures var w := Run(EMPTY, events);
            && (w.store.record.value.errorShown ==> exists call :: call in w.calls && ReturnedCall(call, false))
            && (w.store.record.value.recoveredEmitted ==> exists call :: call in w.calls && ReturnedCall(call, true))
  {
    MarksFollowTheHooks(EMPTY, events);
    EveryReportRan(EMPTY, events);
    var w := Run(EMPTY, events);
    if w.store.record.value.errorShown {
      var i :| 0 <= i < |w.calls| && !w.calls[i].recovery && (w.calls[i].Ran? ==> w.calls[i].returned);
      assert w.calls[i] in w.calls && ReturnedCall(w.calls[i], false);
    }
    if w.store.record.value.recoveredEmitted {
      var i :| 0 <= i < |w.calls| && w.calls[i].recovery && (w.calls[i].Ran? ==> w.calls[i].returned);
      assert w.calls[i] in w.calls && ReturnedCall(w.calls[i], true);
    }
  }

  // --- After a mark --------------------------------------------------------------------------------

  /** The calls that a run adds. */
  ghost predicate OnlyRecoveriesAdded(before: seq<Call>, after: seq<Call>) {
    before <= after && forall i :: |before| <= i < |after| ==> after[i].recovery
  }

  /** After the error is marked, the error hook runs no more, in this and every later attempt. */
  lemma {:induction false} NoErrorAfterItsMark(w: World, events: seq<Event>)
    requires ValidRun(w, events) && Expire !in events
    requires w.store.record.Some? && w.store.record.value.errorShown
    ensures OnlyRecoveriesAdded(w.calls, Run(w, events).calls)
    decreases |events|
  {
    if events != [] {
      var after := Next(w, events[0]);
      assert events[0] in events;
      assert OnlyRecoveriesAdded(w.calls, after.calls);
      NoErrorAfterItsMark(after, events[1..]);
    }
  }

  /** After the recovery is marked, neither hook runs again. */
  lemma {:induction false} NothingAfterTheRecoveryMark(w: World, events: seq<Event>)
    requires ValidRun(w, events) && Expire !in events
    requires w.store.record.Some? && w.store.record.value.errorShown && w.store.record.value.recoveredEmitted
    ensures Run(w, events).calls == w.calls
    decreases |events|
  {
    if events != [] {
      assert events[0] in events;
      NothingAfterTheRecoveryMark(Next(w, events[0]), events[1..]);
    }
  }

  // --- At least once --------------------------------------------------------------------------------

  /** The error is still to be shown: it is due now or later. */
  predicate ErrorOwed(store: Store) {
    store.record.Some? && !store.record.value.errorShown && CanBeShown(store.record.value)
  }

  /** The recovery is still to be shown, and the recovered content is recorded. */
  predicate RecoveryOwed(store: Store) {
    && store.record.Some? && store.record.value.errorShown && !store.record.value.recoveredEmitted
    && store.record.value.receivedAt.Some? && store.record.value.failedSender.Some?
    && store.processed.Some? && store.processed.value.completed
  }

  lemma {:induction false} ErrorStaysOwed(w: World, events: seq<Event>)
    requires ErrorOwed(w.store) && ValidRun(w, events) && Expire !in events
    ensures var after := Run(w, events).store;
            && after.record.Some? && (after.record.value.errorShown || ErrorOwed(after))
            && after.record.value.receivedAt == w.store.record.value.receivedAt
    decreases |events|
  {
    if events != [] {
      assert events[0] in events;
      var after := Next(w, events[0]);
      if after.store.record.value.errorShown {
        ShownStays(after, events[1..]);
      } else {
        ErrorStaysOwed(after, events[1..]);
      }
    }
  }

  lemma {:induction false} ShownStays(w: World, events: seq<Event>)
    requires w.store.record.Some? && w.store.record.value.errorShown && ValidRun(w, events) && Expire !in events
    ensures var after := Run(w, events).store;
            && after.record.Some? && after.record.value.errorShown
            && after.record.value.receivedAt == w.store.record.value.receivedAt
            && (w.store.record.value.recoveredEmitted ==> after.record.value.recoveredEmitted)
    decreases |events|
  {
    if events != [] {
      assert events[0] in events;
      ShownStays(Next(w, events[0]), events[1..]);
    }
  }

  /**
   * The error hook runs at least once. Whatever reports, attempts, endings, hook
   * failures and crashes a run holds, it ends with the error marked after a hook
   * that returned, or the next report from the deadline on runs the hook, while
   * the record lasts and the application does not have the content.
   */
  lemma ErrorIsReportedUntilItsHookReturns(w: World, events: seq<Event>, now: int)
    requires Sound(w) && ErrorOwed(w.store) && ValidRun(w, events) && Expire !in events
    requires now >= 0 && now >= w.store.record.value.receivedAt.value + RETRY_PLACEHOLDER_DEADLINE_MS
    requires var after := Run(w, events).store;
             RecordLasts(after, now) && !(ProcessedLasts(after, now) && after.processed.value.fulfilled)
    ensures var after := Run(w, events);
            && after.store.record.Some?
            && (after.store.record.value.errorShown <==> !ErrorRuns(after.store, now))
            && (after.store.record.value.errorShown ==> Settled(after.calls, false))
  {
    ErrorStaysOwed(w, events);
    MarksFollowTheHooks(w, events);
  }

  /** The event forgets the record of the content, or writes it again after it expired. */
  predicate DropsContent(w: World, event: Event) {
    event == ForgetProcessed || (event.Process? && !ProcessedLasts(w.store, event.now))
  }

  ghost predicate KeepsContent(w: World, events: seq<Event>)
    requires ValidRun(w, events)
    decreases |events|
  {
    events == [] || (!DropsContent(w, events[0]) && KeepsContent(Next(w, events[0]), events[1..]))
  }

  lemma {:induction false} RecoveryStaysOwed(w: World, events: seq<Event>)
    requires RecoveryOwed(w.store) && ValidRun(w, events) && Expire !in events && KeepsContent(w, events)
    ensures var after := Run(w, events).store;
            after.record.Some? && (after.record.value.recoveredEmitted || RecoveryOwed(after))
    decreases |events|
  {
    if events != [] {
      assert events[0] in events;
      var after := Next(w, events[0]);
      if after.store.record.value.recoveredEmitted {
        ShownStays(after, events[1..]);
      } else {
        RecoveryStaysOwed(after, events[1..]);
      }
    }
  }

  /** The recovery hook runs at least once in the same way, while both records last. */
  lemma RecoveryIsReportedUntilItsHookReturns(w: World, events: seq<Event>, now: int)
    requires Sound(w) && RecoveryOwed(w.store) && ValidRun(w, events)
    requires Expire !in events && KeepsContent(w, events)
    requires RecordLasts(Run(w, events).store, now) && ProcessedLasts(Run(w, events).store, now)
    ensures var after := Run(w, events);
            && after.store.record.Some?
            && (after.store.record.value.recoveredEmitted <==> !RecoveryRuns(after.store, now))
            && (after.store.record.value.recoveredEmitted ==> Settled(after.calls, true))
  {
    RecoveryStaysOwed(w, events);
    MarksFollowTheHooks(w, events);
  }

  // --- The reports as the client runs them -----------------------------------------------------------

  /**
   * What a report resolves to: no later check, a check at a later time, or the
   * failure of its hook. A report that stops with the client resolves to nothing.
   */
  datatype Report = NoLaterCheck | CheckAt(time: int) | Rejected | Unresolved

  class DeliveryErrorReports {
    var store: Store
    ghost var calls: seq<Call>

    ghost function View(): World
      reads this
    {
      World(store, calls)
    }

    constructor (store: Store)
      ensures View() == World(store, [])
    {
      this.store, calls := store, [];
    }

    method ReportDeliveryError(registered: bool, now: int, outcome: Outcome) returns (report: Report)
      modifies this
      ensures View() == ErrorStep(old(View()), registered, now, outcome)
      ensures report.CheckAt? ==> report.time > now && View() == old(View())
      ensures report.Rejected? <==> ErrorRuns(old(store), now) && outcome.Fails?
      ensures report.Unresolved? <==> ErrorRuns(old(store), now) && outcome.StopsBeforeTheMark?
      ensures report.NoLaterCheck? && old(GetRecord(store, now)).Some? && View() == old(View())
              && store.record.value.receivedAt.Some? && store.record.value.failedSender.Some?
              ==> store.record.value.errorShown || store.record.value.contentHint == Some(Implicit)
                  || (GetProcessed(store, now).Some? && GetProcessed(store, now).value.fulfilled)
    {
      var record := GetRecord(store, now);
      if record.None? {
        return NoLaterCheck;
      }
      var due := DeliveryErrorDue(record.value);
      if due.None? {
        return NoLaterCheck;
      }
      var processed := GetProcessed(store, now);
      if processed.Some? && processed.value.fulfilled {
        return NoLaterCheck;
      }
      if due.value.at > now {
        return CheckAt(due.value.at);
      }
      calls := calls + [Called(false, registered, now, Some(due.value.cause), outcome)];
      if outcome.Fails? {
        return Rejected;
      }
      if outcome.StopsBeforeTheMark? {
        return Unresolved;
      }
      if GetRecord(store, outcome.at).Some? {
        store := store.(record := Some(record.value.(errorShown := true)));
      }
      return NoLaterCheck;
    }

    method ReportDeliveryRecovered(registered: bool, now: int, outcome: Outcome) returns (rejected: bool)
      modifies this
      ensures View() == RecoveredStep(old(View()), registered, now, outcome)
      ensures rejected <==> RecoveryRuns(old(store), now) && outcome.Fails?
    {
      var record := GetRecord(store, now);
      if record.None? || !record.value.errorShown || record.value.recoveredEmitted {
        return false;
      }
      if record.value.receivedAt.None? || record.value.failedSender.None? {
        return false;
      }
      var processed := GetProcessed(store, now);
      if processed.None? || !processed.value.completed {
        return false;
      }
      calls := calls + [Called(true, registered, now, None, outcome)];
      if outcome.Fails? {
        return true;
      }
      if outcome.StopsBeforeTheMark? {
        return false;
      }
      if GetRecord(store, outcome.at).Some? {
        store := store.(record := Some(record.value.(recoveredEmitted := true)));
      }
      return false;
    }
  }
}
