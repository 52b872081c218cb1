/**
 * Runs of a declared group send (client/group-outbox.ts): pre-messages that are
 * settled or removed, renewed devices, an accepted or given-up body, repairs,
 * and replays after a crash. In every pass the body holds whole accounts.
 */
module DeclaredSendRuns {
  import opened Options
  import opened Sequences
  import opened Associations
  import opened DeviceSets
  import opened GroupIntents
  import opened GroupSealedSender
  import opened DeclaredGroupSends

  /**
   * Where a pass is: it settles its pre-messages, renews what they touched, and
   * posts. A call that threw in the middle has ended.
   */
  datatype Phase = Opening | Renewing | Posting | Ended

  /**
   * The stored intent and what one call knows: whether the Relay accepted the
   * body, and whether the body cannot go out sealed. Until the pass renews them:
   * the devices that its pre-messages refreshed, the accounts that they touched,
   * and those of them that lost a device.
   */
  datatype Send = Send(
    intent: Intent,
    accepted: bool,
    forced: bool,
    phase: Phase,
    refreshed: set<Device>,
    touched: set<string>,
    dropped: set<string>)

  /** A call between the steps of a pass. */
  function InCall(intent: Intent, accepted: bool, forced: bool, phase: Phase): Send {
    Send(intent, accepted, forced, phase, {}, {}, {})
  }

  /** The accounts of a seal that has a known identity, or no seal at all. */
  datatype Sealing = NoSeal | Seals(known: set<string>)

  /**
   * `Dispatch` is the write after the pre-messages of a pass: `settled` are the
   * client message IDs of those that the Relay accepted or the send dropped. It
   * completes when every pre-message is settled, and else the call throws after
   * the write. `Replay` is a later call, after a crash or a throw at any point.
   */
  datatype Event =
    | ReplacePreMessage(at: nat, replacement: Message)
    | Dispatch(settled: set<string>, refreshed: set<Device>, removed: set<Device>, completes: bool)
    | Renew(renewed: seq<Message>, sealing: Sealing)
    | BodyAccepted
    | ForceIdentified
    | RepairDevices(
        accounts: set<string>, removed: set<Device>, preMessages: seq<Message>, added: seq<Message>,
        bundleMissing: seq<Device>, sealing: Sealing)
    | Replay

  predicate BodyOpen(send: Send) {
    send.intent.body.Some? && !send.accepted && !send.forced
  }

  predicate NamesAny(body: Option<Body>, accounts: set<string>) {
    body.Some? && exists userId :: userId in accounts && Names(body.value, userId)
  }

  /** The body sealed again for the messages of its accounts, or dropped when none remains in a body. */
  function Reseal(body: Body, messages: seq<Message>, sealing: Sealing): BodyChange {
    if sealing.NoSeal? then DropBody
    else
      var members := DevicesOfMessages(Filter(messages, (message: Message) => Names(body, message.device.userId)));
      match PreparedBody(members, sealing.known)
      case None => DropBody
      case Some(resealed) => SetBody(resealed)
  }

  /** The device messages of the refreshed devices. */
  function Stale(send: Send): seq<Message> {
    Filter(send.intent.deviceMessages, (message: Message) => message.device in send.refreshed)
  }

  function RenewChange(send: Send, renewed: seq<Message>, sealing: Sealing): Change {
    var kept := Kept(send.intent.deviceMessages, send.refreshed);
    Change(Targets(Stale(send)), [], renewed, [],
           if BodyOpen(send) && NamesAny(send.intent.body, send.touched)
           then Reseal(send.intent.body.value, kept + renewed, sealing) else KeepBody)
  }

  function RepairChange(send: Send, event: Event): Change
    requires event.RepairDevices?
  {
    var kept := Kept(send.intent.deviceMessages, event.removed);
    Change(event.removed, event.preMessages, event.added, [],
           if BodyOpen(send) && NamesAny(send.intent.body, event.accounts)
           then Reseal(send.intent.body.value, kept + event.added, event.sealing) else KeepBody)
  }

  /** Each new pre-message gets a client message ID of its own. */
  predicate HasIds(messages: seq<Message>) {
    forall i :: 0 <= i < |messages| ==> messages[i].clientMessageId.Some?
  }

  predicate AllSettled(messages: seq<Message>, settled: set<string>) {
    HasIds(messages) && forall i :: 0 <= i < |messages| ==> messages[i].clientMessageId.value in settled
  }

  /**
   * What the code can do next. A dispatch settles, refreshes and removes only
   * targets of stored pre-messages. A repair hands the key of the send to the
   * devices that it adds, which are devices of the refused accounts, and no
   * refusal names an account of an accepted body.
   */
  ghost predicate Enabled(send: Send, event: Event) {
    match event
    case ReplacePreMessage(at, replacement) =>
      && send.phase == Opening && at < |send.intent.preMessages|
      && replacement.device == send.intent.preMessages[at].device && replacement.clientMessageId.Some?
    case Dispatch(settled, refreshed, removed, completes) =>
      && send.phase == Opening
      && refreshed <= Targets(send.intent.preMessages) && removed <= Targets(send.intent.preMessages)
      && (completes ==> AllSettled(send.intent.preMessages, settled))
    case Renew(renewed, sealing) =>
      && send.phase == Renewing
      && OnePerDevice(renewed) && Targets(renewed) == Targets(Stale(send))
      && Reconcile(send.intent, RenewChange(send, renewed, sealing)).Some?
    case BodyAccepted => send.phase == Posting && BodyOpen(send)
    case ForceIdentified => send.phase == Posting && BodyOpen(send)
    case RepairDevices(accounts, removed, preMessages, added, bundleMissing, _) =>
      && send.phase == Posting
      && UsersOf(removed) <= accounts && UsersOf(Targets(added)) <= accounts
      && OnePerDevice(added) && (Targets(send.intent.deviceMessages) - removed) !! Targets(added)
      && HasIds(preMessages) && Targets(preMessages) <= Targets(added)
      && (send.accepted ==> !NamesAny(send.intent.body, accounts))
      && CommitRepair(send.intent, RepairChange(send, event), send.intent.restarts + 1, bundleMissing).Some?
    case Replay => true
  }

  ghost function Next(send: Send, event: Event): Send
    requires Enabled(send, event)
  {
    match event
    case ReplacePreMessage(at, replacement) =>
      send.(intent := send.intent.(preMessages := send.intent.preMessages[at := replacement]))
    case Dispatch(settled, refreshed, removed, completes) =>
      send.(intent := Confirm(send.intent, settled, removed), phase := if completes then Renewing else Ended,
            refreshed := refreshed, touched := UsersOf(refreshed) + UsersOf(removed), dropped := UsersOf(removed))
    case Renew(renewed, sealing) =>
      send.(intent := Reconcile(send.intent, RenewChange(send, renewed, sealing)).value, phase := Posting,
            refreshed := {}, touched := {}, dropped := {})
    case BodyAccepted => send.(accepted := true)
    case ForceIdentified => send.(forced := true)
    case RepairDevices(_, _, _, _, bundleMissing, _) =>
      var change, restarts := RepairChange(send, event), send.intent.restarts + 1;
      send.(intent := CommitRepair(send.intent, change, restarts, bundleMissing).value, phase := Opening)
    case Replay => InCall(send.intent, false, false, Opening)
  }

  // --- The invariant -------------------------------------------------------------------------

  /** The body holds exactly the stored devices of each account that is not touched. */
  ghost predicate WholeExcept(messages: seq<Message>, body: Option<Body>, touched: set<string>) {
    body.Some? ==> forall device: Device :: Names(body.value, device.userId) && device.userId !in touched ==>
                     (InBody(body.value, device) <==> device in Targets(messages))
  }

  ghost predicate IntentOk(intent: Intent) {
    && Stored(intent.deviceMessages, intent.body)
    && OnePerDevice(intent.preMessages) && OnePerDevice(intent.syncMessages)
    && HasIds(intent.preMessages)
  }

  /**
   * The body is whole but for the accounts that lost a device in this pass, a
   * pass that posts has no pre-message left, and no pre-message names an account
   * of an accepted body.
   */
  ghost predicate Coherent(send: Send) {
    && IntentOk(send.intent)
    && (!send.forced ==> WholeExcept(send.intent.deviceMessages, send.intent.body, send.dropped))
    && send.dropped <= send.touched
    && (send.phase == Opening || send.phase == Posting ==> send.touched == {})
    && (send.phase == Renewing || send.phase == Posting ==> send.intent.preMessages == [])
    && (send.accepted ==>
          && !NamesAny(send.intent.body, send.touched)
          && !NamesAny(send.intent.body, UsersOf(Targets(send.intent.preMessages))))
  }

  /** The body that the posts of a pass use. */
  function UsedBody(send: Send): Option<Body> {
    if send.forced then None else send.intent.body
  }

  /** At every point where a pass posts, the pass is right. */
  lemma PassesAreRight(send: Send)
    requires Coherent(send) && send.phase == Posting
    ensures RightPass(send.intent.deviceMessages, UsedBody(send))
  {
    PassIsRightIff(send.intent.deviceMessages, UsedBody(send));
  }

  // --- A sealed body holds whole accounts ---------------------------------------------------------

  lemma OnePerDeviceDevices(messages: seq<Message>)
    requires OnePerDevice(messages)
    ensures Unique(DevicesOfMessages(messages))
  {
  }

  lemma AccountMessages(messages: seq<Message>, body: Body)
    requires OnePerDevice(messages)
    ensures var members := DevicesOfMessages(Filter(messages, (m: Message) => Names(body, m.device.userId)));
            && Unique(members)
            && forall device :: device in members <==> device in Targets(messages) && Names(body, device.userId)
  {
    var keep := (m: Message) => Names(body, m.device.userId);
    var filtered := Filter(messages, (m: Message) => Names(body, m.device.userId));
    FilterMembers(messages, (m: Message) => Names(body, m.device.userId));
    FilterKeepsOnePerDevice(messages, (m: Message) => Names(body, m.device.userId));
    DevicesOfMessagesMembers(filtered);
    forall device | device in Targets(messages) && Names(body, device.userId) ensures device in Targets(filtered) {
      var message :| message in messages && message.device == device;
      assert message in filtered;
    }
  }

  /** Sealing again gives whole accounts of the messages, and names only accounts of the old body. */
  lemma ResealedIsWhole(body: Body, messages: seq<Message>, sealing: Sealing)
    requires OnePerDevice(messages)
    ensures var after := ChangedBody(Some(body), Reseal(body, messages, sealing));
            Stored(messages, after) && WholeAccounts(messages, after)
  {
    if sealing.Seals? {
      var members := DevicesOfMessages(Filter(messages, (m: Message) => Names(body, m.device.userId)));
      AccountMessages(messages, body);
      var resealed := PreparedBody(members, sealing.known);
      if resealed.Some? {
        PreparedBodyHoldsWholeAccounts(members, sealing.known, Device("", 0));
        forall device: Device | Names(resealed.value, device.userId)
          ensures InBody(resealed.value, device) <==> device in Targets(messages)
        {
          PreparedBodyHoldsWholeAccounts(members, sealing.known, device);
          NamedAccountHasAMember(members, sealing.known, device.userId);
        }
      }
    }
  }

  /**
   * Sealing again names exactly the accounts of the old body that have a message and
   * a known identity. It drops the body when there is none, or when nothing seals.
   */
  lemma ResealedAccountsIff(body: Body, messages: seq<Message>, sealing: Sealing, userId: string)
    requires OnePerDevice(messages)
    ensures var after := ChangedBody(Some(body), Reseal(body, messages, sealing));
            (after.Some? && Names(after.value, userId)) <==>
            && sealing.Seals? && userId in sealing.known && Names(body, userId)
            && exists device :: device in Targets(messages) && device.userId == userId
  {
    if sealing.Seals? {
      var members := DevicesOfMessages(Filter(messages, (m: Message) => Names(body, m.device.userId)));
      AccountMessages(messages, body);
      var resealed := PreparedBody(members, sealing.known);
      PreparedBodyHoldsWholeAccounts(members, sealing.known, Device(userId, 0));
      if resealed.Some? && Names(resealed.value, userId) {
        NamedAccountHasAMember(members, sealing.known, userId);
      }
      if device :| device in Targets(messages) && device.userId == userId {
        PreparedBodyHoldsWholeAccounts(members, sealing.known, device);
      }
    }
  }

  /** An account of a prepared body has a member. */
  lemma NamedAccountHasAMember(members: seq<Device>, known: set<string>, userId: string)
    requires Unique(members) && PreparedBody(members, known).Some?
    requires Names(PreparedBody(members, known).value, userId)
    ensures exists device :: device in members && device.userId == userId
  {
    var shared := Shared(members, known);
    FilterMembers(members, (d: Device) => d.userId in known);
    GroupedFinds(shared, userId);
    IdsOfMembers(shared, userId);
    var ids := IdsOf(shared, userId);
    assert ids[0] in ids;
    assert Device(userId, ids[0]) in shared;
  }

  /** A new send seals the members whose identity it knows, so its body holds whole accounts. */
  lemma NewSendIsWhole(messages: seq<Message>, known: set<string>)
    requires OnePerDevice(messages)
    ensures var body := PreparedBody(DevicesOfMessages(messages), known);
            Stored(messages, body) && WholeAccounts(messages, body)
  {
    var members, body := DevicesOfMessages(messages), PreparedBody(DevicesOfMessages(messages), known);
    DevicesOfMessagesMembers(messages);
    if body.Some? {
      PreparedBodyHoldsWholeAccounts(members, known, Device("", 0));
      forall device: Device | Names(body.value, device.userId)
        ensures InBody(body.value, device) <==> device in Targets(messages)
      {
        PreparedBodyHoldsWholeAccounts(members, known, device);
      }
    }
  }

  // --- Each step keeps the invariant ------------------------------------------------------------------

  /** A write that leaves the body keeps it whole for every account whose devices it does not change. */
  lemma KeptBodyStaysWhole(
      before: seq<Message>, after: seq<Message>, body: Option<Body>, touched: set<string>, more: set<string>)
    requires WholeExcept(before, body, touched) && touched <= more
    requires forall device: Device :: device.userId !in more ==>
               (device in Targets(before) <==> device in Targets(after))
    ensures WholeExcept(after, body, more)
  {
  }

  /** The pre-messages that a write after them leaves. */
  lemma ConfirmedPreMessages(messages: seq<Message>, settled: set<string>, removed: set<Device>)
    requires OnePerDevice(messages) && HasIds(messages)
    ensures var after := Unsettled(Kept(messages, removed), settled);
            && OnePerDevice(after) && HasIds(after) && Targets(after) <= Targets(messages)
            && (AllSettled(messages, settled) ==> after == [])
  {
    var kept := Kept(messages, removed);
    KeptOnePerDevice(messages, removed);
    FilterMembers(messages, (message: Message) => message.device !in removed);
    var keep := (message: Message) => message.clientMessageId.None? || message.clientMessageId.value !in settled;
    FilterMembers(kept, keep);
    FilterKeepsOnePerDevice(kept, keep);
    var after := Unsettled(kept, settled);
    SameFilter(kept, keep, (m: Message) => m.clientMessageId.None? || m.clientMessageId.value !in settled);
    forall i | 0 <= i < |after| ensures after[i].clientMessageId.Some? && after[i] in messages {
      assert after[i] in after;
    }
    FirstIsInside(after);
  }

  lemma DispatchKeeps(send: Send, event: Event)
    requires event.Dispatch? && Coherent(send) && Enabled(send, event)
    ensures Coherent(Next(send, event))
  {
    var after := Next(send, event);
    ConfirmedPreMessages(send.intent.preMessages, event.settled, event.removed);
    KeptOnePerDevice(send.intent.deviceMessages, event.removed);
    KeptOnePerDevice(send.intent.syncMessages, event.removed);
    KeptTargets(send.intent.deviceMessages, event.removed);
    if !send.forced {
      KeptBodyStaysWhole(send.intent.deviceMessages, after.intent.deviceMessages, send.intent.body,
                         send.dropped, after.dropped);
    }
    UsersGrow(after.touched, UsersOf(Targets(send.intent.preMessages)), send.intent.body);
    UsersGrow(UsersOf(Targets(after.intent.preMessages)), UsersOf(Targets(send.intent.preMessages)), send.intent.body);
  }

  /** A body that names none of some accounts names none of fewer accounts. */
  lemma UsersGrow(fewer: set<string>, more: set<string>, body: Option<Body>)
    ensures fewer <= more && !NamesAny(body, more) ==> !NamesAny(body, fewer)
  {
  }

  lemma ReplaceKeeps(send: Send, event: Event)
    requires event.ReplacePreMessage? && Coherent(send) && Enabled(send, event)
    ensures Coherent(Next(send, event))
  {
    var before, after := send.intent.preMessages, Next(send, event).intent.preMessages;
    forall device ensures device in Targets(before) <==> device in Targets(after) {
      if device in Targets(before) {
        var i :| 0 <= i < |before| && before[i].device == device;
        assert after[i] in after && after[i].device == device;
      }
      if device in Targets(after) {
        var i :| 0 <= i < |after| && after[i].device == device;
        assert before[i] in before && before[i].device == device;
      }
    }
    assert Targets(before) == Targets(after);
  }

  lemma StaleTargets(send: Send)
    ensures Targets(Stale(send)) == Targets(send.intent.deviceMessages) * send.refreshed
    ensures Targets(send.intent.deviceMessages) - Targets(Stale(send))
            == Targets(send.intent.deviceMessages) - send.refreshed
  {
    FilterMembers(send.intent.deviceMessages, (message: Message) => message.device in send.refreshed);
  }

  /** The messages after a write are those that stay and the new ones. */
  lemma AppendedMessages(messages: seq<Message>, removed: set<Device>, added: seq<Message>)
    requires OnePerDevice(messages) && OnePerDevice(added) && (Targets(messages) - removed) !! Targets(added)
    ensures OnePerDevice(Kept(messages, removed) + added)
    ensures Targets(Kept(messages, removed) + added) == Targets(messages) - removed + Targets(added)
  {
    KeptOnePerDevice(messages, removed);
    KeptTargets(messages, removed);
    AppendDisjoint(Kept(messages, removed), added);
    AppendTargets(Kept(messages, removed), added);
  }

  /** Whole accounts depend on the targets of the messages only. */
  lemma WholeByTargets(one: seq<Message>, other: seq<Message>, body: Option<Body>)
    requires Targets(one) == Targets(other) && WholeAccounts(one, body)
    ensures WholeAccounts(other, body)
  {
  }

  lemma RenewKeeps(send: Send, event: Event)
    requires event.Renew? && Coherent(send) && Enabled(send, event)
    ensures Coherent(Next(send, event))
  {
    var intent, change := send.intent, RenewChange(send, event.renewed, event.sealing);
    var after := Next(send, event).intent;
    ReconciledTargets(intent, change);
    StaleTargets(send);
    var kept := Kept(intent.deviceMessages, send.refreshed);
    AppendedMessages(intent.deviceMessages, send.refreshed, event.renewed);
    assert Targets(after.deviceMessages) == Targets(kept + event.renewed) == Targets(intent.deviceMessages);
    if BodyOpen(send) && NamesAny(intent.body, send.touched) {
      ResealedIsWhole(intent.body.value, kept + event.renewed, event.sealing);
      WholeByTargets(kept + event.renewed, after.deviceMessages, after.body);
    } else {
      UntouchedBodyIsWhole(send, after.deviceMessages);
    }
  }

  /** A body that names no account that lost a device is whole. */
  lemma UntouchedBodyIsWhole(send: Send, messages: seq<Message>)
    requires Coherent(send) && !(BodyOpen(send) && NamesAny(send.intent.body, send.touched))
    requires Targets(messages) == Targets(send.intent.deviceMessages)
    ensures !send.forced ==> WholeAccounts(messages, send.intent.body)
  {
  }

  lemma UserOfMember(devices: set<Device>, device: Device)
    ensures device in devices ==> device.userId in UsersOf(devices)
  {
  }

  lemma RepairKeeps(send: Send, event: Event)
    requires event.RepairDevices? && Coherent(send) && Enabled(send, event)
    ensures Coherent(Next(send, event))
  {
    var intent, change := send.intent, RepairChange(send, event);
    var after := Next(send, event).intent;
    ReconciledTargets(intent, change);
    var kept := Kept(intent.deviceMessages, event.removed);
    AppendedMessages(intent.deviceMessages, event.removed, event.added);
    if BodyOpen(send) && NamesAny(intent.body, event.accounts) {
      ResealedIsWhole(intent.body.value, kept + event.added, event.sealing);
      WholeByTargets(kept + event.added, after.deviceMessages, after.body);
    } else if !send.forced {
      forall device: Device | device.userId !in event.accounts
        ensures device in Targets(intent.deviceMessages) <==> device in Targets(after.deviceMessages)
      {
        UserOfMember(event.removed, device);
        UserOfMember(Targets(event.added), device);
      }
      KeptBodyStaysWhole(intent.deviceMessages, after.deviceMessages, intent.body, {}, event.accounts);
    }
    AppendedIds(intent.preMessages, event.removed, event.preMessages);
    UsersGrow(UsersOf(Targets(after.preMessages)), event.accounts, intent.body);
  }

  lemma {:induction false} AppendKeepsIds(messages: seq<Message>, additions: seq<Message>)
    requires HasIds(messages) && HasIds(additions) && Append(messages, additions).Some?
    ensures HasIds(Append(messages, additions).value)
  {
    if additions != [] {
      AppendKeepsIds(messages, additions[..|additions| - 1]);
    }
  }

  lemma AppendedIds(messages: seq<Message>, removed: set<Device>, additions: seq<Message>)
    requires HasIds(messages) && HasIds(additions) && Append(Kept(messages, removed), additions).Some?
    ensures HasIds(Append(Kept(messages, removed), additions).value)
  {
    var kept := Kept(messages, removed);
    FilterMembers(messages, (message: Message) => message.device !in removed);
    forall i | 0 <= i < |kept| ensures kept[i].clientMessageId.Some? {
      assert kept[i] in kept;
    }
    AppendKeepsIds(kept, additions);
  }

  // --- Runs ---------------------------------------------------------------------------------------------

  ghost predicate ValidRun(send: Send, events: seq<Event>)
    decreases |events|
  {
    events == [] || (Enabled(send, events[0]) && ValidRun(Next(send, events[0]), events[1..]))
  }

  ghost function Run(send: Send, events: seq<Event>): Send
    requires ValidRun(send, events)
    decreases |events|
  {
    if events == [] then send else Run(Next(send, events[0]), events[1..])
  }

  /** Each replay starts from a stored body that holds whole accounts. */
  ghost predicate ReplaysWhole(send: Send, events: seq<Event>)
    requires ValidRun(send, events)
    decreases |events|
  {
    events == []
    || (&& (events[0].Replay? ==> WholeAccounts(send.intent.deviceMessages, send.intent.body))
        && ReplaysWhole(Next(send, events[0]), events[1..]))
  }

  lemma StepKeepsCoherent(send: Send, event: Event)
    requires Coherent(send) && Enabled(send, event)
    requires event.Replay? ==> WholeAccounts(send.intent.deviceMessages, send.intent.body)
    ensures Coherent(Next(send, event))
  {
    match event
    case ReplacePreMessage(_, _) => ReplaceKeeps(send, event);
    case Dispatch(_, _, _, _) => DispatchKeeps(send, event);
    case Renew(_, _) => RenewKeeps(send, event);
    case RepairDevices(_, _, _, _, _, _) => RepairKeeps(send, event);
    case _ =>
  }

  lemma {:induction false} RunKeepsCoherent(send: Send, events: seq<Event>)
    requires Coherent(send) && ValidRun(send, events) && ReplaysWhole(send, events)
    ensures Coherent(Run(send, events))
    decreases |events|
  {
    if events != [] {
      StepKeepsCoherent(send, events[0]);
      RunKeepsCoherent(Next(send, events[0]), events[1..]);
    }
  }

  /** The send as its intent is first stored. */
  function NewSend(preMessages: seq<Message>, deviceMessages: seq<Message>, syncMessages: seq<Message>,
                   sealing: Sealing): Send {
    var body := if sealing.NoSeal? then None else PreparedBody(DevicesOfMessages(deviceMessages), sealing.known);
    InCall(Intent(preMessages, deviceMessages, syncMessages, body, 0, []), false, false, Opening)
  }

  ghost predicate NewMessages(preMessages: seq<Message>, deviceMessages: seq<Message>, syncMessages: seq<Message>) {
    && OnePerDevice(preMessages) && HasIds(preMessages)
    && OnePerDevice(deviceMessages) && OnePerDevice(syncMessages)
  }

  lemma NewSendIsCoherent(preMessages: seq<Message>, deviceMessages: seq<Message>, syncMessages: seq<Message>,
                          sealing: Sealing)
    requires NewMessages(preMessages, deviceMessages, syncMessages)
    ensures Coherent(NewSend(preMessages, deviceMessages, syncMessages, sealing))
  {
    if sealing.Seals? {
      NewSendIsWhole(deviceMessages, sealing.known);
    }
  }

  /**
   * In every pass of every run of a declared send, each device with a stored
   * message is posted exactly once, no account is split between the body and
   * the device posts, and each account declares exactly its stored devices.
   */
  lemma EveryPassIsRight(
      preMessages: seq<Message>, deviceMessages: seq<Message>, syncMessages: seq<Message>, sealing: Sealing,
      events: seq<Event>)
    requires NewMessages(preMessages, deviceMessages, syncMessages)
    requires ValidRun(NewSend(preMessages, deviceMessages, syncMessages, sealing), events)
    requires ReplaysWhole(NewSend(preMessages, deviceMessages, syncMessages, sealing), events)
    requires Run(NewSend(preMessages, deviceMessages, syncMessages, sealing), events).phase == Posting
    ensures var send := Run(NewSend(preMessages, deviceMessages, syncMessages, sealing), events);
            RightPass(send.intent.deviceMessages, UsedBody(send))
  {
    var start := NewSend(preMessages, deviceMessages, syncMessages, sealing);
    NewSendIsCoherent(preMessages, deviceMessages, syncMessages, sealing);
    RunKeepsCoherent(start, events);
    PassesAreRight(Run(start, events));
  }

  // --- A pre-message stays until it is settled ------------------------------------------------------------

  /** The event settles or replaces the pre-message, or removes or renews its device. */
  predicate Ends(send: Send, event: Event, message: Message) {
    match event
    case ReplacePreMessage(at, _) => at < |send.intent.preMessages| && send.intent.preMessages[at] == message
    case Dispatch(settled, _, removed, _) => !IsOpen(message, settled, removed)
    case Renew(_, _) => message.device in Targets(Stale(send))
    case RepairDevices(_, removed, _, _, _, _) => message.device in removed
    case _ => false
  }

  ghost predicate NothingEnds(send: Send, events: seq<Event>, message: Message)
    requires ValidRun(send, events)
    decreases |events|
  {
    events == []
    || (!Ends(send, events[0], message) && NothingEnds(Next(send, events[0]), events[1..], message))
  }

  /** The event stores the pre-message: as the replacement of another one, or as the handoff of a repair. */
  predicate Brings(event: Event, message: Message) {
    match event
    case ReplacePreMessage(_, replacement) => message == replacement
    case RepairDevices(_, _, preMessages, _, _, _) => message in preMessages
    case _ => false
  }

  /** After a step a pre-message is stored if and only if it was and the step does not end it, or the step brings it. */
  lemma PreMessagesIff(send: Send, event: Event, message: Message)
    requires Enabled(send, event) && OnePerDevice(send.intent.preMessages)
    ensures message in Next(send, event).intent.preMessages <==>
            (message in send.intent.preMessages && !Ends(send, event, message)) || Brings(event, message)
  {
    var before, after := send.intent.preMessages, Next(send, event).intent.preMessages;
    match event
    case ReplacePreMessage(at, replacement) =>
      assert after[at] == replacement;
      forall i | 0 <= i < |before| && i != at ensures after[i] == before[i] && before[i] != before[at] {
      }
    case Dispatch(settled, _, removed, _) => ConfirmKeepsTheOpenMessages(send.intent, settled, removed);
    case Renew(renewed, sealing) => ReconciledMessages(send.intent, RenewChange(send, renewed, sealing));
    case RepairDevices(_, _, _, _, _, _) => ReconciledMessages(send.intent, RepairChange(send, event));
    case _ =>
  }

  lemma StepKeepsPreMessage(send: Send, event: Event, message: Message)
    requires Enabled(send, event) && message in send.intent.preMessages && !Ends(send, event, message)
    ensures message in Next(send, event).intent.preMessages
  {
    match event
    case ReplacePreMessage(at, replacement) =>
      var i :| 0 <= i < |send.intent.preMessages| && send.intent.preMessages[i] == message;
      assert Next(send, event).intent.preMessages[i] == message;
    case Dispatch(settled, _, removed, _) => ConfirmKeepsTheOpenMessages(send.intent, settled, removed);
    case Renew(renewed, sealing) => ReconciledMessages(send.intent, RenewChange(send, renewed, sealing));
    case RepairDevices(_, _, _, _, _, _) => ReconciledMessages(send.intent, RepairChange(send, event));
    case _ =>
  }

  /** In every run a pre-message stays stored, also over throws and replays, until an event ends it. */
  lemma {:induction false} PreMessageStays(send: Send, events: seq<Event>, message: Message)
    requires ValidRun(send, events) && message in send.intent.preMessages && NothingEnds(send, events, message)
    ensures message in Run(send, events).intent.preMessages
    decreases |events|
  {
    if events != [] {
      StepKeepsPreMessage(send, events[0], message);
      PreMessageStays(Next(send, events[0]), events[1..], message);
    }
  }

  // --- A body that is accepted or given up stays as it is ------------------------------------------------

  lemma StepKeepsClosedBody(send: Send, event: Event)
    requires Enabled(send, event) && event != Replay && (send.accepted || send.forced)
    ensures Next(send, event).intent.body == send.intent.body
    ensures send.accepted ==> Next(send, event).accepted
    ensures send.forced ==> Next(send, event).forced
  {
    match event
    case Renew(renewed, sealing) => ReconciledMessages(send.intent, RenewChange(send, renewed, sealing));
    case RepairDevices(_, _, _, _, missing, _) =>
      ReconciledMessages(send.intent, RepairChange(send, event));
      RepairCommitsOnce(send.intent, RepairChange(send, event), send.intent.restarts + 1, missing,
                        RepairChange(send, event), missing);
    case _ =>
  }

  /** Once the Relay accepted the body, or the call gave it up, no step before a replay seals it again. */
  lemma {:induction false} ClosedBodyStays(send: Send, event: Event, events: seq<Event>)
    requires (event == BodyAccepted || event == ForceIdentified || send.accepted || send.forced)
             && Enabled(send, event) && event != Replay
    requires ValidRun(Next(send, event), events) && Replay !in events
    ensures Run(Next(send, event), events).intent.body == send.intent.body
    ensures event == BodyAccepted ==> Run(Next(send, event), events).accepted
    ensures event == ForceIdentified ==> Run(Next(send, event), events).forced
    ensures send.accepted ==> Run(Next(send, event), events).accepted
    ensures send.forced ==> Run(Next(send, event), events).forced
    decreases |events|
  {
    if send.accepted || send.forced {
      StepKeepsClosedBody(send, event);
    }
    if events != [] {
      assert events[0] in events;
      ClosedBodyStays(Next(send, event), events[0], events[1..]);
    }
  }

  // --- Which writes leave the stored body whole ---------------------------------------------------------

  /**
   * The write after the pre-messages keeps a stored body whole if and only if
   * no removed device with a stored message is of an account that the body names.
   */
  lemma RemovalIsWholeIff(send: Send, event: Event)
    requires event.Dispatch? && Enabled(send, event) && send.intent.body.Some?
    requires WholeAccounts(send.intent.deviceMessages, send.intent.body)
    ensures var before, after := send.intent, Next(send, event).intent;
            WholeAccounts(after.deviceMessages, after.body) <==>
            forall device :: device in Targets(before.deviceMessages) * event.removed ==>
              !Names(before.body.value, device.userId)
  {
    var before, after, body := send.intent, Next(send, event).intent, send.intent.body.value;
    KeptTargets(before.deviceMessages, event.removed);
    if WholeAccounts(after.deviceMessages, after.body) {
      forall device | device in Targets(before.deviceMessages) * event.removed ensures !Names(body, device.userId) {
        assert Names(body, device.userId) ==> (InBody(body, device) <==> device in Targets(before.deviceMessages));
      }
    }
  }

  /**
   * A repair that seals no body again keeps the stored body whole if and only if
   * it neither adds nor drops a device of an account that the body names.
   */
  lemma UnsealedRepairIsWholeIff(send: Send, event: Event)
    requires event.RepairDevices? && Enabled(send, event) && IntentOk(send.intent)
    requires WholeAccounts(send.intent.deviceMessages, send.intent.body) && send.intent.body.Some?
    requires send.forced
    ensures var before, after := send.intent, Next(send, event).intent;
            WholeAccounts(after.deviceMessages, after.body) <==>
            forall device :: device in Targets(event.added) + (Targets(before.deviceMessages) * event.removed)
                             && Names(before.body.value, device.userId) ==>
              device in Targets(event.added) && device in Targets(before.deviceMessages)
  {
    var before, after, body := send.intent, Next(send, event).intent, send.intent.body.value;
    ReconciledTargets(before, RepairChange(send, event));
    if WholeAccounts(after.deviceMessages, after.body) {
      forall device | device in Targets(event.added) + (Targets(before.deviceMessages) * event.removed)
                      && Names(body, device.userId)
        ensures device in Targets(event.added) && device in Targets(before.deviceMessages)
      {
        assert InBody(body, device) <==> device in Targets(before.deviceMessages);
        assert InBody(body, device) <==> device in Targets(after.deviceMessages);
      }
    }
  }

  /** A replay of a stored intent posts a right pass if and only if the stored body holds whole accounts. */
  lemma ReplayIsRightIff(send: Send)
    requires IntentOk(send.intent)
    ensures RightPass(Next(send, Replay).intent.deviceMessages, UsedBody(Next(send, Replay)))
            <==> WholeAccounts(send.intent.deviceMessages, send.intent.body)
  {
    PassIsRightIff(send.intent.deviceMessages, send.intent.body);
  }

  // --- Runs that end in a pass that is not right ----------------------------------------------------------

  lemma {:induction false} RunConcat(send: Send, first: seq<Event>, second: seq<Event>)
    requires ValidRun(send, first) && ValidRun(Run(send, first), second)
    ensures ValidRun(send, first + second)
    ensures Run(send, first + second) == Run(Run(send, first), second)
    decreases |first|
  {
    if first == [] {
      assert first + second == second;
    } else {
      assert (first + second)[0] == first[0] && (first + second)[1..] == first[1..] + second;
      RunConcat(Next(send, first[0]), first[1..], second);
    }
  }

  lemma RunOne(send: Send, event: Event)
    requires Enabled(send, event)
    ensures ValidRun(send, [event]) && Run(send, [event]) == Next(send, event)
  {
    assert [event][1..] == [];
  }

  /** The start of a pass whose only pre-messages, if any, have these IDs and settle. */
  function OpenPass(settled: set<string>): seq<Event> {
    [Dispatch(settled, {}, {}, true), Renew([], NoSeal)]
  }

  lemma NothingRemoved(messages: seq<Message>)
    ensures Kept(messages, {}) == messages
  {
    var removed: set<Device> := {};
    FilterAll(messages, (message: Message) => message.device !in removed);
  }

  lemma PassOpens(send: Send, settled: set<string>)
    requires send.phase == Opening && AllSettled(send.intent.preMessages, settled)
    requires OnePerDevice(send.intent.preMessages)
    ensures ValidRun(send, OpenPass(settled))
    ensures var after := Run(send, OpenPass(settled));
            && after.phase == Posting && after.accepted == send.accepted && after.forced == send.forced
            && after.intent == send.intent.(preMessages := [])
  {
    var dispatch := Dispatch(settled, {}, {}, true);
    var middle := Next(send, dispatch);
    ConfirmedPreMessages(send.intent.preMessages, settled, {});
    NothingRemoved(send.intent.deviceMessages);
    NothingRemoved(send.intent.syncMessages);
    NothingRemoved([]);
    assert middle.intent == send.intent.(preMessages := []);
    FilterNone(middle.intent.deviceMessages, (message: Message) => message.device in middle.refreshed);
    assert Stale(middle) == [] && Targets([]) == {};
    assert Reconcile(middle.intent, RenewChange(middle, [], NoSeal)) == Some(middle.intent);
    RunOne(middle, Renew([], NoSeal));
    RunOne(send, dispatch);
    RunConcat(send, [dispatch], [Renew([], NoSeal)]);
    assert [dispatch] + [Renew([], NoSeal)] == OpenPass(settled);
  }

  function OneMessage(user: string, id: nat): Message {
    Message(Device(user, id), None, "")
  }

  function PreMessage(user: string, id: nat, clientMessageId: string): Message {
    Message(Device(user, id), Some(clientMessageId), "")
  }

  /** The body of a new send to devices of one known account names that account. */
  lemma NewBodyNames(messages: seq<Message>, user: string, id: nat)
    requires OnePerDevice(messages) && OneMessage(user, id) in messages
    ensures var body := PreparedBody(DevicesOfMessages(messages), {user});
            body.Some? && Names(body.value, user)
  {
    DevicesOfMessagesMembers(messages);
    assert Device(user, id) in Targets(messages);
    OnePerDeviceDevices(messages);
    PreparedBodyHoldsWholeAccounts(DevicesOfMessages(messages), {user}, Device(user, id));
  }

  lemma RepairAdds(send: Send, event: Event, message: Message, added: Message)
    requires event == RepairDevices({added.device.userId}, {}, [], [added], [], NoSeal)
    requires send.intent.preMessages == [] && send.intent.deviceMessages == [message]
    requires send.intent.syncMessages == [] && message.device != added.device
    requires send.phase == Posting && send.forced && !send.accepted
    ensures Enabled(send, event)
  {
    NothingRemoved([message]);
    NothingRemoved([]);
    assert Targets([message]) == {message.device} && Targets([added]) == {added.device} && Targets([]) == {};
    AppendDisjoint([message], [added]);
  }

  /** The pass of a replay after some events is not right when the events leave a body that is not whole. */
  lemma ReplayedPassIsWrong(start: Send, events: seq<Event>, settled: set<string>)
    requires ValidRun(start, events) && IntentOk(Run(start, events).intent)
    requires AllSettled(Run(start, events).intent.preMessages, settled)
    requires var intent := Run(start, events).intent; !WholeAccounts(intent.deviceMessages, intent.body)
    ensures var more := events + [Replay] + OpenPass(settled);
            && ValidRun(start, more) && Run(start, more).phase == Posting
            && !RightPass(Run(start, more).intent.deviceMessages, UsedBody(Run(start, more)))
  {
    var send := Run(start, events);
    RunOne(send, Replay);
    RunConcat(start, events, [Replay]);
    PassOpens(Next(send, Replay), settled);
    RunConcat(start, events + [Replay], OpenPass(settled));
    PassIsRightIff(send.intent.deviceMessages, send.intent.body);
  }

  /** The events of a new send whose body is given up and whose account then gets another device. */
  function IdentifiedRepair(user: string): seq<Event> {
    OpenPass({}) + [ForceIdentified] + [RepairDevices({user}, {}, [], [OneMessage(user, 2)], [], NoSeal)]
  }

  /**
   * A send whose body cannot go out sealed repairs an account of the body and
   * keeps the body. A later call then posts the body again, and the added device
   * on its own, so it splits the account.
   */
  lemma RepairWhileIdentifiedSplitsOnReplay(user: string)
    ensures var start := NewSend([], [OneMessage(user, 1)], [], Seals({user}));
            var events := IdentifiedRepair(user) + [Replay] + OpenPass({});
            && ValidRun(start, events) && Run(start, events).phase == Posting
            && !RightPass(Run(start, events).intent.deviceMessages, UsedBody(Run(start, events)))
  {
    var message, added := OneMessage(user, 1), OneMessage(user, 2);
    var start := NewSend([], [message], [], Seals({user}));
    NewSendIsCoherent([], [message], [], Seals({user}));
    NewBodyNames([message], user, 1);
    PassOpens(start, {});
    var ready := Run(start, OpenPass({}));
    var forced := Next(ready, ForceIdentified);
    RunOne(ready, ForceIdentified);
    RunConcat(start, OpenPass({}), [ForceIdentified]);
    var repair := RepairDevices({user}, {}, [], [added], [], NoSeal);
    AddedDeviceIsNotWhole(forced, repair, message, added);
    RunOne(forced, repair);
    RunConcat(start, OpenPass({}) + [ForceIdentified], [repair]);
    ReplayedPassIsWrong(start, IdentifiedRepair(user), {});
  }

  /** A repair that adds a device to an account of a given-up body leaves the body not whole. */
  lemma AddedDeviceIsNotWhole(send: Send, event: Event, message: Message, added: Message)
    requires event == RepairDevices({added.device.userId}, {}, [], [added], [], NoSeal)
    requires send.intent.preMessages == [] && send.intent.deviceMessages == [message]
    requires send.intent.syncMessages == [] && message.device != added.device
    requires send.phase == Posting && send.forced && !send.accepted && IntentOk(send.intent)
    requires send.intent.body.Some? && Names(send.intent.body.value, added.device.userId)
    requires WholeAccounts(send.intent.deviceMessages, send.intent.body)
    ensures Enabled(send, event)
    ensures var after := Next(send, event).intent;
            IntentOk(after) && !WholeAccounts(after.deviceMessages, after.body) && after.preMessages == []
  {
    RepairAdds(send, event, message, added);
    assert Targets([message]) == {message.device} && Targets([added]) == {added.device};
    UnsealedRepairIsWholeIff(send, event);
    assert added.device in Targets(event.added) + (Targets(send.intent.deviceMessages) * event.removed);
    NothingRemoved([]);
    ReconciledTargets(send.intent, RepairChange(send, event));
  }

  /** The write of a call that lost one device of the body, and that threw at its other pre-message. */
  function RemovalAndThrow(user: string): seq<Event> {
    [Dispatch({"b"}, {}, {Device(user, 2)}, false)]
  }

  /**
   * The write after the pre-messages removes a device of the body, and the call
   * ends before the body is sealed again: a throw of another pre-message is
   * enough. The body of a later call declares the removed device.
   */
  lemma ThrowAfterTheRemovalLeavesAStaleBody(user: string)
    ensures var start := NewSend([PreMessage(user, 1, "a"), PreMessage(user, 2, "b")],
                                 [OneMessage(user, 1), OneMessage(user, 2)], [], Seals({user}));
            var events := RemovalAndThrow(user) + [Replay] + OpenPass({"a", "b"});
            && ValidRun(start, events) && Run(start, events).phase == Posting
            && !RightPass(Run(start, events).intent.deviceMessages, UsedBody(Run(start, events)))
  {
    var pre := [PreMessage(user, 1, "a"), PreMessage(user, 2, "b")];
    var messages := [OneMessage(user, 1), OneMessage(user, 2)];
    var start := NewSend(pre, messages, [], Seals({user}));
    var dispatch := Dispatch({"b"}, {}, {Device(user, 2)}, false);
    NewSendIsCoherent(pre, messages, [], Seals({user}));
    NewBodyNames(messages, user, 1);
    assert pre[1] in pre && Device(user, 2) in Targets(pre);
    assert messages[1] in messages && Device(user, 2) in Targets(messages);
    RunOne(start, dispatch);
    DispatchKeeps(start, dispatch);
    RemovalIsWholeIff(start, dispatch);
    assert Device(user, 2) in Targets(start.intent.deviceMessages) * dispatch.removed;
    LeftPreMessages(pre, {"b"}, {Device(user, 2)}, {"a", "b"});
    ReplayedPassIsWrong(start, RemovalAndThrow(user), {"a", "b"});
  }

  lemma LeftPreMessages(messages: seq<Message>, settled: set<string>, removed: set<Device>, more: set<string>)
    requires OnePerDevice(messages) && AllSettled(messages, more)
    ensures AllSettled(Unsettled(Kept(messages, removed), settled), more)
  {
    var kept := Kept(messages, removed);
    FilterMembers(messages, (message: Message) => message.device !in removed);
    FilterMembers(kept, (m: Message) => m.clientMessageId.None? || m.clientMessageId.value !in settled);
    var after := Unsettled(kept, settled);
    forall i | 0 <= i < |after| ensures after[i].clientMessageId.Some? && after[i].clientMessageId.value in more {
      assert after[i] in after;
    }
  }
}
