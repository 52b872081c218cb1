/**
 * How a new read of the device lists changes a stored group send
 * (client/group-device-set.ts, and the reread of client/group-outbox.ts).
 */
module GroupDeviceSet {
  import opened Options
  import opened Sequences
  import opened DeviceSets
  import opened GroupIntents

  function Others(listed: seq<Device>, sender: string): seq<Device> {
    Filter(listed, (device: Device) => device.userId != sender)
  }

  /** The listed devices of the other accounts, in the order of the list. */
  lemma OthersIff(listed: seq<Device>, sender: string, device: Device)
    ensures device in Others(listed, sender) <==> device in listed && device.userId != sender
    ensures (forall other :: other in listed ==> other.userId != sender) ==> Others(listed, sender) == listed
  {
    var keep := (other: Device) => other.userId != sender;
    FilterMembers(listed, keep);
    SameFilter(listed, keep, (other: Device) => other.userId != sender);
    if forall other :: other in listed ==> other.userId != sender {
      FilterAll(listed, keep);
    }
  }

  // --- The change of the member devices ---------------------------------------------------

  lemma TargetsOneMore(messages: seq<Message>, i: nat)
    requires i < |messages|
    ensures Targets(messages[..i + 1]) == Targets(messages[..i]) + {messages[i].device}
  {
    assert messages[..i + 1] == messages[..i] + [messages[i]];
  }

  lemma ElementsPut(devices: seq<Device>, device: Device)
    requires Unique(devices)
    ensures Unique(PutDevice(devices, device))
    ensures Elements(PutDevice(devices, device)) == Elements(devices) + {device}
  {
    PutDeviceAdds(devices, device);
  }

  /** The stored targets that the read no longer lists, and the listed devices that no device message targets. */
  method ListedGroupDeviceChange(intent: Intent, listed: seq<Device>, sender: string)
    returns (unlisted: seq<Device>, added: seq<Device>)
    ensures Unique(unlisted)
    ensures forall device :: device in unlisted <==>
              && device in Targets(intent.preMessages) + Targets(intent.deviceMessages)
              && (device !in listed || device.userId == sender)
    ensures Elements(unlisted)
            == Targets(intent.preMessages) + Targets(intent.deviceMessages) - Elements(Others(listed, sender))
    ensures forall device :: device in added <==>
              device in listed && device.userId != sender && device !in Targets(intent.deviceMessages)
    ensures added == Filter(Others(listed, sender), (device: Device) => device !in Targets(intent.deviceMessages))
  {
    var others := Others(listed, sender);
    var messages := intent.preMessages + intent.deviceMessages;
    unlisted := [];
    for i := 0 to |messages|
      invariant Unique(unlisted)
      invariant Elements(unlisted) == Targets(messages[..i]) - Elements(others)
    {
      TargetsOneMore(messages, i);
      HasDeviceIsMembership(others, messages[i].device);
      if !HasDevice(others, messages[i].device) {
        ElementsPut(unlisted, messages[i].device);
        unlisted := PutDevice(unlisted, messages[i].device);
      }
    }
    assert messages[..|messages|] == messages;
    assert Targets(messages) == Targets(intent.preMessages) + Targets(intent.deviceMessages);
    added := Filter(others, (device: Device) => device !in Targets(intent.deviceMessages));
    FilterMembers(others, (device: Device) => device !in Targets(intent.deviceMessages));
    forall device ensures device in unlisted <==>
                          && device in Targets(intent.preMessages) + Targets(intent.deviceMessages)
                          && (device !in listed || device.userId == sender)
    {
      OthersIff(listed, sender, device);
      assert device in unlisted <==> device in Elements(unlisted);
    }
    forall device ensures device in others <==> device in listed && device.userId != sender {
      OthersIff(listed, sender, device);
    }
  }

  // --- The change of the sync copies --------------------------------------------------------

  function Distinct(ids: seq<nat>): seq<nat> {
    if ids == [] then []
    else
      var front, last := Distinct(ids[..|ids| - 1]), ids[|ids| - 1];
      if last in front then front else front + [last]
  }

  lemma {:induction false} DistinctMembers(ids: seq<nat>)
    ensures Unique(Distinct(ids)) && forall id :: id in Distinct(ids) <==> id in ids
  {
    if ids != [] {
      DistinctMembers(ids[..|ids| - 1]);
      assert ids == ids[..|ids| - 1] + [ids[|ids| - 1]];
    }
  }

  function SyncIds(messages: seq<Message>): seq<nat> {
    seq(|messages|, i requires 0 <= i < |messages| => messages[i].device.deviceId)
  }

  /** The sync copies of devices that are not listed, and the listed own devices with no sync copy. */
  function ListedOwnDeviceChange(syncMessages: seq<Message>, listed: seq<nat>): (seq<nat>, seq<nat>) {
    (Filter(Distinct(SyncIds(syncMessages)), id => id !in listed),
     Filter(Distinct(listed), id => id !in SyncIds(syncMessages)))
  }

  lemma OwnChangeMembers(syncMessages: seq<Message>, listed: seq<nat>)
    ensures var (unlisted, added) := ListedOwnDeviceChange(syncMessages, listed);
            && (forall id :: id in unlisted <==> id in SyncIds(syncMessages) && id !in listed)
            && (forall id :: id in added <==> id in listed && id !in SyncIds(syncMessages))
  {
    DistinctMembers(SyncIds(syncMessages));
    DistinctMembers(listed);
    FilterMembers(Distinct(SyncIds(syncMessages)), id => id !in listed);
    FilterMembers(Distinct(listed), id => id !in SyncIds(syncMessages));
  }

  // --- Applying a reread -----------------------------------------------------------------------

  function OwnDevices(sender: string, ids: seq<nat>): set<Device> {
    set id | id in ids :: Device(sender, id)
  }

  /**
   * The change that a reread writes. The handoffs go to listed devices of other
   * members, every added device gets a device message, and the sync copies are
   * those that were built for added own devices.
   */
  ghost predicate IsReread(
      intent: Intent, listed: seq<Device>, own: seq<nat>, sender: string, change: Change)
  {
    var others := Elements(Others(listed, sender));
    var (ownUnlisted, ownAdded) := ListedOwnDeviceChange(intent.syncMessages, own);
    && change.removed
       == Targets(intent.preMessages) + Targets(intent.deviceMessages) - others + OwnDevices(sender, ownUnlisted)
    && Targets(change.preMessages) <= others
    && Targets(change.deviceMessages) == others - Targets(intent.deviceMessages)
    && Targets(change.syncMessages) <= OwnDevices(sender, ownAdded)
    && change.body == KeepBody
  }

  ghost predicate Stored(intent: Intent, sender: string) {
    && OnePerDevice(intent.preMessages) && OnePerDevice(intent.deviceMessages) && OnePerDevice(intent.syncMessages)
    && forall message :: message in intent.syncMessages ==> message.device.userId == sender
  }

  lemma OthersExcludeTheSender(listed: seq<Device>, sender: string, id: nat)
    ensures Device(sender, id) !in Elements(Others(listed, sender))
  {
    FilterMembers(listed, (device: Device) => device.userId != sender);
  }

  /**
   * After a reread, the device messages target exactly the listed devices of the
   * other members, and no pre-message targets a device that is not listed.
   */
  lemma RereadTargetsTheListedDevices(
      intent: Intent, listed: seq<Device>, own: seq<nat>, sender: string, change: Change)
    requires Stored(intent, sender) && IsReread(intent, listed, own, sender, change)
    requires Reconcile(intent, change).Some?
    ensures var after := Reconcile(intent, change).value;
            && Targets(after.deviceMessages) == Elements(Others(listed, sender))
            && Targets(after.preMessages) <= Elements(Others(listed, sender))
            && forall device :: device in Targets(after.deviceMessages) <==> device in listed && device.userId != sender
  {
    forall device ensures device in Others(listed, sender) <==> device in listed && device.userId != sender {
      OthersIff(listed, sender, device);
    }
    ReconciledTargets(intent, change);
    var others := Elements(Others(listed, sender));
    forall device | device in others ensures device !in change.removed {
      OthersExcludeTheSender(listed, sender, device.deviceId);
    }
  }

  /** A second identical read changes nothing. */
  method SecondReadIsEmpty(
      intent: Intent, listed: seq<Device>, own: seq<nat>, sender: string, change: Change)
    returns (unlisted: seq<Device>, added: seq<Device>)
    requires Stored(intent, sender) && IsReread(intent, listed, own, sender, change)
    requires Reconcile(intent, change).Some?
    ensures unlisted == [] && added == []
  {
    var after := Reconcile(intent, change).value;
    unlisted, added := ListedGroupDeviceChange(after, listed, sender);
    RereadTargetsTheListedDevices(intent, listed, own, sender, change);
    FirstIsInside(unlisted);
    assert Elements(unlisted) == {};
    assert forall device :: device in unlisted ==> device in Elements(unlisted);
    FilterNone(Others(listed, sender), (device: Device) => device !in Targets(after.deviceMessages)) by {
      assert forall device :: device in Others(listed, sender) ==> device in Elements(Others(listed, sender));
    }
  }

  // --- The sync copies after a reread ----------------------------------------------------------

  /** The own devices that a pre-message or device message of the intent targets. */
  function OwnTargets(intent: Intent, sender: string): set<Device> {
    set device | device in Targets(intent.preMessages) + Targets(intent.deviceMessages) && device.userId == sender
  }

  lemma SyncTargets(intent: Intent, sender: string)
    requires Stored(intent, sender)
    ensures Targets(intent.syncMessages) == OwnDevices(sender, SyncIds(intent.syncMessages))
  {
    var ids := SyncIds(intent.syncMessages);
    forall device | device in Targets(intent.syncMessages) ensures device in OwnDevices(sender, ids) {
      var i :| 0 <= i < |ids| && intent.syncMessages[i].device == device;
      assert intent.syncMessages[i] in intent.syncMessages;
      assert ids[i] == device.deviceId;
    }
    forall device | device in OwnDevices(sender, ids) ensures device in Targets(intent.syncMessages) {
      var i :| 0 <= i < |ids| && ids[i] == device.deviceId;
      assert intent.syncMessages[i] in intent.syncMessages;
    }
  }

  lemma RemovedOwnDevices(intent: Intent, listed: seq<Device>, own: seq<nat>, sender: string, change: Change, id: nat)
    requires Stored(intent, sender) && IsReread(intent, listed, own, sender, change)
    ensures Device(sender, id) in change.removed <==>
            || Device(sender, id) in OwnTargets(intent, sender)
            || (id in SyncIds(intent.syncMessages) && id !in own)
  {
    OthersExcludeTheSender(listed, sender, id);
    OwnChangeMembers(intent.syncMessages, own);
  }

  /**
   * A reread keeps the copies of the listed own devices and adds those that it
   * built. A removed pre-message or device message of an own device would take
   * the copy of that device with it.
   */
  lemma RereadSyncs(intent: Intent, listed: seq<Device>, own: seq<nat>, sender: string, change: Change)
    requires Stored(intent, sender) && IsReread(intent, listed, own, sender, change)
    requires Reconcile(intent, change).Some?
    ensures Targets(Reconcile(intent, change).value.syncMessages)
            == Targets(intent.syncMessages) * OwnDevices(sender, own) - OwnTargets(intent, sender)
               + Targets(change.syncMessages)
  {
    ReconciledTargets(intent, change);
    SyncTargets(intent, sender);
    OwnChangeMembers(intent.syncMessages, own);
    forall device | device in Targets(intent.syncMessages)
      ensures device in change.removed <==>
              device !in OwnDevices(sender, own) || device in OwnTargets(intent, sender)
    {
      RemovedOwnDevices(intent, listed, own, sender, change, device.deviceId);
    }
  }

  // --- The writes of a send never give a pre-message or a device message to an own device ---------------

  /** The writes of one stored group send, from its first write to its last. */
  datatype Write =
    | Reread(listed: seq<Device>, own: seq<nat>, change: Change)
    | Renew(change: Change)
    | Repair(accounts: set<string>, change: Change, restarts: nat, bundleMissing: seq<Device>)
    | AddSync(change: Change)
    | Settle(settled: set<string>, removed: set<Device>)

  /** A new send: its messages go to the listed devices of the other members, and its copies to own devices. */
  ghost predicate IsNewSend(intent: Intent, members: seq<Device>, sender: string) {
    && Stored(intent, sender)
    && Targets(intent.deviceMessages) == Elements(Others(members, sender))
    && Targets(intent.preMessages) <= Elements(Others(members, sender))
  }

  predicate NoneOf(messages: seq<Message>, sender: string) {
    forall message :: message in messages ==> message.device.userId != sender
  }

  /**
   * What each write can hold. No handoff goes to the own account. A renewal
   * prepares device messages for devices that have one. A repair prepares them
   * for the accounts of a refusal, which are recipients of the refused post.
   */
  ghost predicate IsWrite(intent: Intent, write: Write, sender: string) {
    match write
    case Reread(listed, own, change) => IsReread(intent, listed, own, sender, change)
    case Renew(change) =>
      && NoneOf(change.preMessages, sender) && change.syncMessages == []
      && Targets(change.deviceMessages) <= Targets(intent.deviceMessages)
    case Repair(accounts, change, _, _) =>
      && NoneOf(change.preMessages, sender) && change.syncMessages == []
      && sender !in accounts
      && forall message :: message in change.deviceMessages ==> message.device.userId in accounts
    case AddSync(change) =>
      && change.preMessages == [] && change.deviceMessages == []
      && forall message :: message in change.syncMessages ==> message.device.userId == sender
    case Settle(_, _) => true
  }

  /** The stored intent after a write. None when the write throws. */
  function Written(intent: Intent, write: Write): Option<Intent> {
    match write
    case Reread(_, _, change) => Reconcile(intent, change)
    case Renew(change) => Reconcile(intent, change)
    case Repair(_, change, restarts, bundleMissing) => CommitRepair(intent, change, restarts, bundleMissing)
    case AddSync(change) => Reconcile(intent, change)
    case Settle(settled, removed) => Some(Confirm(intent, settled, removed))
  }

  ghost predicate AreWrites(intent: Intent, writes: seq<Write>, sender: string)
    decreases |writes|
  {
    writes == []
    || (&& IsWrite(intent, writes[0], sender) && Written(intent, writes[0]).Some?
        && AreWrites(Written(intent, writes[0]).value, writes[1..], sender))
  }

  ghost function AfterWrites(intent: Intent, writes: seq<Write>, sender: string): Intent
    requires AreWrites(intent, writes, sender)
    decreases |writes|
  {
    if writes == [] then intent else AfterWrites(Written(intent, writes[0]).value, writes[1..], sender)
  }

  /**
   * What a write stores: a settled pre-message goes, and a removed device loses
   * every message. Any other write adds the messages of its change as well.
   */
  lemma WriteStores(intent: Intent, write: Write, message: Message)
    requires Written(intent, write).Some?
    ensures var after := Written(intent, write).value;
            if write.Settle? then
              && (message in after.preMessages <==>
                    message in intent.preMessages && IsOpen(message, write.settled, write.removed))
              && (message in after.deviceMessages <==>
                    message in intent.deviceMessages && message.device !in write.removed)
              && (message in after.syncMessages <==>
                    message in intent.syncMessages && message.device !in write.removed)
            else
              && (message in after.preMessages <==>
                    || (message in intent.preMessages && message.device !in write.change.removed)
                    || message in write.change.preMessages)
              && (message in after.deviceMessages <==>
                    || (message in intent.deviceMessages && message.device !in write.change.removed)
                    || message in write.change.deviceMessages)
              && (message in after.syncMessages <==>
                    || (message in intent.syncMessages && message.device !in write.change.removed)
                    || message in write.change.syncMessages)
  {
    if write.Settle? {
      ConfirmKeepsTheOpenMessages(intent, write.settled, write.removed);
      FilterMembers(intent.deviceMessages, (m: Message) => m.device !in write.removed);
      FilterMembers(intent.syncMessages, (m: Message) => m.device !in write.removed);
    } else {
      ReconciledMessages(intent, write.change);
    }
  }

  /** A settlement never throws. Another write throws if and only if its change does, or its count is not the next. */
  lemma WriteThrowsIff(intent: Intent, write: Write)
    ensures Written(intent, write).None? <==>
            && !write.Settle?
            && (Reconcile(intent, write.change).None? || (write.Repair? && write.restarts != intent.restarts + 1))
  {
    if write.Repair? {
      RepairCommitsOnce(intent, write.change, write.restarts, write.bundleMissing, write.change, []);
    }
  }

  /** Writes take effect one after another. */
  lemma {:induction false} OneMoreWrite(intent: Intent, writes: seq<Write>, last: Write, sender: string)
    requires AreWrites(intent, writes, sender)
    ensures var before, all := AfterWrites(intent, writes, sender), writes + [last];
            && (AreWrites(intent, all, sender) <==> IsWrite(before, last, sender) && Written(before, last).Some?)
            && (AreWrites(intent, all, sender) ==>
                  AfterWrites(intent, all, sender) == Written(before, last).value)
    decreases |writes|
  {
    var all := writes + [last];
    if writes != [] {
      var next := Written(intent, writes[0]).value;
      OneMoreWrite(next, writes[1..], last, sender);
      assert all[0] == writes[0] && all[1..] == writes[1..] + [last];
    }
  }

  /** The new messages go to other accounts, and the new copies to the own account. */
  ghost predicate ForOthers(change: Change, sender: string) {
    && NoneOf(change.preMessages, sender)
    && NoneOf(change.deviceMessages, sender)
    && forall message :: message in change.syncMessages ==> message.device.userId == sender
  }

  lemma NoneOfTargets(messages: seq<Message>, sender: string)
    ensures NoneOf(messages, sender) <==> forall device :: device in Targets(messages) ==> device.userId != sender
  {
    forall message | message in messages ensures message.device in Targets(messages) {
    }
  }

  lemma OwnTargetsAreNone(intent: Intent, sender: string)
    ensures OwnTargets(intent, sender) == {} <==>
            NoneOf(intent.preMessages, sender) && NoneOf(intent.deviceMessages, sender)
  {
    NoneOfTargets(intent.preMessages, sender);
    NoneOfTargets(intent.deviceMessages, sender);
    if OwnTargets(intent, sender) == {} {
      forall device | device in Targets(intent.preMessages) + Targets(intent.deviceMessages)
        ensures device.userId != sender
      {
        assert device !in OwnTargets(intent, sender);
      }
    }
  }

  lemma OthersAreOthers(listed: seq<Device>, sender: string, device: Device)
    requires device in Elements(Others(listed, sender))
    ensures device.userId != sender
  {
    OthersExcludeTheSender(listed, sender, device.deviceId);
  }

  lemma RereadIsForOthers(intent: Intent, listed: seq<Device>, own: seq<nat>, sender: string, change: Change)
    requires IsReread(intent, listed, own, sender, change)
    ensures ForOthers(change, sender)
  {
    NoneOfTargets(change.preMessages, sender);
    NoneOfTargets(change.deviceMessages, sender);
    forall device | device in Elements(Others(listed, sender)) ensures device.userId != sender {
      OthersAreOthers(listed, sender, device);
    }
    forall message | message in change.syncMessages ensures message.device.userId == sender {
      assert message.device in Targets(change.syncMessages);
    }
  }

  lemma ChangeKeepsOwnApart(intent: Intent, change: Change, sender: string)
    requires Stored(intent, sender) && OwnTargets(intent, sender) == {} && ForOthers(change, sender)
    requires Reconcile(intent, change).Some?
    ensures Stored(Reconcile(intent, change).value, sender)
    ensures OwnTargets(Reconcile(intent, change).value, sender) == {}
  {
    var after := Reconcile(intent, change).value;
    ReconciledTargets(intent, change);
    OwnTargetsAreNone(intent, sender);
    OwnTargetsAreNone(after, sender);
    NoneOfTargets(intent.preMessages, sender);
    NoneOfTargets(intent.deviceMessages, sender);
    NoneOfTargets(change.preMessages, sender);
    NoneOfTargets(change.deviceMessages, sender);
    NoneOfTargets(after.preMessages, sender);
    NoneOfTargets(after.deviceMessages, sender);
    forall message | message in after.syncMessages ensures message.device.userId == sender {
      assert message.device in Targets(after.syncMessages);
    }
  }

  lemma SettleKeepsOwnApart(intent: Intent, settled: set<string>, removed: set<Device>, sender: string)
    requires Stored(intent, sender) && OwnTargets(intent, sender) == {}
    ensures Stored(Confirm(intent, settled, removed), sender)
    ensures OwnTargets(Confirm(intent, settled, removed), sender) == {}
  {
    var after := Confirm(intent, settled, removed);
    var kept := Kept(intent.preMessages, removed);
    OwnTargetsAreNone(intent, sender);
    OwnTargetsAreNone(after, sender);
    KeptOnePerDevice(intent.preMessages, removed);
    KeptOnePerDevice(intent.deviceMessages, removed);
    KeptOnePerDevice(intent.syncMessages, removed);
    FilterKeepsOnePerDevice(kept, (message: Message) =>
      message.clientMessageId.None? || message.clientMessageId.value !in settled);
    FilterMembers(kept, (message: Message) =>
      message.clientMessageId.None? || message.clientMessageId.value !in settled);
    FilterMembers(intent.preMessages, (message: Message) => message.device !in removed);
    FilterMembers(intent.deviceMessages, (message: Message) => message.device !in removed);
    FilterMembers(intent.syncMessages, (message: Message) => message.device !in removed);
  }

  lemma NewSendHasNoOwnTarget(intent: Intent, members: seq<Device>, sender: string)
    requires IsNewSend(intent, members, sender)
    ensures OwnTargets(intent, sender) == {}
  {
    forall device | device in Elements(Others(members, sender)) ensures device.userId != sender {
      OthersAreOthers(members, sender, device);
    }
  }

  lemma WriteKeepsOwnApart(intent: Intent, write: Write, sender: string)
    requires Stored(intent, sender) && OwnTargets(intent, sender) == {}
    requires IsWrite(intent, write, sender) && Written(intent, write).Some?
    ensures Stored(Written(intent, write).value, sender)
    ensures OwnTargets(Written(intent, write).value, sender) == {}
  {
    match write
    case Reread(listed, own, change) =>
      RereadIsForOthers(intent, listed, own, sender, change);
      ChangeKeepsOwnApart(intent, change, sender);
    case Renew(change) =>
      OwnTargetsAreNone(intent, sender);
      NoneOfTargets(intent.deviceMessages, sender);
      NoneOfTargets(change.deviceMessages, sender);
      ChangeKeepsOwnApart(intent, change, sender);
    case Repair(_, change, _, _) => ChangeKeepsOwnApart(intent, change, sender);
    case AddSync(change) => ChangeKeepsOwnApart(intent, change, sender);
    case Settle(settled, removed) => SettleKeepsOwnApart(intent, settled, removed, sender);
  }

  /** No pre-message and no device message of a send ever targets an own device, after any number of its writes. */
  lemma {:induction false} WritesKeepOwnApart(intent: Intent, writes: seq<Write>, sender: string)
    requires Stored(intent, sender) && OwnTargets(intent, sender) == {} && AreWrites(intent, writes, sender)
    ensures Stored(AfterWrites(intent, writes, sender), sender)
    ensures OwnTargets(AfterWrites(intent, writes, sender), sender) == {}
    decreases |writes|
  {
    if writes != [] {
      WriteKeepsOwnApart(intent, writes[0], sender);
      WritesKeepOwnApart(Written(intent, writes[0]).value, writes[1..], sender);
    }
  }

  /**
   * A reread at any point of a send keeps the copies of the listed own devices and
   * adds those that it built. So the copies target exactly the listed own devices
   * if and only if a copy was built for each listed device that had none.
   */
  lemma RereadSyncsTheListedOwnDevices(
      sent: Intent, members: seq<Device>, writes: seq<Write>, listed: seq<Device>, own: seq<nat>, sender: string,
      change: Change)
    requires IsNewSend(sent, members, sender) && AreWrites(sent, writes, sender)
    requires IsReread(AfterWrites(sent, writes, sender), listed, own, sender, change)
    requires Reconcile(AfterWrites(sent, writes, sender), change).Some?
    ensures var intent := AfterWrites(sent, writes, sender);
            var synced := Targets(Reconcile(intent, change).value.syncMessages);
            && synced == Targets(intent.syncMessages) * OwnDevices(sender, own) + Targets(change.syncMessages)
            && (synced == OwnDevices(sender, own) <==>
                Targets(change.syncMessages) == OwnDevices(sender, own) - Targets(intent.syncMessages))
  {
    var intent := AfterWrites(sent, writes, sender);
    NewSendHasNoOwnTarget(sent, members, sender);
    WritesKeepOwnApart(sent, writes, sender);
    RereadSyncs(intent, listed, own, sender, change);
    SyncTargets(intent, sender);
    OwnChangeMembers(intent.syncMessages, own);
    assert Targets(change.syncMessages) <= OwnDevices(sender, own) - Targets(intent.syncMessages);
  }

  /** A second identical read of the own list then changes nothing. */
  lemma SecondOwnReadIsEmpty(intent: Intent, own: seq<nat>, sender: string)
    requires Stored(intent, sender) && Targets(intent.syncMessages) == OwnDevices(sender, own)
    ensures ListedOwnDeviceChange(intent.syncMessages, own) == ([], [])
  {
    var (unlisted, added) := ListedOwnDeviceChange(intent.syncMessages, own);
    OwnChangeMembers(intent.syncMessages, own);
    SyncTargets(intent, sender);
    forall id ensures id !in unlisted && id !in added {
      assert Device(sender, id) in OwnDevices(sender, own) <==>
             Device(sender, id) in OwnDevices(sender, SyncIds(intent.syncMessages));
    }
    FirstIsInside(unlisted);
    FirstIsInside(added);
  }
}
