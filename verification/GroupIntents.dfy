/**
 * The stored intent of a group send and its atomic writes
 * (local/store/reliability.ts): the messages of removed devices go out, new
 * messages are appended, and the shared body and the restart count are set.
 */
module GroupIntents {
  import opened Options
  import opened Sequences
  import opened Associations
  import opened DeviceSets

  /** A stored message to one device. `text` is the rest of the stored record. */
  datatype Message = Message(device: Device, clientMessageId: Option<string>, text: string)

  /** A shared body: the accounts that it names, each with its devices. */
  datatype Body = Body(accounts: seq<Entry<string, seq<nat>>>)

  datatype Intent = Intent(
    preMessages: seq<Message>,
    deviceMessages: seq<Message>,
    syncMessages: seq<Message>,
    body: Option<Body>,
    restarts: nat,
    bundleMissing: seq<Device>)

  /** What a write does to the shared body. */
  datatype BodyChange = KeepBody | DropBody | SetBody(body: Body)

  datatype Change = Change(
    removed: set<Device>,
    preMessages: seq<Message>,
    deviceMessages: seq<Message>,
    syncMessages: seq<Message>,
    body: BodyChange)

  function Targets(messages: seq<Message>): set<Device> {
    set message | message in messages :: message.device
  }

  ghost predicate OnePerDevice(messages: seq<Message>) {
    forall i, j :: 0 <= i < j < |messages| ==> messages[i].device != messages[j].device
  }

  function Kept(messages: seq<Message>, removed: set<Device>): seq<Message> {
    Filter(messages, (message: Message) => message.device !in removed)
  }

  /** Append each new message once. None when a stored message of the same device is another one. */
  function Append(messages: seq<Message>, additions: seq<Message>): Option<seq<Message>> {
    if additions == [] then Some(messages)
    else
      var before := Append(messages, additions[..|additions| - 1]);
      var last := additions[|additions| - 1];
      if before.None? then None
      else if last in before.value then before
      else if last.device in Targets(before.value) then None
      else Some(before.value + [last])
  }

  function ChangedBody(body: Option<Body>, change: BodyChange): Option<Body> {
    match change
    case KeepBody => body
    case DropBody => None
    case SetBody(next) => Some(next)
  }

  /** Apply a change of the device set in one write. None when the write throws. */
  function Reconcile(intent: Intent, change: Change): Option<Intent> {
    var pre := Append(Kept(intent.preMessages, change.removed), change.preMessages);
    var device := Append(Kept(intent.deviceMessages, change.removed), change.deviceMessages);
    var sync := Append(Kept(intent.syncMessages, change.removed), change.syncMessages);
    if pre.None? || device.None? || sync.None? then None
    else Some(intent.(preMessages := pre.value, deviceMessages := device.value, syncMessages := sync.value,
                      body := ChangedBody(intent.body, change.body)))
  }

  /** Commit a repair and its restart count in one write. None from a different restart. */
  function CommitRepair(intent: Intent, change: Change, restarts: nat, bundleMissing: seq<Device>): Option<Intent> {
    if restarts != intent.restarts + 1 then None
    else
      var changed := Reconcile(intent, change);
      if changed.None? then None else Some(changed.value.(restarts := restarts, bundleMissing := bundleMissing))
  }

  /** A pre-message with no client message ID is never settled. */
  function Unsettled(messages: seq<Message>, settled: set<string>): seq<Message> {
    Filter(messages, (message: Message) =>
      message.clientMessageId.None? || message.clientMessageId.value !in settled)
  }

  /** Remove the settled pre-messages, and every message of a device that the list no longer shows. */
  function Confirm(intent: Intent, settled: set<string>, removed: set<Device>): Intent {
    intent.(
      preMessages := Unsettled(Kept(intent.preMessages, removed), settled),
      deviceMessages := Kept(intent.deviceMessages, removed),
      syncMessages := Kept(intent.syncMessages, removed))
  }

  // --- Facts about the writes ----------------------------------------------------------

  lemma KeptTargets(messages: seq<Message>, removed: set<Device>)
    ensures Targets(Kept(messages, removed)) == Targets(messages) - removed
  {
    FilterMembers(messages, (message: Message) => message.device !in removed);
  }

  lemma {:induction false} FilterKeepsOnePerDevice(messages: seq<Message>, keep: Message -> bool)
    requires OnePerDevice(messages)
    ensures OnePerDevice(Filter(messages, keep))
  {
    if messages != [] {
      var front, last := messages[..|messages| - 1], messages[|messages| - 1];
      FilterKeepsOnePerDevice(front, keep);
      FilterMembers(front, keep);
      forall message | message in Filter(front, keep) ensures message.device != last.device {
        var i :| 0 <= i < |front| && front[i] == message;
        assert messages[i] == message;
      }
      var kept := Filter(front, keep);
      assert forall i :: 0 <= i < |kept| ==> kept[i] in kept;
    }
  }

  lemma KeptOnePerDevice(messages: seq<Message>, removed: set<Device>)
    requires OnePerDevice(messages)
    ensures OnePerDevice(Kept(messages, removed))
  {
    FilterKeepsOnePerDevice(messages, (message: Message) => message.device !in removed);
  }

  /** The appended list targets exactly the devices of both lists, each once. */
  lemma {:induction false} AppendTargets(messages: seq<Message>, additions: seq<Message>)
    requires OnePerDevice(messages) && Append(messages, additions).Some?
    ensures OnePerDevice(Append(messages, additions).value)
    ensures Targets(Append(messages, additions).value) == Targets(messages) + Targets(additions)
  {
    if additions != [] {
      var front, last := additions[..|additions| - 1], additions[|additions| - 1];
      AppendTargets(messages, front);
      assert additions == front + [last];
      assert Targets(additions) == Targets(front) + {last.device};
      var before := Append(messages, front).value;
      assert last !in before ==> Targets(before + [last]) == Targets(before) + {last.device};
    }
  }

  /** New messages of other devices are all appended. */
  lemma {:induction false} AppendDisjoint(messages: seq<Message>, additions: seq<Message>)
    requires OnePerDevice(additions) && Targets(messages) !! Targets(additions)
    ensures Append(messages, additions) == Some(messages + additions)
  {
    if additions == [] {
      assert messages + additions == messages;
    } else {
      var front, last := additions[..|additions| - 1], additions[|additions| - 1];
      assert Targets(front) <= Targets(additions);
      AppendDisjoint(messages, front);
      assert last.device in Targets(additions);
      assert messages + additions == (messages + front) + [last];
      forall m | m in messages + front ensures m.device != last.device {
        assert m in messages ==> m.device in Targets(messages);
      }
    }
  }

  /** The appended list holds exactly the messages of both lists, and starts with the old list. */
  lemma {:induction false} AppendedMembers(messages: seq<Message>, additions: seq<Message>)
    requires Append(messages, additions).Some?
    ensures var after := Append(messages, additions).value;
            && messages <= after
            && forall message :: message in after <==> message in messages || message in additions
  {
    if additions != [] {
      var front, last := additions[..|additions| - 1], additions[|additions| - 1];
      AppendedMembers(messages, front);
      assert additions == front + [last];
    }
  }

  /** An append fails if and only if two different messages of one device would be in the list. */
  lemma {:induction false} AppendFailsIff(messages: seq<Message>, additions: seq<Message>)
    requires OnePerDevice(messages)
    ensures Append(messages, additions).None? <==>
            exists one, other :: one in messages + additions && other in additions
                                 && one.device == other.device && one != other
  {
    var all := messages + additions;
    if additions != [] {
      var front, last := additions[..|additions| - 1], additions[|additions| - 1];
      AppendFailsIff(messages, front);
      assert additions == front + [last];
      if Append(messages, front).None? {
        var one, other :| one in messages + front && other in front && one.device == other.device && one != other;
        assert one in all && other in additions;
      } else {
        AppendOfOneMore(messages, front, last);
      }
    }
  }

  lemma AppendOfOneMore(messages: seq<Message>, front: seq<Message>, last: Message)
    requires OnePerDevice(messages) && Append(messages, front).Some?
    requires !exists one, other :: one in messages + front && other in front
                                   && one.device == other.device && one != other
    ensures Append(messages, front + [last]).None? <==>
            exists one, other :: one in messages + (front + [last]) && other in front + [last]
                                 && one.device == other.device && one != other
  {
    var before := Append(messages, front).value;
    assert (front + [last])[..|front|] == front;
    AppendedMembers(messages, front);
    AppendTargets(messages, front);
    var all := messages + (front + [last]);
    if Append(messages, front + [last]).None? {
      var one :| one in before && one.device == last.device;
      assert one in all && last in front + [last];
    } else {
      forall one, other | one in all && other in front + [last] && one.device == other.device ensures one == other {
        LastIsStored(before, last);
        if one in messages + front && other !in front {
          SameDeviceSameMessage(before, one, last);
        } else if one !in messages + front && other in front {
          SameDeviceSameMessage(before, other, last);
        }
      }
    }
  }

  lemma LastIsStored(messages: seq<Message>, last: Message)
    requires last in messages || last.device !in Targets(messages)
    ensures forall one :: one in messages && one.device == last.device ==> last in messages
  {
  }

  lemma SameDeviceSameMessage(messages: seq<Message>, one: Message, other: Message)
    requires OnePerDevice(messages) && one in messages && other in messages && one.device == other.device
    ensures one == other
  {
  }

  /**
   * What each list of an intent holds after a change: the messages of the devices
   * that are not removed, first and in their order, and the new messages. The
   * rest of the intent changes only in its body.
   */
  lemma ReconciledMessages(intent: Intent, change: Change)
    requires Reconcile(intent, change).Some?
    ensures var after := Reconcile(intent, change).value;
            && Holds(intent.preMessages, change.removed, change.preMessages, after.preMessages)
            && Holds(intent.deviceMessages, change.removed, change.deviceMessages, after.deviceMessages)
            && Holds(intent.syncMessages, change.removed, change.syncMessages, after.syncMessages)
            && after.restarts == intent.restarts && after.bundleMissing == intent.bundleMissing
            && after.body == (match change.body
                              case KeepBody => intent.body
                              case DropBody => None
                              case SetBody(body) => Some(body))
  {
    AppendedMembers(Kept(intent.preMessages, change.removed), change.preMessages);
    AppendedMembers(Kept(intent.deviceMessages, change.removed), change.deviceMessages);
    AppendedMembers(Kept(intent.syncMessages, change.removed), change.syncMessages);
    KeptMembers(intent.preMessages, change.removed);
    KeptMembers(intent.deviceMessages, change.removed);
    KeptMembers(intent.syncMessages, change.removed);
  }

  ghost predicate Holds(
      messages: seq<Message>, removed: set<Device>, additions: seq<Message>, after: seq<Message>)
  {
    && Filter(messages, (message: Message) => message.device !in removed) <= after
    && forall message :: message in after <==>
         (message in messages && message.device !in removed) || message in additions
  }

  lemma KeptMembers(messages: seq<Message>, removed: set<Device>)
    ensures Kept(messages, removed) == Filter(messages, (message: Message) => message.device !in removed)
    ensures forall message :: message in Kept(messages, removed) <==>
              message in messages && message.device !in removed
  {
    var keep := (message: Message) => message.device !in removed;
    FilterMembers(messages, keep);
    SameFilter(messages, keep, (message: Message) => message.device !in removed);
  }

  /** A repair is stored with its count and the devices without a bundle, and commits at most once from that count. */
  lemma RepairCommitsOnce(
      intent: Intent, change: Change, restarts: nat, bundleMissing: seq<Device>, again: Change, more: seq<Device>)
    ensures CommitRepair(intent, change, restarts, bundleMissing).Some? <==>
            restarts == intent.restarts + 1 && Reconcile(intent, change).Some?
    ensures CommitRepair(intent, change, restarts, bundleMissing).Some? ==>
              var after, changed := CommitRepair(intent, change, restarts, bundleMissing).value,
                                    Reconcile(intent, change).value;
              && after.restarts == restarts && after.bundleMissing == bundleMissing && after.body == changed.body
              && after.preMessages == changed.preMessages && after.deviceMessages == changed.deviceMessages
              && after.syncMessages == changed.syncMessages
              && CommitRepair(after, again, restarts, more).None?
  {
    if Reconcile(intent, change).Some? {
      ReconciledMessages(intent, change);
    }
  }

  // --- The write after the pre-messages ---------------------------------------------------

  /** The message is neither settled nor of a removed device. */
  predicate IsOpen(message: Message, settled: set<string>, removed: set<Device>) {
    && message.device !in removed
    && (message.clientMessageId.Some? ==> message.clientMessageId.value !in settled)
  }

  /**
   * The write after the pre-messages keeps exactly the pre-messages that are
   * neither settled nor of a removed device, and exactly the device messages and
   * sync copies of devices that are not removed, each list in its order. The rest
   * of the intent stays.
   */
  lemma ConfirmKeepsTheOpenMessages(intent: Intent, settled: set<string>, removed: set<Device>)
    ensures var after := Confirm(intent, settled, removed);
            && after.preMessages
               == Filter(intent.preMessages, (message: Message) => IsOpen(message, settled, removed))
            && after.deviceMessages
               == Filter(intent.deviceMessages, (message: Message) => message.device !in removed)
            && after.syncMessages
               == Filter(intent.syncMessages, (message: Message) => message.device !in removed)
            && (forall message :: message in after.preMessages <==>
                  message in intent.preMessages && IsOpen(message, settled, removed))
            && after.body == intent.body && after.restarts == intent.restarts
            && after.bundleMissing == intent.bundleMissing
  {
    var keep, unsettled, both := (message: Message) => message.device !in removed,
      (message: Message) => message.clientMessageId.None? || message.clientMessageId.value !in settled,
      (message: Message) => IsOpen(message, settled, removed);
    KeptMembers(intent.preMessages, removed);
    KeptMembers(intent.deviceMessages, removed);
    KeptMembers(intent.syncMessages, removed);
    SameFilter(intent.preMessages, keep, (message: Message) => message.device !in removed);
    SameFilter(Filter(intent.preMessages, keep), unsettled, (message: Message) =>
      message.clientMessageId.None? || message.clientMessageId.value !in settled);
    FilterTwice(intent.preMessages, keep, unsettled, both);
    FilterMembers(intent.preMessages, both);
    SameFilter(intent.preMessages, both, (message: Message) => IsOpen(message, settled, removed));
  }

  /** The targets after a change: those that stay, and those of the new messages. */
  lemma ReconciledTargets(intent: Intent, change: Change)
    requires OnePerDevice(intent.preMessages) && OnePerDevice(intent.deviceMessages)
    requires OnePerDevice(intent.syncMessages) && Reconcile(intent, change).Some?
    ensures var after := Reconcile(intent, change).value;
            && OnePerDevice(after.preMessages) && OnePerDevice(after.deviceMessages) && OnePerDevice(after.syncMessages)
            && Targets(after.preMessages) == Targets(intent.preMessages) - change.removed + Targets(change.preMessages)
            && Targets(after.deviceMessages)
               == Targets(intent.deviceMessages) - change.removed + Targets(change.deviceMessages)
            && Targets(after.syncMessages)
               == Targets(intent.syncMessages) - change.removed + Targets(change.syncMessages)
  {
    ListAfter(intent.preMessages, change.removed, change.preMessages);
    ListAfter(intent.deviceMessages, change.removed, change.deviceMessages);
    ListAfter(intent.syncMessages, change.removed, change.syncMessages);
  }

  lemma ListAfter(messages: seq<Message>, removed: set<Device>, additions: seq<Message>)
    requires OnePerDevice(messages) && Append(Kept(messages, removed), additions).Some?
    ensures var after := Append(Kept(messages, removed), additions).value;
            OnePerDevice(after) && Targets(after) == Targets(messages) - removed + Targets(additions)
  {
    KeptOnePerDevice(messages, removed);
    KeptTargets(messages, removed);
    AppendTargets(Kept(messages, removed), additions);
  }
}
