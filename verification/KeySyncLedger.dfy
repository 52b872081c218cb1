/**
 * The key sync ledger of one group (client/group-key-sync.ts,
 * internal/groups/key-sync-ledger.ts): any number of sends and receives that
 * mark, each mark a read, a compare and set, and a check of the group's record,
 * against deletions of the record and its ledger value.
 */
module KeySyncLedger {
  import opened Options

  /** An own device and the registration of one install of it. */
  datatype Device = Device(deviceId: int, registrationId: int)

  type Ledger = map<int, int>

  /** A send with the copies that the Relay accepted so far, or a mark of devices. */
  datatype Marker =
    | Sending(devices: seq<Device>)
    | Reading(devices: seq<Device>)
    | Swapping(devices: seq<Device>, expected: Option<Ledger>)
    | Checking
    | Deleting

  /**
   * The stored ledger value and whether the group has a record, the devices
   * that the Relay accepted a copy for, those that sent the key themselves, the
   * running markers, and the deletions that still have to delete the ledger value.
   */
  datatype World = World(
    ledger: Option<Ledger>,
    recorded: bool,
    accepted: set<Device>,
    received: set<Device>,
    markers: map<nat, Marker>,
    deletions: set<nat>)

  datatype Event =
    | StartSend(marker: nat)
    | RelayAccepts(marker: nat, device: Device)
    | Receive(marker: nat, deviceId: int, registrationId: Option<int>)
    | Step(marker: nat)
    | Fault(marker: nat)
    | CreateRecord
    | DeleteRecord(deletion: nat)
    | DeleteLedger(deletion: nat)
    | FaultDeletion(deletion: nat)

  /** The entries of the devices, a later one replacing an earlier one of the same device. */
  function Marked(ledger: Ledger, devices: seq<Device>): Ledger {
    if devices == [] then ledger
    else
      var last := devices[|devices| - 1];
      Marked(ledger, devices[..|devices| - 1])[last.deviceId := last.registrationId]
  }

  /**
   * The next step of a marker. None ends it. A send that resolves, or that fails
   * after some copies, marks the accepted devices, if any. A compare and set that
   * fails reads again.
   */
  function MarkerStep(w: World, marker: Marker): (Option<Ledger>, Option<Marker>) {
    match marker
    case Sending(devices) => (w.ledger, if devices == [] then None else Some(Reading(devices)))
    case Reading(devices) => (w.ledger, Some(Swapping(devices, w.ledger)))
    case Swapping(devices, expected) =>
      if w.ledger == expected then (Some(Marked(expected.GetOr(map[]), devices)), Some(Checking))
      else (w.ledger, Some(Reading(devices)))
    case Checking => (w.ledger, if w.recorded then None else Some(Deleting))
    case Deleting => (None, None)
  }

  predicate Enabled(w: World, event: Event) {
    match event
    case StartSend(id) => id !in w.markers
    case RelayAccepts(id, _) => id in w.markers && w.markers[id].Sending?
    case Receive(id, _, _) => id !in w.markers
    case Step(id) => id in w.markers
    case Fault(id) => id in w.markers
    case DeleteRecord(id) => id !in w.deletions
    case DeleteLedger(id) => id in w.deletions
    case FaultDeletion(id) => id in w.deletions
    case _ => true
  }

  function Next(w: World, event: Event): World
    requires Enabled(w, event)
  {
    match event
    case StartSend(id) => w.(markers := w.markers[id := Sending([])])
    case RelayAccepts(id, device) =>
      w.(accepted := w.accepted + {device},
         markers := w.markers[id := Sending(w.markers[id].devices + [device])])
    case Receive(id, deviceId, registrationId) =>
      if registrationId.None? then w
      else
        var device := Device(deviceId, registrationId.value);
        w.(received := w.received + {device}, markers := w.markers[id := Reading([device])])
    case Step(id) =>
      var (ledger, marker) := MarkerStep(w, w.markers[id]);
      w.(ledger := ledger, markers := if marker.Some? then w.markers[id := marker.value] else w.markers - {id})
    case Fault(id) => w.(markers := w.markers - {id})
    case CreateRecord => w.(recorded := true)
    case DeleteRecord(id) => w.(recorded := false, deletions := w.deletions + {id})
    case DeleteLedger(id) => w.(ledger := None, deletions := w.deletions - {id})
    case FaultDeletion(id) => w.(deletions := w.deletions - {id})
  }

  predicate ValidRun(w: World, events: seq<Event>)
    decreases |events|
  {
    events == [] || (Enabled(w, events[0]) && ValidRun(Next(w, events[0]), events[1..]))
  }

  function Run(w: World, events: seq<Event>): World
    requires ValidRun(w, events)
    decreases |events|
  {
    if events == [] then w else Run(Next(w, events[0]), events[1..])
  }

  const EMPTY := World(None, false, {}, {}, map[], {})

  // --- Every mark is of an accepted copy or of a sender of the key ------------------------------

  ghost predicate AllFrom(devices: set<Device>, ledger: Option<Ledger>) {
    ledger.Some? ==> forall id :: id in ledger.value ==> Device(id, ledger.value[id]) in devices
  }

  /** The devices of a send were accepted, and those of a mark were accepted or sent the key. */
  ghost predicate MarkerFrom(w: World, marker: Marker) {
    match marker
    case Sending(devices) => forall i :: 0 <= i < |devices| ==> devices[i] in w.accepted
    case Reading(devices) => forall i :: 0 <= i < |devices| ==> devices[i] in w.accepted + w.received
    case Swapping(devices, _) => forall i :: 0 <= i < |devices| ==> devices[i] in w.accepted + w.received
    case _ => true
  }

  ghost predicate Honest(w: World) {
    && AllFrom(w.accepted + w.received, w.ledger)
    && forall id :: id in w.markers ==> MarkerFrom(w, w.markers[id])
  }

  lemma {:induction false} MarkedIsFrom(from: set<Device>, ledger: Ledger, devices: seq<Device>)
    requires AllFrom(from, Some(ledger))
    requires forall i :: 0 <= i < |devices| ==> devices[i] in from
    ensures AllFrom(from, Some(Marked(ledger, devices)))
  {
    if devices != [] {
      MarkedIsFrom(from, ledger, devices[..|devices| - 1]);
    }
  }

  lemma StepStaysHonest(w: World, event: Event)
    requires Honest(w) && Enabled(w, event)
    ensures Honest(Next(w, event))
  {
    var after := Next(w, event);
    forall id | id in w.markers ensures MarkerFrom(after, w.markers[id]) {
      assert MarkerFrom(w, w.markers[id]);
    }
    if event.Step? && w.markers[event.marker].Swapping? {
      var marker := w.markers[event.marker];
      if w.ledger == marker.expected {
        MarkedIsFrom(w.accepted + w.received, marker.expected.GetOr(map[]), marker.devices);
      }
    }
  }

  /** In every run, a mark exists only for a device whose copy the Relay accepted or that sent the key. */
  lemma {:induction false} EveryMarkIsVouched(w: World, events: seq<Event>)
    requires Honest(w) && ValidRun(w, events)
    ensures AllFrom(Run(w, events).accepted + Run(w, events).received, Run(w, events).ledger)
    decreases |events|
  {
    if events != [] {
      StepStaysHonest(w, events[0]);
      EveryMarkIsVouched(Next(w, events[0]), events[1..]);
    }
  }

  // --- No mark outlives the record ----------------------------------------------------------

  /** A marker that set its value and did not end, or a deletion that is not finished. */
  ghost predicate Unfinished(w: World) {
    || w.deletions != {}
    || exists id :: id in w.markers && (w.markers[id].Checking? || w.markers[id].Deleting?)
  }

  ghost predicate Cleanable(w: World) {
    !w.recorded && w.ledger.Some? ==> Unfinished(w)
  }

  /** A fault that stops a marker before its mark loses nothing. */
  predicate Harmless(w: World, event: Event) {
    && !event.FaultDeletion?
    && (event.Fault? && event.marker in w.markers ==>
          !w.markers[event.marker].Checking? && !w.markers[event.marker].Deleting?)
  }

  predicate HarmlessRun(w: World, events: seq<Event>)
    requires ValidRun(w, events)
    decreases |events|
  {
    events == [] || (Harmless(w, events[0]) && HarmlessRun(Next(w, events[0]), events[1..]))
  }

  lemma StepStaysCleanable(w: World, event: Event)
    requires Cleanable(w) && Enabled(w, event) && Harmless(w, event)
    ensures Cleanable(Next(w, event))
  {
    var after := Next(w, event);
    if !after.recorded && after.ledger.Some? && after.deletions == {} {
      if event.Step? && w.markers[event.marker].Swapping? && w.ledger == w.markers[event.marker].expected {
        assert after.markers[event.marker].Checking?;
      } else {
        var id :| id in w.markers && (w.markers[id].Checking? || w.markers[id].Deleting?);
        assert id in after.markers && (after.markers[id].Checking? || after.markers[id].Deleting?);
      }
    }
  }

  lemma {:induction false} RunStaysCleanable(w: World, events: seq<Event>)
    requires Cleanable(w) && ValidRun(w, events) && HarmlessRun(w, events)
    ensures Cleanable(Run(w, events))
    decreases |events|
  {
    if events != [] {
      StepStaysCleanable(w, events[0]);
      RunStaysCleanable(Next(w, events[0]), events[1..]);
    }
  }

  /**
   * In every interleaving of markers and deletions, also with re-creations of
   * the record: once all of them ended and the group has no record, no mark is left.
   */
  lemma NoMarkOutlivesTheRecord(events: seq<Event>)
    requires ValidRun(EMPTY, events) && HarmlessRun(EMPTY, events)
    requires Run(EMPTY, events).markers == map[] && Run(EMPTY, events).deletions == {}
    requires !Run(EMPTY, events).recorded
    ensures Run(EMPTY, events).ledger == None
  {
    RunStaysCleanable(EMPTY, events);
  }

  /** A device that sent the key is marked, up to the check of the record. */
  lemma ReceivedIsMarked(device: Device)
    ensures var events := [Receive(0, device.deviceId, Some(device.registrationId)), Step(0), Step(0)];
            && ValidRun(EMPTY, events)
            && Run(EMPTY, events) == World(Some(map[device.deviceId := device.registrationId]), false, {}, {device},
                                           map[0 := Checking], {})
  {
    var receive := Receive(0, device.deviceId, Some(device.registrationId));
    var w1 := Next(EMPTY, receive);
    var w2 := Next(w1, Step(0));
    assert [device][..0] == [];
    assert Marked(map[], [device]) == map[device.deviceId := device.registrationId];
    RunCons(w2, Step(0), []);
    RunCons(w1, Step(0), [Step(0)]);
    RunCons(EMPTY, receive, [Step(0), Step(0)]);
    assert [Step(0)] + [] == [Step(0)] && [Step(0)] + [Step(0)] == [Step(0), Step(0)];
    assert [receive] + [Step(0), Step(0)] == [receive, Step(0), Step(0)];
  }

  /** A marker that stops between its mark and its check leaves the mark of a group with no record. */
  lemma FaultAfterTheMarkLeavesIt(device: Device)
    ensures var events := [Receive(0, device.deviceId, Some(device.registrationId)), Step(0), Step(0)];
            && ValidRun(EMPTY, events) && Enabled(Run(EMPTY, events), Fault(0))
            && var w := Next(Run(EMPTY, events), Fault(0));
               !w.recorded && w.markers == map[] && w.deletions == {}
               && w.ledger == Some(map[device.deviceId := device.registrationId])
  {
    ReceivedIsMarked(device);
  }

  /** A mark of the deleted record survives when the record is created again before the check. */
  lemma RecreationKeepsTheMark(device: Device)
    ensures var events := [Receive(0, device.deviceId, Some(device.registrationId)), Step(0), Step(0)];
            && ValidRun(EMPTY, events)
            && var created := Next(Run(EMPTY, events), CreateRecord);
               Enabled(created, Step(0))
               && Next(created, Step(0)).markers == map[]
               && Next(created, Step(0)).ledger == Some(map[device.deviceId := device.registrationId])
  {
    ReceivedIsMarked(device);
  }

  lemma RunCons(w: World, event: Event, rest: seq<Event>)
    requires Enabled(w, event) && ValidRun(Next(w, event), rest)
    ensures ValidRun(w, [event] + rest) && Run(w, [event] + rest) == Run(Next(w, event), rest)
  {
    assert ([event] + rest)[1..] == rest;
  }

  // --- What a marker does when nothing disturbs it ------------------------------------------------

  /** A send that ends marks exactly the devices whose copy was accepted, and nothing when there is none. */
  lemma EndedSendMarksTheAccepted(w: World, id: nat)
    requires id in w.markers && w.markers[id].Sending?
    ensures var after, accepted := Next(w, Step(id)), w.markers[id].devices;
            && after.ledger == w.ledger
            && (accepted == [] ==> id !in after.markers)
            && (accepted != [] ==> id in after.markers && after.markers[id] == Reading(accepted))
  {
  }

  /** An acceptance is noted behind the earlier ones of its send. */
  lemma AcceptanceIsNoted(w: World, id: nat, device: Device)
    requires Enabled(w, RelayAccepts(id, device))
    ensures Next(w, RelayAccepts(id, device)).markers[id] == Sending(w.markers[id].devices + [device])
  {
  }

  /** A mark sets the ledger if and only if nothing changed it since the read, and reads again otherwise. */
  lemma SwapsIff(w: World, id: nat)
    requires id in w.markers && w.markers[id].Swapping?
    ensures var after, marker := Next(w, Step(id)), w.markers[id];
            && id in after.markers
            && (w.ledger == marker.expected ==>
                  after.markers[id] == Checking && after.ledger.Some?
                  && forall device :: Has(w, device) || device in marker.devices ==>
                       (|| Has(after, device)
                        || exists other :: other in marker.devices && other.deviceId == device.deviceId
                                           && other != device))
            && (w.ledger != marker.expected ==>
                  after.ledger == w.ledger && after.markers[id] == Reading(marker.devices))
  {
    var marker := w.markers[id];
    if w.ledger == marker.expected {
      forall device | Has(w, device) || device in marker.devices
        ensures || Has(Next(w, Step(id)), device)
                || exists other :: other in marker.devices && other.deviceId == device.deviceId && other != device
      {
        MarksOrReplaces(w.ledger.GetOr(map[]), marker.devices, device);
      }
    }
  }

  lemma {:induction false} MarksOrReplaces(ledger: Ledger, devices: seq<Device>, device: Device)
    requires device in devices || (device.deviceId in ledger && ledger[device.deviceId] == device.registrationId)
    ensures var after := Marked(ledger, devices);
            || (device.deviceId in after && after[device.deviceId] == device.registrationId)
            || exists other :: other in devices && other.deviceId == device.deviceId && other != device
  {
    if devices != [] {
      var front, last := devices[..|devices| - 1], devices[|devices| - 1];
      assert devices == front + [last];
      if last.deviceId == device.deviceId && last != device {
        assert last in devices;
      } else if last != device {
        MarksOrReplaces(ledger, front, device);
      }
    }
  }

  /**
   * A mark that nothing disturbs ends after three steps with its devices in the
   * ledger when the group has a record. With no record it deletes the ledger value.
   */
  lemma UndisturbedMark(w: World, id: nat, devices: seq<Device>)
    requires id in w.markers && w.markers[id] == Reading(devices)
    ensures var checked := Next(Next(Next(w, Step(id)), Step(id)), Step(id));
            && (w.recorded ==> id !in checked.markers && checked.ledger == Some(Marked(w.ledger.GetOr(map[]), devices)))
            && (!w.recorded ==>
                  && id in checked.markers && Next(checked, Step(id)).ledger == None
                  && id !in Next(checked, Step(id)).markers)
  {
  }

  /** The copies of a send that the Relay accepts, one after another. */
  function Accepting(id: nat, devices: seq<Device>): seq<Event> {
    if devices == [] then [] else [RelayAccepts(id, devices[0])] + Accepting(id, devices[1..])
  }

  lemma {:induction false} AcceptedInOrder(w: World, id: nat, devices: seq<Device>)
    requires id in w.markers && w.markers[id].Sending?
    ensures ValidRun(w, Accepting(id, devices))
    ensures var after := Run(w, Accepting(id, devices));
            && after.ledger == w.ledger && after.recorded == w.recorded
            && after.markers == w.markers[id := Sending(w.markers[id].devices + devices)]
            && (forall device :: device in after.accepted <==> device in w.accepted || device in devices)
    decreases |devices|
  {
    if devices == [] {
      assert w.markers[id].devices + devices == w.markers[id].devices;
    } else {
      var first, rest := devices[0], devices[1..];
      var next := Next(w, RelayAccepts(id, first));
      AcceptedInOrder(next, id, rest);
      RunCons(w, RelayAccepts(id, first), Accepting(id, rest));
      assert next.markers[id].devices + rest == w.markers[id].devices + devices by {
        assert devices == [first] + rest;
      }
    }
  }

  /**
   * A send that nothing disturbs ends, after its copies and four steps, with
   * exactly the accepted devices marked in a group with a record.
   */
  lemma UndisturbedSend(w: World, id: nat, devices: seq<Device>)
    requires id !in w.markers && devices != [] && w.recorded
    ensures var events := [StartSend(id)] + Accepting(id, devices);
            && ValidRun(w, events)
            && var sent := Run(w, events);
               && id in sent.markers && sent.markers[id] == Sending(devices)
               && var checked := Next(Next(Next(Next(sent, Step(id)), Step(id)), Step(id)), Step(id));
                  && checked.ledger == Some(Marked(w.ledger.GetOr(map[]), devices)) && id !in checked.markers
                  && forall device :: device in checked.accepted <==> device in w.accepted || device in devices
  {
    var started := Next(w, StartSend(id));
    AcceptedInOrder(started, id, devices);
    RunCons(w, StartSend(id), Accepting(id, devices));
    var sent := Run(started, Accepting(id, devices));
    assert [] + devices == devices;
    EndedSendMarksTheAccepted(sent, id);
    UndisturbedMark(Next(sent, Step(id)), id, devices);
  }

  /** A received key marks its sender in the same way, when the session names a registration. */
  lemma ReceiptIsMarked(w: World, id: nat, deviceId: int, registrationId: int)
    requires id !in w.markers && w.recorded
    ensures Next(w, Receive(id, deviceId, None)) == w
    ensures var read := Next(w, Receive(id, deviceId, Some(registrationId)));
            var checked := Next(Next(Next(read, Step(id)), Step(id)), Step(id));
            && id !in checked.markers
            && checked.ledger == Some(w.ledger.GetOr(map[])[deviceId := registrationId])
            && checked.received == w.received + {Device(deviceId, registrationId)}
  {
    var device := Device(deviceId, registrationId);
    var read := Next(w, Receive(id, deviceId, Some(registrationId)));
    UndisturbedMark(read, id, [device]);
    assert [device][..0] == [];
    assert Marked(w.ledger.GetOr(map[]), [device]) == w.ledger.GetOr(map[])[deviceId := registrationId];
  }

  /** A deletion takes the record first and the ledger value in a second step. */
  lemma DeletionTakesTwoSteps(w: World, id: nat)
    requires id !in w.deletions
    ensures var deleted := Next(w, DeleteRecord(id));
            && !deleted.recorded && deleted.ledger == w.ledger && Enabled(deleted, DeleteLedger(id))
            && Next(deleted, DeleteLedger(id)).ledger == None
            && Next(deleted, DeleteLedger(id)).deletions == w.deletions
  {
    assert (w.deletions + {id}) - {id} == w.deletions;
  }

  // --- Concurrent marks keep each other ---------------------------------------------------------

  lemma {:induction false} MarkedKeepsOthers(ledger: Ledger, devices: seq<Device>, id: int)
    requires id in ledger
    requires forall i :: 0 <= i < |devices| && devices[i].deviceId == id ==> devices[i].registrationId == ledger[id]
    ensures id in Marked(ledger, devices) && Marked(ledger, devices)[id] == ledger[id]
  {
    if devices != [] {
      MarkedKeepsOthers(ledger, devices[..|devices| - 1], id);
    }
  }

  lemma {:induction false} MarkedMarks(ledger: Ledger, devices: seq<Device>, i: nat)
    requires i < |devices|
    requires forall k :: i < k < |devices| ==> devices[k].deviceId != devices[i].deviceId
    ensures devices[i].deviceId in Marked(ledger, devices)
    ensures Marked(ledger, devices)[devices[i].deviceId] == devices[i].registrationId
  {
    if i < |devices| - 1 {
      MarkedMarks(ledger, devices[..|devices| - 1], i);
    }
  }

  ghost predicate Has(w: World, device: Device) {
    w.ledger.Some? && device.deviceId in w.ledger.value && w.ledger.value[device.deviceId] == device.registrationId
  }

  /** No marker replaces the device by another install of it. */
  ghost predicate NoOtherInstall(w: World, device: Device) {
    forall id :: id in w.markers && !w.markers[id].Checking? && !w.markers[id].Deleting? ==>
      forall i :: 0 <= i < |w.markers[id].devices| && w.markers[id].devices[i].deviceId == device.deviceId ==>
        w.markers[id].devices[i] == device
  }

  /** The Relay accepts no copy of another install of the device, and no other install sends the key. */
  predicate SameInstall(event: Event, device: Device) {
    match event
    case RelayAccepts(_, other) => other.deviceId == device.deviceId ==> other == device
    case Receive(_, deviceId, registrationId) =>
      deviceId == device.deviceId && registrationId.Some? ==> registrationId.value == device.registrationId
    case _ => true
  }

  /** The run deletes no ledger value and sees no other install of the device. */
  predicate Leaves(w: World, events: seq<Event>, device: Device)
    requires ValidRun(w, events)
    decreases |events|
  {
    events == []
    || (&& !events[0].DeleteLedger?
        && (events[0].Step? ==> !w.markers[events[0].marker].Deleting?)
        && SameInstall(events[0], device)
        && Leaves(Next(w, events[0]), events[1..], device))
  }

  /** The compare and set loses no mark: one marker never undoes the mark of another. */
  lemma {:induction false} ConcurrentMarksAreKept(w: World, events: seq<Event>, device: Device)
    requires ValidRun(w, events) && Has(w, device) && NoOtherInstall(w, device) && Leaves(w, events, device)
    ensures Has(Run(w, events), device)
    decreases |events|
  {
    if events != [] {
      MarkIsKept(w, events[0], device);
      ConcurrentMarksAreKept(Next(w, events[0]), events[1..], device);
    }
  }

  lemma MarkIsKept(w: World, event: Event, device: Device)
    requires Enabled(w, event) && Has(w, device) && NoOtherInstall(w, device)
    requires !event.DeleteLedger? && (event.Step? ==> !w.markers[event.marker].Deleting?)
    requires SameInstall(event, device)
    ensures Has(Next(w, event), device) && NoOtherInstall(Next(w, event), device)
  {
    if event.Step? && w.markers[event.marker].Swapping? && w.ledger == w.markers[event.marker].expected {
      MarkedKeepsOthers(w.ledger.value, w.markers[event.marker].devices, device.deviceId);
    }
  }
}
