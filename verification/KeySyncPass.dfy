/**
 * A pass of the own-device key sync (client/group-key-sync.ts): it sends the
 * key of each group to the own devices that the ledger does not mark.
 */
module KeySyncPass {
  import opened Options
  import opened Sequences
  import opened KeySyncLedger

  datatype KnownDevice = KnownDevice(deviceId: int, registrationId: Option<int>)

  type Ledgers = map<string, Ledger>

  /** A send of the key of a group, to the given devices or to each own device. */
  datatype Sent = Sent(groupId: string, deviceIds: Option<seq<int>>)

  /** What the client finds: the groups with a record, those that send a key, and the own devices after a list read. */
  datatype Own = Own(recorded: set<string>, inputs: set<string>, listed: seq<KnownDevice>)

  datatype Pass = Pass(ledgers: Ledgers, devices: seq<KnownDevice>, listRead: bool, sends: seq<Sent>, ended: bool)

  predicate IsSynced(ledgers: Ledgers, group: string, device: KnownDevice) {
    && device.registrationId.Some?
    && group in ledgers && device.deviceId in ledgers[group]
    && ledgers[group][device.deviceId] == device.registrationId.value
  }

  function UnmarkedIds(ledgers: Ledgers, group: string, devices: seq<KnownDevice>): seq<int> {
    if devices == [] then []
    else
      var last := devices[|devices| - 1];
      UnmarkedIds(ledgers, group, devices[..|devices| - 1])
      + if IsSynced(ledgers, group, last) then [] else [last.deviceId]
  }

  /** The marks of the accepted devices. The mark of a group with no record is deleted again. */
  function AfterMark(ledgers: Ledgers, own: Own, group: string, accepted: seq<Device>): Ledgers {
    if accepted == [] then ledgers
    else if group !in own.recorded then ledgers - {group}
    else ledgers[group := Marked(if group in ledgers then ledgers[group] else map[], accepted)]
  }

  /**
   * One group of a pass. The devices whose copy was accepted are marked whether
   * the send resolved or failed after them, so the response is the accepted list.
   */
  function GroupStep(p: Pass, own: Own, respond: Sent -> seq<Device>, group: string): Pass {
    if p.ended || group !in own.inputs then p
    else if p.devices == [] then
      if p.listRead then p.(ended := true)
      else
        var sent := Sent(group, None);
        Pass(AfterMark(p.ledgers, own, group, respond(sent)), own.listed, true, p.sends + [sent], false)
    else
      var unmarked := UnmarkedIds(p.ledgers, group, p.devices);
      if unmarked == [] then p
      else
        var sent := Sent(group, Some(unmarked));
        p.(ledgers := AfterMark(p.ledgers, own, group, respond(sent)), sends := p.sends + [sent])
  }

  function PassOver(p: Pass, own: Own, respond: Sent -> seq<Device>, groups: seq<string>): Pass {
    if groups == [] then p
    else GroupStep(PassOver(p, own, respond, groups[..|groups| - 1]), own, respond, groups[|groups| - 1])
  }

  // --- A pass sends to unmarked devices only ------------------------------------------------

  lemma {:induction false} UnmarkedIdsAreThoseNotSynced(ledgers: Ledgers, group: string, devices: seq<KnownDevice>)
    ensures forall id :: id in UnmarkedIds(ledgers, group, devices) <==>
              exists d :: d in devices && d.deviceId == id && !IsSynced(ledgers, group, d)
  {
    if devices != [] {
      var front, last := devices[..|devices| - 1], devices[|devices| - 1];
      assert devices == front + [last];
      UnmarkedIdsAreThoseNotSynced(ledgers, group, front);
    }
  }

  /** The device of the send was not marked for its group. */
  ghost predicate WasUnmarked(ledgers: Ledgers, devices: seq<KnownDevice>, sent: Sent) {
    sent.deviceIds.Some? &&
    forall id :: id in sent.deviceIds.value ==>
      exists d :: d in devices && d.deviceId == id && !IsSynced(ledgers, sent.groupId, d)
  }

  ghost predicate SameLedger(before: Ledgers, after: Ledgers, group: string) {
    (group in after <==> group in before) && (group in before ==> after[group] == before[group])
  }

  /** A pass over unique groups sends each group at most once, and only to devices that were not marked before it. */
  lemma {:induction false} PassSendsToUnmarkedOnly(p: Pass, own: Own, respond: Sent -> seq<Device>, groups: seq<string>)
    requires Unique(groups) && p.devices != [] && p.sends == []
    ensures var after := PassOver(p, own, respond, groups);
            && after.devices == p.devices && after.ended == p.ended
            && (forall s :: s in after.sends ==> s.groupId in groups && WasUnmarked(p.ledgers, p.devices, s))
            && (forall g :: g !in groups ==> SameLedger(p.ledgers, after.ledgers, g))
            && (forall i, j :: 0 <= i < j < |after.sends| ==> after.sends[i].groupId != after.sends[j].groupId)
  {
    if groups != [] {
      var front, last := groups[..|groups| - 1], groups[|groups| - 1];
      PassSendsToUnmarkedOnly(p, own, respond, front);
      assert last !in front;
      var before := PassOver(p, own, respond, front);
      UnmarkedIdsAreThoseNotSynced(before.ledgers, last, p.devices);
      assert forall d :: IsSynced(before.ledgers, last, d) <==> IsSynced(p.ledgers, last, d);
      assert groups == front + [last];
    }
  }

  /** The ledger before the pass marks the device with the registration of its session. */
  predicate MarkedBefore(ledgers: Ledgers, group: string, device: KnownDevice) {
    && device.registrationId.Some?
    && group in ledgers && device.deviceId in ledgers[group]
    && ledgers[group][device.deviceId] == device.registrationId.value
  }

  lemma {:induction false} UnmarkedIdsInOrder(ledgers: Ledgers, group: string, devices: seq<KnownDevice>,
                                             kept: seq<KnownDevice>, keep: KnownDevice -> bool)
    requires forall d :: keep(d) == !MarkedBefore(ledgers, group, d)
    requires kept == Filter(devices, keep)
    ensures UnmarkedIds(ledgers, group, devices)
            == seq(|kept|, i requires 0 <= i < |kept| => kept[i].deviceId)
  {
    if devices != [] {
      var front := devices[..|devices| - 1];
      UnmarkedIdsInOrder(ledgers, group, front, Filter(front, keep), keep);
    }
  }

  /**
   * A pass that knows an own device sends the key of a group if and only if the
   * group sends one and some device is unmarked, and then to exactly the unmarked
   * devices, in their order.
   */
  lemma {:induction false} PassSendsIff(
      p: Pass, own: Own, respond: Sent -> seq<Device>, groups: seq<string>, group: string, ids: Option<seq<int>>)
    requires Unique(groups) && p.devices != [] && p.sends == [] && !p.ended
    ensures Sent(group, ids) in PassOver(p, own, respond, groups).sends <==>
            && group in groups && group in own.inputs
            && ids == Some(UnmarkedIds(p.ledgers, group, p.devices)) && ids.value != []
  {
    if groups != [] {
      var front, last := groups[..|groups| - 1], groups[|groups| - 1];
      assert groups == front + [last] && last !in front;
      PassSendsIff(p, own, respond, front, group, ids);
      PassSendsToUnmarkedOnly(p, own, respond, front);
      var before := PassOver(p, own, respond, front);
      SameMarksSameIds(p.ledgers, before.ledgers, last, p.devices);
    }
  }

  lemma {:induction false} SameMarksSameIds(one: Ledgers, other: Ledgers, group: string, devices: seq<KnownDevice>)
    requires SameLedger(one, other, group)
    ensures UnmarkedIds(one, group, devices) == UnmarkedIds(other, group, devices)
  {
    if devices != [] {
      SameMarksSameIds(one, other, group, devices[..|devices| - 1]);
    }
  }

  // --- What a mark and a pass write ------------------------------------------------------------

  /** The last registration that a list gives for a device ID. */
  function LastRegistration(devices: seq<Device>, id: int): Option<int> {
    if devices == [] then None
    else if devices[|devices| - 1].deviceId == id then Some(devices[|devices| - 1].registrationId)
    else LastRegistration(devices[..|devices| - 1], id)
  }

  function MarkOf(ledgers: Ledgers, group: string, id: int): Option<int> {
    if group in ledgers && id in ledgers[group] then Some(ledgers[group][id]) else None
  }

  lemma {:induction false} MarkedIff(ledger: Ledger, devices: seq<Device>, id: int)
    ensures var after, last := Marked(ledger, devices), LastRegistration(devices, id);
            && (id in after <==> last.Some? || id in ledger)
            && (id in after ==> after[id] == if last.Some? then last.value else ledger[id])
  {
    if devices != [] {
      MarkedIff(ledger, devices[..|devices| - 1], id);
    }
  }

  /**
   * A mark of a group with a record gives each device its last registration in
   * the list and keeps every other mark. A group with no record keeps no mark.
   */
  lemma MarkWrites(ledgers: Ledgers, own: Own, group: string, accepted: seq<Device>, other: string, id: int)
    ensures MarkOf(AfterMark(ledgers, own, group, accepted), other, id)
            == if other != group || accepted == [] then MarkOf(ledgers, other, id)
               else if group !in own.recorded then None
               else if LastRegistration(accepted, id).Some? then LastRegistration(accepted, id)
               else MarkOf(ledgers, group, id)
  {
    MarkedIff(if group in ledgers then ledgers[group] else map[], accepted, id);
  }

  /** A pass marks, for each group that it sends, exactly what the Relay accepted, and for no other group. */
  lemma {:induction false} PassMarks(
      p: Pass, own: Own, respond: Sent -> seq<Device>, groups: seq<string>, group: string, id: int)
    requires Unique(groups) && p.devices != [] && p.sends == [] && !p.ended
    ensures var after := PassOver(p, own, respond, groups).ledgers;
            var sent := Sent(group, Some(UnmarkedIds(p.ledgers, group, p.devices)));
            MarkOf(after, group, id)
            == if sent in PassOver(p, own, respond, groups).sends
               then MarkOf(AfterMark(p.ledgers, own, group, respond(sent)), group, id)
               else MarkOf(p.ledgers, group, id)
  {
    if groups != [] {
      var front, last := groups[..|groups| - 1], groups[|groups| - 1];
      var sent := Sent(group, Some(UnmarkedIds(p.ledgers, group, p.devices)));
      assert groups == front + [last] && last !in front;
      PassMarks(p, own, respond, front, group, id);
      PassSendsIff(p, own, respond, front, group, sent.deviceIds);
      PassSendsIff(p, own, respond, groups, group, sent.deviceIds);
      PassSendsToUnmarkedOnly(p, own, respond, front);
      var before := PassOver(p, own, respond, front);
      SameMarksSameIds(p.ledgers, before.ledgers, last, p.devices);
      if last == group {
        MarkWrites(before.ledgers, own, group, respond(sent), group, id);
        MarkWrites(p.ledgers, own, group, respond(sent), group, id);
      } else {
        var other := Sent(last, Some(UnmarkedIds(before.ledgers, last, p.devices)));
        MarkWrites(before.ledgers, own, last, respond(other), group, id);
      }
    }
  }

  // --- A start after a complete run sends none ------------------------------------------------

  ghost predicate Registered(devices: seq<KnownDevice>) {
    && (forall d :: d in devices ==> d.registrationId.Some?)
    && (forall c, d :: c in devices && d in devices && c.deviceId == d.deviceId ==> c == d)
  }

  ghost predicate AcceptsEach(devices: seq<KnownDevice>, ids: seq<int>, accepted: seq<Device>) {
    && (forall d :: d in devices && d.deviceId in ids && d.registrationId.Some? ==>
          Device(d.deviceId, d.registrationId.value) in accepted)
    && (forall a :: a in accepted ==> exists d :: d in devices && d.registrationId == Some(a.registrationId)
                                              && d.deviceId == a.deviceId)
  }

  /** The Relay accepts each copy of every send, for the registration that the client knows. */
  ghost predicate Complete(devices: seq<KnownDevice>, respond: Sent -> seq<Device>) {
    forall group, ids :: AcceptsEach(devices, ids, respond(Sent(group, Some(ids))))
  }

  ghost predicate AllSynced(ledgers: Ledgers, devices: seq<KnownDevice>, group: string) {
    forall d :: d in devices ==> IsSynced(ledgers, group, d)
  }

  /** A device that the list accepts, or that was marked and gets no other registration, is marked after it. */
  lemma {:induction false} MarkedAfter(ledger: Ledger, accepted: seq<Device>, device: Device)
    requires device in accepted || (device.deviceId in ledger && ledger[device.deviceId] == device.registrationId)
    requires forall a :: a in accepted && a.deviceId == device.deviceId ==> a == device
    ensures device.deviceId in Marked(ledger, accepted)
    ensures Marked(ledger, accepted)[device.deviceId] == device.registrationId
  {
    if accepted != [] {
      var front, last := accepted[..|accepted| - 1], accepted[|accepted| - 1];
      assert accepted == front + [last];
      if last.deviceId == device.deviceId {
        assert last in accepted;
      } else {
        assert forall a :: a in front ==> a in accepted;
        MarkedAfter(ledger, front, device);
      }
    }
  }

  lemma GroupIsSynced(p: Pass, own: Own, respond: Sent -> seq<Device>, group: string)
    requires p.devices != [] && !p.ended && Registered(p.devices) && Complete(p.devices, respond)
    requires group in own.inputs && group in own.recorded
    ensures AllSynced(GroupStep(p, own, respond, group).ledgers, p.devices, group)
  {
    var unmarked := UnmarkedIds(p.ledgers, group, p.devices);
    var accepted := respond(Sent(group, Some(unmarked)));
    var after := GroupStep(p, own, respond, group);
    UnmarkedIdsAreThoseNotSynced(p.ledgers, group, p.devices);
    forall d | d in p.devices ensures IsSynced(after.ledgers, group, d) {
      if unmarked == [] {
        assert d.deviceId !in unmarked;
      } else {
        assert AcceptsEach(p.devices, unmarked, accepted);
        AcceptedIsMarked(p.ledgers, own, p.devices, group, accepted, d);
      }
    }
  }

  lemma AcceptedIsMarked(
      ledgers: Ledgers, own: Own, devices: seq<KnownDevice>, group: string, accepted: seq<Device>, d: KnownDevice)
    requires Registered(devices) && d in devices && group in own.recorded
    requires AcceptsEach(devices, UnmarkedIds(ledgers, group, devices), accepted)
    ensures accepted != [] || IsSynced(ledgers, group, d)
    ensures IsSynced(AfterMark(ledgers, own, group, accepted), group, d)
  {
    UnmarkedIdsAreThoseNotSynced(ledgers, group, devices);
    var device := Device(d.deviceId, d.registrationId.value);
    assert !IsSynced(ledgers, group, d) ==> d.deviceId in UnmarkedIds(ledgers, group, devices);
    if accepted != [] {
      MarkedAfter(if group in ledgers then ledgers[group] else map[], accepted, device);
    }
  }

  lemma OtherGroupsStay(p: Pass, own: Own, respond: Sent -> seq<Device>, group: string, other: string)
    requires p.devices != [] && other != group && AllSynced(p.ledgers, p.devices, other)
    ensures AllSynced(GroupStep(p, own, respond, group).ledgers, p.devices, other)
  {
    assert forall d :: IsSynced(p.ledgers, other, d) ==>
        IsSynced(GroupStep(p, own, respond, group).ledgers, other, d);
  }

  lemma {:induction false} CompletePassSyncsAll(p: Pass, own: Own, respond: Sent -> seq<Device>, groups: seq<string>)
    requires p.devices != [] && !p.ended && Registered(p.devices) && Complete(p.devices, respond)
    requires forall g :: g in groups && g in own.inputs ==> g in own.recorded
    ensures var after := PassOver(p, own, respond, groups);
            && after.devices == p.devices && !after.ended
            && forall g :: g in groups && g in own.inputs ==> AllSynced(after.ledgers, p.devices, g)
  {
    if groups != [] {
      var front, last := groups[..|groups| - 1], groups[|groups| - 1];
      assert groups == front + [last];
      CompletePassSyncsAll(p, own, respond, front);
      var before := PassOver(p, own, respond, front);
      forall g | g in groups && g in own.inputs
        ensures AllSynced(PassOver(p, own, respond, groups).ledgers, p.devices, g)
      {
        if g == last {
          GroupIsSynced(before, own, respond, last);
        } else {
          OtherGroupsStay(before, own, respond, last, g);
        }
      }
    }
  }

  lemma {:induction false} NoneIsUnmarked(ledgers: Ledgers, group: string, devices: seq<KnownDevice>)
    requires AllSynced(ledgers, devices, group)
    ensures UnmarkedIds(ledgers, group, devices) == []
  {
    if devices != [] {
      var front, last := devices[..|devices| - 1], devices[|devices| - 1];
      assert last in devices && forall d :: d in front ==> d in devices;
      NoneIsUnmarked(ledgers, group, front);
    }
  }

  lemma {:induction false} SyncedPassSendsNone(p: Pass, own: Own, respond: Sent -> seq<Device>, groups: seq<string>)
    requires p.devices != []
    requires forall g :: g in groups && g in own.inputs ==> AllSynced(p.ledgers, p.devices, g)
    ensures PassOver(p, own, respond, groups) == p
  {
    if groups != [] {
      var front, last := groups[..|groups| - 1], groups[|groups| - 1];
      assert groups == front + [last];
      SyncedPassSendsNone(p, own, respond, front);
      if last in own.inputs {
        NoneIsUnmarked(p.ledgers, last, p.devices);
      }
    }
  }

  /** A start after a complete run sends none. */
  lemma StartAfterACompleteRunSendsNone(
      ledgers: Ledgers, devices: seq<KnownDevice>, own: Own,
      respond: Sent -> seq<Device>, later: Sent -> seq<Device>, groups: seq<string>)
    requires devices != [] && Registered(devices) && Complete(devices, respond)
    requires forall g :: g in groups && g in own.inputs ==> g in own.recorded
    ensures var first := PassOver(Pass(ledgers, devices, false, [], false), own, respond, groups);
            PassOver(Pass(first.ledgers, devices, false, [], false), own, later, groups).sends == []
  {
    CompletePassSyncsAll(Pass(ledgers, devices, false, [], false), own, respond, groups);
    var first := PassOver(Pass(ledgers, devices, false, [], false), own, respond, groups);
    SyncedPassSendsNone(Pass(first.ledgers, devices, false, [], false), own, later, groups);
  }

  // --- A pass that knows no own device reads the list first ---------------------------------------

  /** The first group that sends a key, or the number of groups when none does. */
  function FirstInput(own: Own, groups: seq<string>): (i: nat)
    ensures i <= |groups| && (i < |groups| ==> groups[i] in own.inputs)
    ensures forall k :: 0 <= k < i ==> groups[k] !in own.inputs
  {
    if groups == [] then 0
    else
      var i := FirstInput(own, groups[..|groups| - 1]);
      if i < |groups| - 1 || groups[|groups| - 1] in own.inputs then i else |groups|
  }

  lemma {:induction false} PassOverConcat(
      p: Pass, own: Own, respond: Sent -> seq<Device>, first: seq<string>, second: seq<string>)
    ensures PassOver(p, own, respond, first + second)
            == PassOver(PassOver(p, own, respond, first), own, respond, second)
  {
    if second == [] {
      assert first + second == first;
    } else {
      var front, last := second[..|second| - 1], second[|second| - 1];
      PassOverConcat(p, own, respond, first, front);
      assert (first + second)[..|first + second| - 1] == first + front;
    }
  }

  lemma {:induction false} PassWithoutInputs(p: Pass, own: Own, respond: Sent -> seq<Device>, groups: seq<string>)
    requires forall k :: 0 <= k < |groups| ==> groups[k] !in own.inputs
    ensures PassOver(p, own, respond, groups) == p
  {
    if groups != [] {
      PassWithoutInputs(p, own, respond, groups[..|groups| - 1]);
    }
  }

  /** A list that shows no own device ends the pass with no further send. */
  lemma {:induction false} EmptyListSendsNoMore(p: Pass, own: Own, respond: Sent -> seq<Device>, groups: seq<string>)
    requires p.devices == [] && p.listRead
    ensures var after := PassOver(p, own, respond, groups);
            after.devices == [] && after.listRead && after.sends == p.sends && after.ledgers == p.ledgers
  {
    if groups != [] {
      EmptyListSendsNoMore(p, own, respond, groups[..|groups| - 1]);
    }
  }

  /** The sends of a pass are appended to those before it. */
  lemma {:induction false} SendsAreAppended(p: Pass, own: Own, respond: Sent -> seq<Device>, groups: seq<string>)
    ensures var alone := PassOver(p.(sends := []), own, respond, groups);
            PassOver(p, own, respond, groups) == alone.(sends := p.sends + alone.sends)
  {
    if groups == [] {
      assert p.sends + [] == p.sends;
    } else {
      SendsAreAppended(p, own, respond, groups[..|groups| - 1]);
    }
  }

  /** The pass after the first group that sends a key, to each own device. */
  function ListRead(ledgers: Ledgers, own: Own, respond: Sent -> seq<Device>, group: string): Pass {
    var sent := Sent(group, None);
    Pass(AfterMark(ledgers, own, group, respond(sent)), own.listed, true, [sent], false)
  }

  lemma ListReadingPass(ledgers: Ledgers, own: Own, respond: Sent -> seq<Device>, groups: seq<string>)
    ensures var i := FirstInput(own, groups);
            PassOver(Pass(ledgers, [], false, [], false), own, respond, groups)
            == if i == |groups| then Pass(ledgers, [], false, [], false)
               else PassOver(ListRead(ledgers, own, respond, groups[i]), own, respond, groups[i + 1..])
  {
    var p, i := Pass(ledgers, [], false, [], false), FirstInput(own, groups);
    PassWithoutInputs(p, own, respond, groups[..i]);
    if i == |groups| {
      assert groups[..i] == groups;
    } else {
      assert groups == (groups[..i] + [groups[i]]) + groups[i + 1..];
      PassOverConcat(p, own, respond, groups[..i] + [groups[i]], groups[i + 1..]);
      PassOverConcat(p, own, respond, groups[..i], [groups[i]]);
      assert [groups[i]][..0] == [] && [] + [Sent(groups[i], None)] == [Sent(groups[i], None)];
      assert PassOver(p, own, respond, [groups[i]]) == ListRead(ledgers, own, respond, groups[i]);
    }
  }

  /** The sends after the list was read: each group at most once, and only to devices that were not marked. */
  ghost predicate LaterSends(sends: seq<Sent>, ledgers: Ledgers, listed: seq<KnownDevice>, groups: seq<string>) {
    && (forall s :: s in sends ==> s.groupId in groups && WasUnmarked(ledgers, listed, s))
    && (forall j, k :: 0 <= j < k < |sends| ==> sends[j].groupId != sends[k].groupId)
  }

  lemma SendsAfterTheList(
      ledgers: Ledgers, own: Own, respond: Sent -> seq<Device>, group: string, groups: seq<string>)
    requires Unique(groups) && group !in groups && own.listed != []
    ensures var alone := ListRead(ledgers, own, respond, group).(sends := []);
            LaterSends(PassOver(alone, own, respond, groups).sends, ledgers, own.listed, groups)
  {
    var alone := ListRead(ledgers, own, respond, group).(sends := []);
    PassSendsToUnmarkedOnly(alone, own, respond, groups);
    forall s | s in PassOver(alone, own, respond, groups).sends ensures WasUnmarked(ledgers, own.listed, s) {
      assert SameLedger(ledgers, alone.ledgers, s.groupId);
      assert forall d :: IsSynced(alone.ledgers, s.groupId, d) <==> IsSynced(ledgers, s.groupId, d);
    }
  }

  /**
   * A pass that knows no own device sends the first group to each own device, and
   * then each later group at most once, only to devices that were not marked
   * before the pass. When the list shows no own device, it sends nothing more.
   */
  lemma ListReadingPassSends(ledgers: Ledgers, own: Own, respond: Sent -> seq<Device>, groups: seq<string>)
    requires Unique(groups)
    ensures var i := FirstInput(own, groups);
            var sends := PassOver(Pass(ledgers, [], false, [], false), own, respond, groups).sends;
            if i == |groups| then sends == []
            else
              && sends != [] && sends[0] == Sent(groups[i], None)
              && (own.listed == [] ==> |sends| == 1)
              && LaterSends(sends[1..], ledgers, own.listed, groups[i + 1..])
              && groups[i] !in groups[i + 1..]
  {
    var i := FirstInput(own, groups);
    ListReadingPass(ledgers, own, respond, groups);
    if i < |groups| {
      var read, rest := ListRead(ledgers, own, respond, groups[i]), groups[i + 1..];
      assert groups[i] !in rest;
      SendsAreAppended(read, own, respond, rest);
      if own.listed == [] {
        EmptyListSendsNoMore(read, own, respond, rest);
      } else {
        SendsAfterTheList(ledgers, own, respond, groups[i], rest);
        var alone := PassOver(read.(sends := []), own, respond, rest).sends;
        assert ([Sent(groups[i], None)] + alone)[1..] == alone;
      }
    }
  }

  /** The Relay also accepts the copy of each listed device when a send goes to each own device. */
  ghost predicate CompleteList(devices: seq<KnownDevice>, respond: Sent -> seq<Device>) {
    forall group :: AcceptsEach(devices, UnmarkedIds(map[], group, devices), respond(Sent(group, None)))
  }

  lemma {:induction false} AllIds(group: string, devices: seq<KnownDevice>)
    ensures forall d :: d in devices ==> d.deviceId in UnmarkedIds(map[], group, devices)
  {
    UnmarkedIdsAreThoseNotSynced(map[], group, devices);
  }

  lemma ListReadSyncsTheFirst(ledgers: Ledgers, own: Own, respond: Sent -> seq<Device>, group: string)
    requires Registered(own.listed) && CompleteList(own.listed, respond) && group in own.recorded
    ensures AllSynced(ListRead(ledgers, own, respond, group).ledgers, own.listed, group)
  {
    var accepted := respond(Sent(group, None));
    AllIds(group, own.listed);
    assert AcceptsEach(own.listed, UnmarkedIds(map[], group, own.listed), accepted);
    forall d | d in own.listed ensures IsSynced(ListRead(ledgers, own, respond, group).ledgers, group, d) {
      MarkedAfter(if group in ledgers then ledgers[group] else map[], accepted,
                  Device(d.deviceId, d.registrationId.value));
    }
  }

  lemma {:induction false} OthersStaySynced(
      p: Pass, own: Own, respond: Sent -> seq<Device>, groups: seq<string>, other: string)
    requires p.devices != [] && other !in groups && AllSynced(p.ledgers, p.devices, other)
    ensures var after := PassOver(p, own, respond, groups);
            after.devices == p.devices && AllSynced(after.ledgers, p.devices, other)
  {
    if groups != [] {
      var front, last := groups[..|groups| - 1], groups[|groups| - 1];
      assert groups == front + [last];
      OthersStaySynced(p, own, respond, front, other);
      OtherGroupsStay(PassOver(p, own, respond, front), own, respond, last, other);
    }
  }

  /** When every copy is accepted, a start that had to read the list leaves each group synced to each listed device. */
  lemma CompleteListReadingPassSyncsAll(ledgers: Ledgers, own: Own, respond: Sent -> seq<Device>, groups: seq<string>)
    requires Unique(groups) && Registered(own.listed)
    requires Complete(own.listed, respond) && CompleteList(own.listed, respond)
    requires forall g :: g in groups && g in own.inputs ==> g in own.recorded
    ensures var after := PassOver(Pass(ledgers, [], false, [], false), own, respond, groups);
            forall g :: g in groups && g in own.inputs ==> AllSynced(after.ledgers, own.listed, g)
  {
    var i := FirstInput(own, groups);
    ListReadingPass(ledgers, own, respond, groups);
    if i < |groups| && own.listed != [] {
      var read, rest := ListRead(ledgers, own, respond, groups[i]), groups[i + 1..];
      var after := PassOver(read, own, respond, rest);
      ListReadSyncsTheFirst(ledgers, own, respond, groups[i]);
      CompletePassSyncsAll(read, own, respond, rest);
      OthersStaySynced(read, own, respond, rest, groups[i]);
      forall g | g in groups && g in own.inputs ensures AllSynced(after.ledgers, own.listed, g) {
        var k :| 0 <= k < |groups| && groups[k] == g;
        assert k > i ==> rest[k - i - 1] == g;
      }
    }
  }

  /** A later start, which knows the listed devices, then sends none. */
  lemma StartAfterACompleteListReadingRunSendsNone(
      ledgers: Ledgers, own: Own, respond: Sent -> seq<Device>, later: Sent -> seq<Device>, groups: seq<string>)
    requires Unique(groups) && own.listed != [] && Registered(own.listed)
    requires Complete(own.listed, respond) && CompleteList(own.listed, respond)
    requires forall g :: g in groups && g in own.inputs ==> g in own.recorded
    ensures var first := PassOver(Pass(ledgers, [], false, [], false), own, respond, groups);
            PassOver(Pass(first.ledgers, own.listed, false, [], false), own, later, groups).sends == []
  {
    CompleteListReadingPassSyncsAll(ledgers, own, respond, groups);
    var first := PassOver(Pass(ledgers, [], false, [], false), own, respond, groups);
    SyncedPassSendsNone(Pass(first.ledgers, own.listed, false, [], false), own, later, groups);
  }

  // --- The pass as the client runs it --------------------------------------------------------------

  class GroupKeySync {
    var ledgers: Ledgers

    constructor (ledgers: Ledgers)
      ensures this.ledgers == ledgers
    {
      this.ledgers := ledgers;
    }

    method Mark(own: Own, group: string, devices: seq<Device>)
      modifies this
      ensures ledgers == AfterMark(old(ledgers), own, group, devices)
    {
      if devices == [] {
        return;
      }
      var marks := if group in ledgers then ledgers[group] else map[];
      ghost var before := marks;
      for i := 0 to |devices|
        invariant marks == Marked(before, devices[..i])
      {
        assert devices[..i + 1][..i] == devices[..i];
        marks := marks[devices[i].deviceId := devices[i].registrationId];
      }
      assert devices[..|devices|] == devices;
      ledgers := ledgers[group := marks];
      if group !in own.recorded {
        ledgers := ledgers - {group};
        assert ledgers == old(ledgers) - {group};
      }
    }

    method CollectUnmarked(group: string, devices: seq<KnownDevice>) returns (unmarked: seq<int>)
      ensures unmarked == UnmarkedIds(ledgers, group, devices)
    {
      unmarked := [];
      for i := 0 to |devices|
        invariant unmarked == UnmarkedIds(ledgers, group, devices[..i])
      {
        assert devices[..i + 1][..i] == devices[..i];
        if !IsSynced(ledgers, group, devices[i]) {
          unmarked := unmarked + [devices[i].deviceId];
        }
      }
      assert devices[..|devices|] == devices;
    }

    /** A pass over the groups, which a stop ends after some of them. */
    method SendUnmarked(
        own: Own, respond: Sent -> seq<Device>, known: seq<KnownDevice>, only: bool, groups: seq<string>,
        stopAfter: nat)
      returns (sends: seq<Sent>)
      modifies this
      ensures var to := if stopAfter < |groups| then stopAfter else |groups|;
              var after := PassOver(Pass(old(ledgers), known, only, [], false), own, respond, groups[..to]);
              ledgers == after.ledgers && sends == after.sends
    {
      var devices, listRead, i := known, only, 0;
      ghost var start := Pass(ledgers, known, only, [], false);
      sends := [];
      while i < |groups| && i < stopAfter
        invariant 0 <= i <= |groups| && i <= stopAfter
        invariant PassOver(start, own, respond, groups[..i]) == Pass(ledgers, devices, listRead, sends, false)
      {
        var group := groups[i];
        PassOverOneMore(start, own, respond, groups, i);
        if group in own.inputs {
          if devices == [] {
            if listRead {
              var to := if stopAfter < |groups| then stopAfter else |groups|;
              EndedPassStays(start, own, respond, groups, i + 1, to);
              return;
            }
            listRead := true;
            sends := sends + [Sent(group, None)];
            Mark(own, group, respond(Sent(group, None)));
            devices := own.listed;
          } else {
            var unmarked := CollectUnmarked(group, devices);
            if unmarked != [] {
              sends := sends + [Sent(group, Some(unmarked))];
              Mark(own, group, respond(Sent(group, Some(unmarked))));
            }
          }
        }
        i := i + 1;
      }
    }
  }

  lemma PassOverOneMore(p: Pass, own: Own, respond: Sent -> seq<Device>, groups: seq<string>, i: nat)
    requires i < |groups|
    ensures PassOver(p, own, respond, groups[..i + 1])
            == GroupStep(PassOver(p, own, respond, groups[..i]), own, respond, groups[i])
  {
    assert groups[..i + 1][..i] == groups[..i];
  }

  lemma {:induction false} EndedPassStays(
      p: Pass, own: Own, respond: Sent -> seq<Device>, groups: seq<string>, i: nat, to: nat)
    requires i <= to <= |groups| && PassOver(p, own, respond, groups[..i]).ended
    ensures PassOver(p, own, respond, groups[..to]) == PassOver(p, own, respond, groups[..i])
  {
    if i < to {
      EndedPassStays(p, own, respond, groups, i, to - 1);
      PassOverOneMore(p, own, respond, groups, to - 1);
    }
  }
}
