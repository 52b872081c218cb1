/**
 * The delivery status of outgoing messages (client/delivery-status.ts): each
 * source that reported a delivery, how many of them are announced, and the
 * events that are left to announce.
 */
module DeliveryStatus {
  import opened Options
  import opened Sequences
  import opened Associations

  datatype Source = Relay | E2ee

  datatype Address = Address(userId: string, deviceId: int)

  datatype Delivery = Delivery(sources: seq<Source>, deliveredAt: int, announced: nat)

  type Devices = seq<Entry<Address, Delivery>>

  /** The part of an outbox intent that a receipt reads. */
  datatype Intent = Intent(
    createdAt: int,
    clientTimestamp: int,
    isGroup: bool,
    recipientId: string,
    members: seq<string>,
    hasResult: bool)

  datatype Status = Status(createdAt: int, devices: Devices)

  /** The stored intents that count, and the stored statuses. */
  datatype Store = Store(intents: map<string, Intent>, statuses: map<string, Status>)

  /**
   * An event for the hook. `createdAt` is the creation time of the intent that the
   * event was built for. The hook does not get it, and the mark does not read it.
   */
  datatype DeliveredEvent = DeliveredEvent(
    clientMessageId: string,
    createdAt: int,
    recipient: Address,
    source: Source,
    sources: seq<Source>,
    decryptionConfirmed: bool,
    deliveredAt: int,
    clientTimestamp: int,
    groupId: Option<string>)

  predicate Addresses(intent: Intent, userId: string) {
    if intent.isGroup then userId in intent.members else intent.recipientId == userId
  }

  // --- Reading and writing one status --------------------------------------------------

  /** The status that an update starts from: a status of an earlier intent does not count. */
  function Current(store: Store, message: string): Status
    requires message in store.intents
  {
    var createdAt := store.intents[message].createdAt;
    if message in store.statuses && store.statuses[message].createdAt == createdAt then store.statuses[message]
    else Status(createdAt, [])
  }

  /** A changed status is written, and an unchanged one is not. */
  function Write(store: Store, message: string, devices: Devices): Store
    requires message in store.intents
  {
    var status := Current(store, message);
    if devices == status.devices then store
    else store.(statuses := store.statuses[message := status.(devices := devices)])
  }

  lemma WriteSetsOneStatus(store: Store, message: string, devices: Devices, other: string)
    requires message in store.intents && other in store.intents
    ensures Current(Write(store, message, devices), other).devices
            == if other == message then devices else Current(store, other).devices
    ensures Write(store, message, devices).intents == store.intents
    ensures Current(store, message).devices == devices ==> Write(store, message, devices) == store
  {
  }

  // --- The steps ------------------------------------------------------------------------

  function DeliveryOf(devices: Devices, recipient: Address, at: int): Delivery {
    Find(devices, recipient).GetOr(Delivery([], at, 0))
  }

  function AddSource(delivery: Delivery, source: Source): Delivery {
    if source in delivery.sources then delivery else delivery.(sources := delivery.sources + [source])
  }

  /** A receipt of one source from one device. */
  function Arrive(devices: Devices, source: Source, recipient: Address, at: int): Devices {
    Put(devices, recipient, AddSource(DeliveryOf(devices, recipient, at), source))
  }

  function EventAt(message: string, intent: Intent, entry: Entry<Address, Delivery>, index: nat): DeliveredEvent
    requires index < |entry.value.sources|
  {
    var sources := entry.value.sources[..index + 1];
    DeliveredEvent(message, intent.createdAt, entry.key, sources[index], sources, E2ee in sources,
                   entry.value.deliveredAt, intent.clientTimestamp,
                   if intent.isGroup then Some(intent.recipientId) else None)
  }

  /** The events of the sources of one device from its announced count on. */
  function EventsOf(message: string, intent: Intent, entry: Entry<Address, Delivery>, to: nat):
      (events: seq<DeliveredEvent>)
    requires to <= |entry.value.sources|
    ensures |events| == if to <= entry.value.announced then 0 else to - entry.value.announced
    ensures forall k :: 0 <= k < |events| ==> events[k] == EventAt(message, intent, entry, entry.value.announced + k)
  {
    if to <= entry.value.announced then []
    else EventsOf(message, intent, entry, to - 1) + [EventAt(message, intent, entry, to - 1)]
  }

  ghost predicate DeliveryOk(delivery: Delivery) {
    Unique(delivery.sources) && delivery.announced <= |delivery.sources|
  }

  ghost predicate DevicesOk(devices: Devices) {
    && UniqueKeys(devices)
    && forall i :: 0 <= i < |devices| ==> DeliveryOk(devices[i].value)
  }

  /** The events of the sources that are not announced, device by device. */
  function Unannounced(message: string, intent: Intent, devices: Devices): seq<DeliveredEvent>
  {
    if devices == [] then []
    else
      var last := devices[|devices| - 1];
      Unannounced(message, intent, devices[..|devices| - 1]) + EventsOf(message, intent, last, |last.value.sources|)
  }

  /** Marking an event moves the announced count of its device forward, and never back. */
  function MarkDelivery(delivery: Delivery, count: nat): Delivery {
    var announced := if count < |delivery.sources| then count else |delivery.sources|;
    if announced > delivery.announced then delivery.(announced := announced) else delivery
  }

  function Mark(devices: Devices, event: DeliveredEvent): Devices {
    var delivery := Find(devices, event.recipient);
    if delivery.None? then devices
    else Put(devices, event.recipient, MarkDelivery(delivery.value, |event.sources|))
  }

  ghost predicate StoreOk(store: Store) {
    forall message :: message in store.intents ==> DevicesOk(Current(store, message).devices)
  }

  /** A list of events is built only after the send has a result, and while no send of the message is counted. */
  predicate Announceable(store: Store, sending: map<string, nat>, message: string) {
    message in store.intents && store.intents[message].hasResult && message !in sending
  }

  function AfterReceipt(store: Store, message: string, source: Source, recipient: Address, at: int): Store {
    if message in store.intents && Addresses(store.intents[message], recipient.userId)
    then Write(store, message, Arrive(Current(store, message).devices, source, recipient, at)) else store
  }

  function ToAnnounce(store: Store, sending: map<string, nat>, message: string): seq<DeliveredEvent>
  {
    if Announceable(store, sending, message)
    then Unannounced(message, store.intents[message], Current(store, message).devices) else []
  }

  /** The events of a receipt, in the store that it left. A receipt that names no recipient of the message has none. */
  function ReceiptEvents(store: Store, sending: map<string, nat>, message: string, recipient: Address):
      seq<DeliveredEvent>
  {
    if message in store.intents && Addresses(store.intents[message], recipient.userId)
    then ToAnnounce(store, sending, message) else []
  }

  function AfterMark(store: Store, event: DeliveredEvent): Store {
    if event.clientMessageId in store.intents
    then Write(store, event.clientMessageId, Mark(Current(store, event.clientMessageId).devices, event)) else store
  }

  // --- A status only grows --------------------------------------------------------------

  /** Sources are only appended, and the announced count never goes back. */
  ghost predicate DeliveryGrows(before: Delivery, after: Delivery) {
    && before.sources <= after.sources
    && before.announced <= after.announced
    && before.deliveredAt == after.deliveredAt
  }

  ghost predicate DevicesGrow(before: Devices, after: Devices) {
    forall recipient :: Find(before, recipient).Some? ==>
      Find(after, recipient).Some? && DeliveryGrows(Find(before, recipient).value, Find(after, recipient).value)
  }

  lemma DevicesGrowTransitively(first: Devices, second: Devices, third: Devices)
    requires DevicesGrow(first, second) && DevicesGrow(second, third)
    ensures DevicesGrow(first, third)
  {
    forall recipient | Find(first, recipient).Some?
      ensures Find(third, recipient).Some?
      ensures DeliveryGrows(Find(first, recipient).value, Find(third, recipient).value)
    {
      var a, b, c := Find(first, recipient).value, Find(second, recipient).value, Find(third, recipient).value;
      assert a.sources == b.sources[..|a.sources|] && b.sources == c.sources[..|b.sources|];
    }
  }

  lemma PutOk(devices: Devices, recipient: Address, delivery: Delivery)
    requires DevicesOk(devices) && DeliveryOk(delivery)
    ensures DevicesOk(Put(devices, recipient, delivery))
  {
    PutKeys(devices, recipient, delivery);
  }

  lemma FoundIsOk(devices: Devices, recipient: Address)
    requires DevicesOk(devices) && Find(devices, recipient).Some?
    ensures DeliveryOk(Find(devices, recipient).value)
  {
  }

  /** A receipt adds its source at most once, and changes no other device. */
  lemma ArriveGrows(devices: Devices, source: Source, recipient: Address, at: int)
    requires DevicesOk(devices)
    ensures var after := Arrive(devices, source, recipient, at);
            && DevicesOk(after) && DevicesGrow(devices, after)
            && Find(after, recipient).Some? && source in Find(after, recipient).value.sources
  {
    var before := DeliveryOf(devices, recipient, at);
    var delivery := AddSource(before, source);
    assert DeliveryOk(before);
    PutOk(devices, recipient, delivery);
    forall other ensures Find(Arrive(devices, source, recipient, at), other)
                         == if other == recipient then Some(delivery) else Find(devices, other) {
      FindPut(devices, recipient, delivery, other);
    }
  }

  lemma MarkGrows(devices: Devices, event: DeliveredEvent)
    requires DevicesOk(devices)
    ensures DevicesOk(Mark(devices, event)) && DevicesGrow(devices, Mark(devices, event))
  {
    var found := Find(devices, event.recipient);
    if found.Some? {
      FoundIsOk(devices, event.recipient);
      var delivery := MarkDelivery(found.value, |event.sources|);
      PutOk(devices, event.recipient, delivery);
      forall other ensures Find(Mark(devices, event), other)
                           == if other == event.recipient then Some(delivery) else Find(devices, other) {
        FindPut(devices, event.recipient, delivery, other);
      }
    }
  }

  // --- What a receipt and a mark write -----------------------------------------------------

  /** The recipient is the account of a direct message, or a member of a group message. */
  predicate IsRecipient(store: Store, message: string, userId: string) {
    && message in store.intents
    && (if store.intents[message].isGroup then userId in store.intents[message].members
        else userId == store.intents[message].recipientId)
  }

  /** The delivery of a device in the status of a message. A status of an earlier intent does not count. */
  function StoredDelivery(store: Store, message: string, recipient: Address): Option<Delivery> {
    if message in store.intents && message in store.statuses
       && store.statuses[message].createdAt == store.intents[message].createdAt
    then Find(store.statuses[message].devices, recipient) else None
  }

  /**
   * A receipt counts if and only if it names a recipient of a message that is kept.
   * It then adds its source behind those of the device, once, the first receipt of
   * a device sets its time, and nothing is announced by it.
   */
  lemma ReceiptWrites(
      store: Store, message: string, source: Source, recipient: Address, at: int, other: string, device: Address)
    ensures var after := AfterReceipt(store, message, source, recipient, at);
            var before := StoredDelivery(store, message, recipient);
            && after.intents == store.intents
            && (StoredDelivery(after, other, device) ==
                if other == message && device == recipient && IsRecipient(store, message, recipient.userId) then
                  if before.None? then Some(Delivery([source], at, 0))
                  else if source in before.value.sources then before
                  else Some(before.value.(sources := before.value.sources + [source]))
                else StoredDelivery(store, other, device))
  {
    if IsRecipient(store, message, recipient.userId) {
      var devices := Current(store, message).devices;
      var delivery := AddSource(DeliveryOf(devices, recipient, at), source);
      assert [] + [source] == [source];
      FindPut(devices, recipient, delivery, device);
    }
  }

  /**
   * A mark moves the announced count of its device forward to the number of the
   * sources of its event, at most to that of the stored sources, and changes nothing else.
   */
  lemma MarkWrites(store: Store, event: DeliveredEvent, other: string, device: Address)
    ensures var after, message, before := AfterMark(store, event), event.clientMessageId,
                                          StoredDelivery(store, event.clientMessageId, event.recipient);
            && after.intents == store.intents
            && (StoredDelivery(after, other, device) ==
                if other == message && device == event.recipient && before.Some?
                   && before.value.announced < |event.sources| && before.value.announced < |before.value.sources|
                then
                  Some(before.value.(announced :=
                    if |event.sources| < |before.value.sources| then |event.sources| else |before.value.sources|))
                else StoredDelivery(store, other, device))
  {
    var message := event.clientMessageId;
    if message in store.intents && Find(Current(store, message).devices, event.recipient).Some? {
      var devices := Current(store, message).devices;
      var delivery := MarkDelivery(Find(devices, event.recipient).value, |event.sources|);
      FindPut(devices, event.recipient, delivery, device);
    }
  }

  /** What an event tells the application: the source, every source up to it, and the message. */
  lemma EventTells(message: string, intent: Intent, entry: Entry<Address, Delivery>, index: nat)
    requires index < |entry.value.sources|
    ensures var event := EventAt(message, intent, entry, index);
            && event.clientMessageId == message && event.recipient == entry.key
            && event.source == entry.value.sources[index]
            && |event.sources| == index + 1 && event.sources <= entry.value.sources
            && (event.decryptionConfirmed <==> exists i :: 0 <= i <= index && entry.value.sources[i] == E2ee)
            && event.deliveredAt == entry.value.deliveredAt && event.clientTimestamp == intent.clientTimestamp
            && (intent.isGroup ==> event.groupId == Some(intent.recipientId))
            && (!intent.isGroup ==> event.groupId == None)
  {
    var sources := entry.value.sources[..index + 1];
    if i :| 0 <= i <= index && entry.value.sources[i] == E2ee {
      assert sources[i] == E2ee;
    }
  }

  /** Nothing is to announce before the message has a result, or while a send of it is counted, or for a stranger. */
  lemma NothingToAnnounce(store: Store, sending: map<string, nat>, message: string, recipient: Address)
    ensures !(message in store.intents && store.intents[message].hasResult && message !in sending) ==>
              ToAnnounce(store, sending, message) == []
    ensures ReceiptEvents(store, sending, message, recipient)
            == if IsRecipient(store, message, recipient.userId) then ToAnnounce(store, sending, message) else []
  {
  }

  // --- The list is exactly what is left to announce -----------------------------------------

  lemma EventsOfEntry(message: string, intent: Intent, entry: Entry<Address, Delivery>, e: DeliveredEvent)
    ensures e in EventsOf(message, intent, entry, |entry.value.sources|) <==>
            exists index :: entry.value.announced <= index < |entry.value.sources|
                         && e == EventAt(message, intent, entry, index)
  {
    var events := EventsOf(message, intent, entry, |entry.value.sources|);
    if index :| entry.value.announced <= index < |entry.value.sources| && e == EventAt(message, intent, entry, index) {
      assert events[index - entry.value.announced] == e;
    }
  }

  ghost predicate LeftToAnnounce(message: string, intent: Intent, devices: Devices, i: nat, e: DeliveredEvent)
    requires i < |devices|
  {
    exists index :: devices[i].value.announced <= index < |devices[i].value.sources|
                 && e == EventAt(message, intent, devices[i], index)
  }

  /** A list holds one event for each source that is not announced, and no other event. */
  lemma {:induction false} UnannouncedIsExactlyWhatIsLeft(
      message: string, intent: Intent, devices: Devices, e: DeliveredEvent)
    ensures e in Unannounced(message, intent, devices) <==>
            exists i :: 0 <= i < |devices| && LeftToAnnounce(message, intent, devices, i, e)
  {
    if devices != [] {
      var front, n := devices[..|devices| - 1], |devices| - 1;
      UnannouncedIsExactlyWhatIsLeft(message, intent, front, e);
      EventsOfEntry(message, intent, devices[n], e);
      forall i | 0 <= i < n
        ensures LeftToAnnounce(message, intent, front, i, e) <==> LeftToAnnounce(message, intent, devices, i, e)
      {
      }
      assert e in Unannounced(message, intent, devices) <==>
             e in Unannounced(message, intent, front) || LeftToAnnounce(message, intent, devices, n, e);
    }
  }
}
