/**
 * Announcing deliveries under interleaved receipts, releases and announcers,
 * throwing hooks and crashes: a source counts as announced only after its hook
 * returned, and the hooks of one device run in the order of its sources.
 */
module DeliveryAnnouncing {
  import opened Options
  import opened Sequences
  import opened Associations
  import opened DeliveryStatus

  /** One source of the delivery of one message to one device, under one intent of the message ID. */
  datatype Spot = Spot(clientMessageId: string, createdAt: int, recipient: Address, index: nat, source: Source)

  /** A running announcement: the events that are left, and whether the hook of the first one returned. */
  datatype Announcer = Announcer(queue: seq<DeliveredEvent>, settled: bool)

  /**
   * The store, the creation time of the latest intent of each message ID, the
   * counted sends, the running announcements, and what the hooks did: `ran` holds
   * the sources whose registered hook returned, and `skipped` those that were
   * announced with no hook registered.
   */
  datatype World = World(
    store: Store,
    created: map<string, int>,
    sending: map<string, nat>,
    announcers: map<nat, Announcer>,
    ran: set<Spot>,
    skipped: set<Spot>)

  datatype Event =
    | BeginSend(clientMessageId: string)
    | EndSend(clientMessageId: string)
    | Commit(clientMessageId: string, intent: Intent)
    | Resolve(clientMessageId: string)
    | Forget(clientMessageId: string)
    | Receipt(announcer: nat, clientMessageId: string, source: Source, recipient: Address, at: int)
    | Release(announcer: nat, clientMessageId: string)
    | HookReturns(announcer: nat, registered: bool)
    | HookThrows(announcer: nat)
    | MarkHead(announcer: nat)
    | Crash

  const EMPTY: World := World(Store(map[], map[]), map[], map[], map[], {}, {})

  // --- Steps ---------------------------------------------------------------------------

  function CountedUp(sending: map<string, nat>, message: string): map<string, nat> {
    sending[message := (if message in sending then sending[message] else 0) + 1]
  }

  function CountedDown(sending: map<string, nat>, message: string): map<string, nat> {
    if message in sending && sending[message] > 1 then sending[message := sending[message] - 1]
    else sending - {message}
  }

  function Enqueue(w: World, id: nat, events: seq<DeliveredEvent>): World {
    var before := if id in w.announcers then w.announcers[id] else Announcer([], false);
    w.(announcers := w.announcers[id := before.(queue := before.queue + events)])
  }

  /** The spot of one source of an event. */
  function SpotOf(event: DeliveredEvent, index: nat): Spot
    requires index < |event.sources|
  {
    Spot(event.clientMessageId, event.createdAt, event.recipient, index, event.sources[index])
  }

  /** The event announces this spot: it is the last of its sources. */
  ghost predicate Announces(event: DeliveredEvent, spot: Spot) {
    event.sources != [] && SpotOf(event, |event.sources| - 1) == spot
  }

  function Log(w: World): set<Spot> {
    w.ran + w.skipped
  }

  /** An intent is committed under a message ID that has none, and later than an earlier one of that ID. */
  predicate Enabled(w: World, event: Event) {
    match event
    case Commit(message, intent) =>
      message !in w.store.intents && (message in w.created ==> w.created[message] < intent.createdAt)
    case Resolve(message) => message in w.store.intents
    case HookReturns(id, _) => id in w.announcers && w.announcers[id].queue != [] && !w.announcers[id].settled
    case HookThrows(id) => id in w.announcers && w.announcers[id].queue != [] && !w.announcers[id].settled
    case MarkHead(id) => id in w.announcers && w.announcers[id].queue != [] && w.announcers[id].settled
    case _ => true
  }

  function CommitStep(w: World, message: string, intent: Intent): World {
    w.(store := w.store.(intents := w.store.intents[message := intent]),
       created := w.created[message := intent.createdAt])
  }

  function ReceiptStep(w: World, id: nat, message: string, source: Source, recipient: Address, at: int): World {
    var store := AfterReceipt(w.store, message, source, recipient, at);
    Enqueue(w.(store := store), id, ReceiptEvents(store, w.sending, message, recipient))
  }

  /** The hook of the first event returned, or no hook is registered. */
  function HookReturnsStep(w: World, id: nat, registered: bool): World
    requires id in w.announcers && w.announcers[id].queue != []
  {
    var event := w.announcers[id].queue[0];
    var spots := if event.sources == [] then {} else {SpotOf(event, |event.sources| - 1)};
    var settled := w.(announcers := w.announcers[id := w.announcers[id].(settled := true)]);
    if registered then settled.(ran := w.ran + spots) else settled.(skipped := w.skipped + spots)
  }

  function MarkStep(w: World, id: nat): World
    requires id in w.announcers && w.announcers[id].queue != []
  {
    var queue := w.announcers[id].queue;
    w.(store := AfterMark(w.store, queue[0]), announcers := w.announcers[id := Announcer(queue[1..], false)])
  }

  function Next(w: World, event: Event): World
    requires Enabled(w, event)
  {
    match event
    case BeginSend(message) => w.(sending := CountedUp(w.sending, message))
    case EndSend(message) => w.(sending := CountedDown(w.sending, message))
    case Commit(message, intent) => CommitStep(w, message, intent)
    case Resolve(message) =>
      w.(store := w.store.(intents := w.store.intents[message := w.store.intents[message].(hasResult := true)]))
    case Forget(message) => w.(store := w.store.(intents := w.store.intents - {message}))
    case Receipt(id, message, source, recipient, at) => ReceiptStep(w, id, message, source, recipient, at)
    case Release(id, message) => Enqueue(w, id, ToAnnounce(w.store, w.sending, message))
    case HookReturns(id, registered) => HookReturnsStep(w, id, registered)
    case HookThrows(id) => w.(announcers := w.announcers - {id})
    case MarkHead(id) => MarkStep(w, id)
    case Crash => w.(announcers := map[], sending := map[])
  }

  ghost predicate ValidRun(w: World, events: seq<Event>)
    decreases |events|
  {
    events == [] || (Enabled(w, events[0]) && ValidRun(Next(w, events[0]), events[1..]))
  }

  ghost function Run(w: World, events: seq<Event>): World
    requires ValidRun(w, events)
    decreases |events|
  {
    if events == [] then w else Run(Next(w, events[0]), events[1..])
  }

  // --- The invariant ----------------------------------------------------------------------

  ghost predicate IsLogged(
      log: set<Spot>, message: string, createdAt: int, recipient: Address, index: nat, source: Source)
  {
    Spot(message, createdAt, recipient, index, source) in log
  }

  /** Each announced source of a message is in the log. */
  ghost predicate AnnouncedIsLogged(log: set<Spot>, message: string, createdAt: int, devices: Devices) {
    forall recipient, index: nat ::
      Find(devices, recipient).Some? && index < Find(devices, recipient).value.announced
      && index < |Find(devices, recipient).value.sources|
      ==> IsLogged(log, message, createdAt, recipient, index, Find(devices, recipient).value.sources[index])
  }

  /** A source of a queued event is in the log, or an event at or before it announces the source. */
  ghost predicate Awaited(log: set<Spot>, queue: seq<DeliveredEvent>, p: nat, index: nat)
    requires p < |queue| && index < |queue[p].sources|
  {
    || SpotOf(queue[p], index) in log
    || exists q :: 0 <= q <= p && Announces(queue[q], SpotOf(queue[p], index))
  }

  ghost predicate Covered(log: set<Spot>, queue: seq<DeliveredEvent>) {
    forall p, index :: 0 <= p < |queue| && 0 <= index < |queue[p].sources| ==> Awaited(log, queue, p, index)
  }

  /** The sources of an event are the first sources of its device. */
  ghost predicate Fits(devices: Devices, event: DeliveredEvent) {
    && Find(devices, event.recipient).Some?
    && event.sources <= Find(devices, event.recipient).value.sources
  }

  /** The event was built for the intent that its message ID has now. */
  predicate IsOfIntent(store: Store, event: DeliveredEvent) {
    && event.clientMessageId in store.intents
    && store.intents[event.clientMessageId].createdAt == event.createdAt
  }

  ghost predicate AllFit(store: Store, queue: seq<DeliveredEvent>) {
    forall p :: 0 <= p < |queue| && IsOfIntent(store, queue[p]) ==>
      Fits(Current(store, queue[p].clientMessageId).devices, queue[p])
  }

  /** The event was built for an intent that was committed. */
  predicate IsTimely(created: map<string, int>, event: DeliveredEvent) {
    event.clientMessageId in created && event.createdAt <= created[event.clientMessageId]
  }

  ghost predicate AllTimely(created: map<string, int>, queue: seq<DeliveredEvent>) {
    forall p :: 0 <= p < |queue| ==> IsTimely(created, queue[p]) && queue[p].sources != []
  }

  ghost predicate AnnouncerOk(store: Store, created: map<string, int>, log: set<Spot>, announcer: Announcer) {
    && Covered(log, announcer.queue)
    && AllFit(store, announcer.queue)
    && AllTimely(created, announcer.queue)
    && (announcer.settled ==>
          announcer.queue != [] && announcer.queue[0].sources != []
          && SpotOf(announcer.queue[0], |announcer.queue[0].sources| - 1) in log)
  }

  ghost predicate LogOk(store: Store, log: set<Spot>) {
    forall message :: message in store.intents ==>
      AnnouncedIsLogged(log, message, store.intents[message].createdAt, Current(store, message).devices)
  }

  /** A source in the log is one of its device, and every earlier source of the device is in the log too. */
  ghost predicate SpotFits(log: set<Spot>, devices: Devices, spot: Spot) {
    && Find(devices, spot.recipient).Some?
    && var sources := Find(devices, spot.recipient).value.sources;
       && spot.index < |sources| && sources[spot.index] == spot.source
       && forall index: nat :: index < spot.index ==>
            IsLogged(log, spot.clientMessageId, spot.createdAt, spot.recipient, index, sources[index])
  }

  ghost predicate LogFits(store: Store, log: set<Spot>) {
    forall spot :: spot in log && spot.clientMessageId in store.intents
                   && store.intents[spot.clientMessageId].createdAt == spot.createdAt ==>
      SpotFits(log, Current(store, spot.clientMessageId).devices, spot)
  }

  /** Every time is one of a committed intent, and the current intents are the latest ones. */
  ghost predicate StoreTimes(w: World) {
    && (forall message :: message in w.store.intents ==>
          message in w.created && w.created[message] == w.store.intents[message].createdAt)
    && (forall message :: message in w.store.statuses ==>
          message in w.created && w.store.statuses[message].createdAt <= w.created[message])
  }

  /** Also the times of the announced sources. */
  ghost predicate Times(w: World) {
    && StoreTimes(w)
    && (forall spot :: spot in Log(w) ==>
          spot.clientMessageId in w.created && spot.createdAt <= w.created[spot.clientMessageId])
  }

  ghost predicate Sound(w: World) {
    && StoreOk(w.store) && Times(w)
    && LogOk(w.store, Log(w)) && LogFits(w.store, Log(w))
    && forall id :: id in w.announcers ==> AnnouncerOk(w.store, w.created, Log(w), w.announcers[id])
  }

  // --- Lists of events are covered -----------------------------------------------------------

  lemma CoveredAppends(log: set<Spot>, one: seq<DeliveredEvent>, other: seq<DeliveredEvent>)
    requires Covered(log, one) && Covered(log, other)
    ensures Covered(log, one + other)
  {
    var both := one + other;
    forall p, index | 0 <= p < |both| && 0 <= index < |both[p].sources| ensures Awaited(log, both, p, index) {
      if p < |one| {
        assert Awaited(log, one, p, index);
        if SpotOf(one[p], index) !in log {
          var q :| 0 <= q <= p && Announces(one[q], SpotOf(one[p], index));
          assert Announces(both[q], SpotOf(both[p], index));
        }
      } else {
        var at := p - |one|;
        assert Awaited(log, other, at, index);
        if SpotOf(other[at], index) !in log {
          var q :| 0 <= q <= at && Announces(other[q], SpotOf(other[at], index));
          assert Announces(both[|one| + q], SpotOf(both[p], index));
        }
      }
    }
  }

  lemma CoveredGrows(log: set<Spot>, more: set<Spot>, queue: seq<DeliveredEvent>)
    requires Covered(log, queue) && log <= more
    ensures Covered(more, queue)
  {
    forall p, index | 0 <= p < |queue| && 0 <= index < |queue[p].sources| ensures Awaited(more, queue, p, index) {
      assert Awaited(log, queue, p, index);
    }
  }

  /** When the first event is in the log, the events after it are covered without it. */
  lemma CoveredTail(log: set<Spot>, queue: seq<DeliveredEvent>)
    requires Covered(log, queue) && queue != [] && queue[0].sources != []
    requires SpotOf(queue[0], |queue[0].sources| - 1) in log
    ensures Covered(log, queue[1..])
  {
    var tail := queue[1..];
    forall p, index | 0 <= p < |tail| && 0 <= index < |tail[p].sources| ensures Awaited(log, tail, p, index) {
      assert tail[p] == queue[p + 1];
      assert Awaited(log, queue, p + 1, index);
      if SpotOf(tail[p], index) !in log {
        var q :| 0 <= q <= p + 1 && Announces(queue[q], SpotOf(queue[p + 1], index));
        assert q > 0;
        assert Announces(tail[q - 1], SpotOf(tail[p], index));
      }
    }
  }

  lemma EventsAreCovered(log: set<Spot>, message: string, intent: Intent, entry: Entry<Address, Delivery>)
    requires forall index: nat :: index < entry.value.announced && index < |entry.value.sources| ==>
               IsLogged(log, message, intent.createdAt, entry.key, index, entry.value.sources[index])
    ensures Covered(log, EventsOf(message, intent, entry, |entry.value.sources|))
  {
    var events := EventsOf(message, intent, entry, |entry.value.sources|);
    forall p, index | 0 <= p < |events| && 0 <= index < |events[p].sources| ensures Awaited(log, events, p, index) {
      if index < entry.value.announced {
        assert IsLogged(log, message, intent.createdAt, entry.key, index, entry.value.sources[index]);
      } else {
        var first := events[index - entry.value.announced];
        assert first.sources == entry.value.sources[..index + 1];
        assert Announces(first, SpotOf(events[p], index));
      }
    }
  }

  /** What an event of a fresh list is. */
  ghost predicate IsFresh(message: string, intent: Intent, devices: Devices, event: DeliveredEvent) {
    && event.clientMessageId == message && event.createdAt == intent.createdAt
    && event.sources != [] && Fits(devices, event)
  }

  lemma EventsAreFresh(message: string, intent: Intent, devices: Devices, n: nat)
    requires DevicesOk(devices) && n < |devices|
    ensures forall e :: e in EventsOf(message, intent, devices[n], |devices[n].value.sources|) ==>
              IsFresh(message, intent, devices, e)
  {
    FindAt(devices, n);
    var events := EventsOf(message, intent, devices[n], |devices[n].value.sources|);
    forall k | 0 <= k < |events| ensures IsFresh(message, intent, devices, events[k]) {
      assert events[k].sources == devices[n].value.sources[..devices[n].value.announced + k + 1];
    }
  }

  lemma {:induction false} ListIsFreshAndCovered(
      log: set<Spot>, message: string, intent: Intent, devices: Devices, n: nat)
    requires DevicesOk(devices) && AnnouncedIsLogged(log, message, intent.createdAt, devices) && n <= |devices|
    ensures Covered(log, Unannounced(message, intent, devices[..n]))
    ensures forall e :: e in Unannounced(message, intent, devices[..n]) ==> IsFresh(message, intent, devices, e)
  {
    if n > 0 {
      var entry := devices[n - 1];
      assert devices[..n][..n - 1] == devices[..n - 1];
      ListIsFreshAndCovered(log, message, intent, devices, n - 1);
      FindAt(devices, n - 1);
      forall index: nat | index < entry.value.announced && index < |entry.value.sources|
        ensures IsLogged(log, message, intent.createdAt, entry.key, index, entry.value.sources[index])
      {
        assert IsLogged(log, message, intent.createdAt, entry.key, index,
                        Find(devices, entry.key).value.sources[index]);
      }
      EventsAreCovered(log, message, intent, entry);
      EventsAreFresh(message, intent, devices, n - 1);
      CoveredAppends(log, Unannounced(message, intent, devices[..n - 1]),
                     EventsOf(message, intent, entry, |entry.value.sources|));
    }
  }

  /** A fresh list is covered, its events fit the store, and they are of committed intents. */
  lemma ListIsOk(store: Store, created: map<string, int>, sending: map<string, nat>, log: set<Spot>, message: string)
    requires StoreOk(store) && LogOk(store, log)
    requires message in store.intents ==>
               message in created && created[message] == store.intents[message].createdAt
    ensures var events := ToAnnounce(store, sending, message);
            Covered(log, events) && AllFit(store, events) && AllTimely(created, events)
  {
    if Announceable(store, sending, message) {
      var devices := Current(store, message).devices;
      ListIsFreshAndCovered(log, message, store.intents[message], devices, |devices|);
      assert devices[..|devices|] == devices;
      var events := ToAnnounce(store, sending, message);
      forall p | 0 <= p < |events| ensures IsFresh(message, store.intents[message], devices, events[p]) {
        assert events[p] in events;
      }
    }
  }

  // --- Each step keeps the invariant ------------------------------------------------------------

  /** Every intent that is left was there before, and its status only grew. */
  ghost predicate StoreGrows(before: Store, after: Store) {
    forall message :: message in after.intents ==>
      && message in before.intents
      && before.intents[message].createdAt == after.intents[message].createdAt
      && DevicesGrow(Current(before, message).devices, Current(after, message).devices)
  }

  lemma FitsGrows(before: Devices, after: Devices, event: DeliveredEvent)
    requires Fits(before, event) && DevicesGrow(before, after)
    ensures Fits(after, event)
  {
    var one, more := Find(before, event.recipient).value.sources, Find(after, event.recipient).value.sources;
    assert event.sources == one[..|event.sources|] && one == more[..|one|];
  }

  lemma AnnouncerKept(
      before: Store, after: Store, created: map<string, int>, log: set<Spot>, more: set<Spot>, announcer: Announcer)
    requires AnnouncerOk(before, created, log, announcer) && StoreGrows(before, after) && log <= more
    ensures AnnouncerOk(after, created, more, announcer)
  {
    CoveredGrows(log, more, announcer.queue);
    forall p | 0 <= p < |announcer.queue| && IsOfIntent(after, announcer.queue[p])
      ensures Fits(Current(after, announcer.queue[p].clientMessageId).devices, announcer.queue[p])
    {
      var event := announcer.queue[p];
      assert IsOfIntent(before, event);
      FitsGrows(Current(before, event.clientMessageId).devices, Current(after, event.clientMessageId).devices, event);
    }
  }

  lemma AllAnnouncersKept(w: World, after: World)
    requires Sound(w) && StoreGrows(w.store, after.store) && Log(w) <= Log(after) && w.created == after.created
    ensures forall id :: id in w.announcers ==> AnnouncerOk(after.store, after.created, Log(after), w.announcers[id])
  {
    forall id | id in w.announcers ensures AnnouncerOk(after.store, after.created, Log(after), w.announcers[id]) {
      AnnouncerKept(w.store, after.store, w.created, Log(w), Log(after), w.announcers[id]);
    }
  }

  lemma StoreUnchangedGrows(store: Store)
    ensures StoreGrows(store, store)
  {
  }

  /** A source in the log stays one of its device when the status grows. */
  lemma LogFitsGrows(before: Store, after: Store, log: set<Spot>)
    requires LogFits(before, log) && StoreGrows(before, after)
    ensures LogFits(after, log)
  {
    forall spot | spot in log && spot.clientMessageId in after.intents
                  && after.intents[spot.clientMessageId].createdAt == spot.createdAt
      ensures SpotFits(log, Current(after, spot.clientMessageId).devices, spot)
    {
      SpotFitsGrows(log, Current(before, spot.clientMessageId).devices,
                    Current(after, spot.clientMessageId).devices, spot);
    }
  }

  lemma SpotFitsGrows(log: set<Spot>, before: Devices, after: Devices, spot: Spot)
    requires SpotFits(log, before, spot) && DevicesGrow(before, after)
    ensures SpotFits(log, after, spot)
  {
    var one, more := Find(before, spot.recipient).value.sources, Find(after, spot.recipient).value.sources;
    assert one == more[..|one|];
  }

  /** Writing grown devices for one message. */
  lemma WriteGrows(store: Store, message: string, devices: Devices)
    requires StoreOk(store) && message in store.intents
    requires DevicesOk(devices) && DevicesGrow(Current(store, message).devices, devices)
    ensures var after := Write(store, message, devices);
            && StoreOk(after) && StoreGrows(store, after)
            && forall other :: other in store.intents ==>
                 Current(after, other).devices
                 == if other == message then devices else Current(store, other).devices
  {
    var after := Write(store, message, devices);
    forall other | other in store.intents
      ensures Current(after, other).devices
              == if other == message then devices else Current(store, other).devices
    {
      WriteSetsOneStatus(store, message, devices, other);
    }
  }

  lemma WriteIsLogged(store: Store, message: string, devices: Devices, log: set<Spot>)
    requires StoreOk(store) && LogOk(store, log) && message in store.intents
    requires DevicesOk(devices) && DevicesGrow(Current(store, message).devices, devices)
    requires AnnouncedIsLogged(log, message, store.intents[message].createdAt, devices)
    ensures LogOk(Write(store, message, devices), log)
  {
    WriteGrows(store, message, devices);
  }

  /** The creation times that a write leaves. */
  lemma WriteTimes(w: World, message: string, devices: Devices)
    requires StoreTimes(w) && message in w.store.intents
    ensures StoreTimes(w.(store := Write(w.store, message, devices)))
  {
  }

  lemma ArriveIsLogged(
      devices: Devices, source: Source, recipient: Address, at: int, log: set<Spot>, message: string, createdAt: int)
    requires DevicesOk(devices) && AnnouncedIsLogged(log, message, createdAt, devices)
    ensures AnnouncedIsLogged(log, message, createdAt, Arrive(devices, source, recipient, at))
  {
    var after := Arrive(devices, source, recipient, at);
    var delivery := AddSource(DeliveryOf(devices, recipient, at), source);
    forall other, index: nat
      | Find(after, other).Some? && index < Find(after, other).value.announced
        && index < |Find(after, other).value.sources|
      ensures IsLogged(log, message, createdAt, other, index, Find(after, other).value.sources[index])
    {
      FindPut(devices, recipient, delivery, other);
      if Find(devices, other).Some? {
        FoundIsOk(devices, other);
        assert IsLogged(log, message, createdAt, other, index, Find(devices, other).value.sources[index]);
      }
    }
  }

  lemma ReceiptStoreGrows(store: Store, message: string, source: Source, recipient: Address, at: int)
    requires StoreOk(store)
    ensures var after := AfterReceipt(store, message, source, recipient, at);
            StoreOk(after) && StoreGrows(store, after)
  {
    if message in store.intents && Addresses(store.intents[message], recipient.userId) {
      ArriveGrows(Current(store, message).devices, source, recipient, at);
      WriteGrows(store, message, Arrive(Current(store, message).devices, source, recipient, at));
    } else {
      StoreUnchangedGrows(store);
    }
  }

  lemma ReceiptStoreIsLogged(
      w: World, message: string, source: Source, recipient: Address, at: int)
    requires Sound(w)
    ensures var store := AfterReceipt(w.store, message, source, recipient, at);
            LogOk(store, Log(w)) && Times(w.(store := store))
  {
    if message in w.store.intents && Addresses(w.store.intents[message], recipient.userId) {
      var devices := Current(w.store, message).devices;
      ArriveGrows(devices, source, recipient, at);
      ArriveIsLogged(devices, source, recipient, at, Log(w), message, w.store.intents[message].createdAt);
      WriteIsLogged(w.store, message, Arrive(devices, source, recipient, at), Log(w));
      WriteTimes(w, message, Arrive(devices, source, recipient, at));
    }
  }

  /** All sources of the event are in the log. */
  ghost predicate EventIsLogged(log: set<Spot>, event: DeliveredEvent) {
    forall index :: 0 <= index < |event.sources| ==>
      IsLogged(log, event.clientMessageId, event.createdAt, event.recipient, index, event.sources[index])
  }

  /** When the hook of the first event returned, all its sources are in the log. */
  lemma SettledHeadIsLogged(w: World, announcer: Announcer)
    requires AnnouncerOk(w.store, w.created, Log(w), announcer) && announcer.settled
    ensures EventIsLogged(Log(w), announcer.queue[0])
  {
    var event := announcer.queue[0];
    forall index | 0 <= index < |event.sources|
      ensures IsLogged(Log(w), event.clientMessageId, event.createdAt, event.recipient, index, event.sources[index])
    {
      assert Awaited(Log(w), announcer.queue, 0, index);
    }
  }

  lemma EnqueueKeeps(w: World, id: nat, events: seq<DeliveredEvent>)
    requires Sound(w) && Covered(Log(w), events) && AllFit(w.store, events) && AllTimely(w.created, events)
    ensures Sound(Enqueue(w, id, events))
  {
    var before := if id in w.announcers then w.announcers[id] else Announcer([], false);
    CoveredAppends(Log(w), before.queue, events);
    assert AnnouncerOk(w.store, w.created, Log(w), before.(queue := before.queue + events));
  }

  lemma ReceiptKeeps(w: World, id: nat, message: string, source: Source, recipient: Address, at: int)
    requires Sound(w)
    ensures Sound(ReceiptStep(w, id, message, source, recipient, at))
  {
    var store := AfterReceipt(w.store, message, source, recipient, at);
    ReceiptStoreGrows(w.store, message, source, recipient, at);
    ReceiptStoreIsLogged(w, message, source, recipient, at);
    LogFitsGrows(w.store, store, Log(w));
    AllAnnouncersKept(w, w.(store := store));
    ListIsOk(store, w.created, w.sending, Log(w), message);
    EnqueueKeeps(w.(store := store), id, ReceiptEvents(store, w.sending, message, recipient));
  }

  lemma LoggedSpotFits(w: World, id: nat, registered: bool, spot: Spot)
    requires Sound(w) && Enabled(w, HookReturns(id, registered))
    requires spot in Log(HookReturnsStep(w, id, registered)) && spot.clientMessageId in w.store.intents
    requires w.store.intents[spot.clientMessageId].createdAt == spot.createdAt
    ensures SpotFits(Log(HookReturnsStep(w, id, registered)), Current(w.store, spot.clientMessageId).devices, spot)
  {
    var log, queue := Log(HookReturnsStep(w, id, registered)), w.announcers[id].queue;
    var sources := queue[0].sources;
    if spot in Log(w) {
      assert SpotFits(Log(w), Current(w.store, spot.clientMessageId).devices, spot);
    } else {
      assert AnnouncerOk(w.store, w.created, Log(w), w.announcers[id]);
      assert IsOfIntent(w.store, queue[0]) && spot == SpotOf(queue[0], |sources| - 1);
      var stored := Find(Current(w.store, spot.clientMessageId).devices, spot.recipient).value.sources;
      forall index: nat | index < spot.index
        ensures IsLogged(log, spot.clientMessageId, spot.createdAt, spot.recipient, index, stored[index])
      {
        assert Awaited(Log(w), queue, 0, index) && stored[index] == sources[index];
      }
    }
  }

  lemma HookReturnsKeeps(w: World, id: nat, registered: bool)
    requires Sound(w) && Enabled(w, HookReturns(id, registered))
    ensures Sound(HookReturnsStep(w, id, registered))
  {
    var after := HookReturnsStep(w, id, registered);
    StoreUnchangedGrows(w.store);
    AllAnnouncersKept(w, after);
    assert AnnouncerOk(after.store, after.created, Log(after), w.announcers[id]);
    assert IsTimely(w.created, w.announcers[id].queue[0]);
    forall spot | spot in Log(after) && spot.clientMessageId in w.store.intents
                  && w.store.intents[spot.clientMessageId].createdAt == spot.createdAt
      ensures SpotFits(Log(after), Current(w.store, spot.clientMessageId).devices, spot)
    {
      LoggedSpotFits(w, id, registered, spot);
    }
  }

  // --- Which marks count only sources whose hook returned -----------------------------------------------

  /** The announced count that a mark moves its device to, when it moves it. */
  function CountsTo(delivery: Delivery, event: DeliveredEvent): nat {
    if |event.sources| < |delivery.sources| then |event.sources| else |delivery.sources|
  }

  /**
   * A mark counts only sources that are in the log: it finds no device, it is of
   * the intent that the message ID has now, it does not move the count, or the
   * last source that it counts is in the log.
   */
  predicate IsBacked(w: World, event: DeliveredEvent) {
    var message := event.clientMessageId;
    message in w.store.intents && event.createdAt != w.store.intents[message].createdAt ==>
      var found := Find(Current(w.store, message).devices, event.recipient);
      found.Some? ==>
        var count := CountsTo(found.value, event);
        count > found.value.announced ==>
          Spot(message, w.store.intents[message].createdAt, event.recipient, count - 1, found.value.sources[count - 1])
          in Log(w)
  }

  /** Each source that a mark of the event counts is in the log. */
  ghost predicate CountedIsLogged(log: set<Spot>, createdAt: int, devices: Devices, event: DeliveredEvent) {
    Find(devices, event.recipient).Some? ==>
      var delivery := Find(devices, event.recipient).value;
      forall index: nat :: delivery.announced <= index < CountsTo(delivery, event) ==>
        IsLogged(log, event.clientMessageId, createdAt, event.recipient, index, delivery.sources[index])
  }

  lemma MarkIsLoggedIff(devices: Devices, event: DeliveredEvent, log: set<Spot>, createdAt: int)
    requires DevicesOk(devices) && AnnouncedIsLogged(log, event.clientMessageId, createdAt, devices)
    ensures AnnouncedIsLogged(log, event.clientMessageId, createdAt, Mark(devices, event))
            <==> CountedIsLogged(log, createdAt, devices, event)
  {
    var message, after := event.clientMessageId, Mark(devices, event);
    if Find(devices, event.recipient).Some? {
      var before := Find(devices, event.recipient).value;
      var marked := MarkDelivery(before, |event.sources|);
      FindPut(devices, event.recipient, marked, event.recipient);
      if CountedIsLogged(log, createdAt, devices, event) {
        forall other, index: nat
          | Find(after, other).Some? && index < Find(after, other).value.announced
            && index < |Find(after, other).value.sources|
          ensures IsLogged(log, message, createdAt, other, index, Find(after, other).value.sources[index])
        {
          FindPut(devices, event.recipient, marked, other);
          if other != event.recipient || index < before.announced {
            assert IsLogged(log, message, createdAt, other, index, Find(devices, other).value.sources[index]);
          }
        }
      } else {
        var index: nat :| before.announced <= index < CountsTo(before, event)
                       && !IsLogged(log, message, createdAt, event.recipient, index, before.sources[index]);
        assert index < marked.announced && marked.sources[index] == before.sources[index];
      }
    }
  }

  lemma BackedIsLogged(w: World, id: nat)
    requires Sound(w) && Enabled(w, MarkHead(id)) && w.announcers[id].queue[0].clientMessageId in w.store.intents
    ensures var event := w.announcers[id].queue[0];
            IsBacked(w, event) <==>
            CountedIsLogged(Log(w), w.store.intents[event.clientMessageId].createdAt,
                            Current(w.store, event.clientMessageId).devices, event)
  {
    var event := w.announcers[id].queue[0];
    var message, devices := event.clientMessageId, Current(w.store, event.clientMessageId).devices;
    var createdAt := w.store.intents[message].createdAt;
    var found := Find(devices, event.recipient);
    assert AnnouncerOk(w.store, w.created, Log(w), w.announcers[id]);
    if found.Some? {
      var count := CountsTo(found.value, event);
      if event.createdAt == createdAt {
        assert IsOfIntent(w.store, event);
        SettledHeadIsLogged(w, w.announcers[id]);
        forall index: nat | found.value.announced <= index < count
          ensures IsLogged(Log(w), message, createdAt, event.recipient, index, found.value.sources[index])
        {
          assert IsLogged(Log(w), message, createdAt, event.recipient, index, event.sources[index]);
        }
      } else if count > found.value.announced {
        var last := Spot(message, createdAt, event.recipient, count - 1, found.value.sources[count - 1]);
        if last in Log(w) {
          assert SpotFits(Log(w), devices, last);
        } else {
          assert !IsLogged(Log(w), message, createdAt, event.recipient, count - 1, found.value.sources[count - 1]);
        }
      }
    }
  }

  /** A mark counts only sources whose hook returned, or that had no hook, if and only if it is backed. */
  lemma MarkCountsReturnedIff(w: World, id: nat)
    requires Sound(w) && Enabled(w, MarkHead(id))
    ensures LogOk(MarkStep(w, id).store, Log(w)) <==> IsBacked(w, w.announcers[id].queue[0])
  {
    var event := w.announcers[id].queue[0];
    var message := event.clientMessageId;
    if message in w.store.intents {
      var devices := Current(w.store, message).devices;
      MarkGrows(devices, event);
      WriteGrows(w.store, message, Mark(devices, event));
      MarkIsLoggedIff(devices, event, Log(w), w.store.intents[message].createdAt);
      BackedIsLogged(w, id);
      if IsBacked(w, event) {
        WriteIsLogged(w.store, message, Mark(devices, event), Log(w));
      }
    }
  }

  lemma MarkStoreGrows(store: Store, event: DeliveredEvent)
    requires StoreOk(store)
    ensures StoreOk(AfterMark(store, event)) && StoreGrows(store, AfterMark(store, event))
  {
    if event.clientMessageId in store.intents {
      MarkGrows(Current(store, event.clientMessageId).devices, event);
      WriteGrows(store, event.clientMessageId, Mark(Current(store, event.clientMessageId).devices, event));
    } else {
      StoreUnchangedGrows(store);
    }
  }

  lemma MarkKeeps(w: World, id: nat)
    requires Sound(w) && Enabled(w, MarkHead(id)) && IsBacked(w, w.announcers[id].queue[0])
    ensures Sound(MarkStep(w, id))
  {
    var announcer, after := w.announcers[id], MarkStep(w, id);
    MarkCountsReturnedIff(w, id);
    MarkStoreGrows(w.store, announcer.queue[0]);
    MarkTimes(w, id);
    LogFitsGrows(w.store, after.store, Log(w));
    AllAnnouncersKept(w, after);
    CoveredTail(Log(w), announcer.queue);
    TailKeeps(after.store, w.created, Log(w), announcer);
  }

  lemma MarkTimes(w: World, id: nat)
    requires StoreTimes(w) && Enabled(w, MarkHead(id))
    ensures StoreTimes(MarkStep(w, id))
  {
    var event := w.announcers[id].queue[0];
    if event.clientMessageId in w.store.intents {
      WriteTimes(w, event.clientMessageId, Mark(Current(w.store, event.clientMessageId).devices, event));
    }
  }

  lemma TailKeeps(store: Store, created: map<string, int>, log: set<Spot>, announcer: Announcer)
    requires AnnouncerOk(store, created, log, announcer) && announcer.queue != []
    requires Covered(log, announcer.queue[1..])
    ensures AnnouncerOk(store, created, log, Announcer(announcer.queue[1..], false))
  {
  }

  lemma CommitKeeps(w: World, message: string, intent: Intent)
    requires Sound(w) && Enabled(w, Commit(message, intent))
    ensures Sound(CommitStep(w, message, intent))
  {
    var after := CommitStep(w, message, intent);
    assert Current(after.store, message).devices == [];
    assert forall other :: other in w.store.intents ==> Current(after.store, other) == Current(w.store, other);
    CommitTimes(w, message, intent);
    forall spot | spot in Log(after) && spot.clientMessageId in after.store.intents
                  && after.store.intents[spot.clientMessageId].createdAt == spot.createdAt
      ensures SpotFits(Log(after), Current(after.store, spot.clientMessageId).devices, spot)
    {
      assert spot.clientMessageId != message;
    }
    forall id | id in w.announcers
      ensures AnnouncerOk(after.store, after.created, Log(after), w.announcers[id])
    {
      CommitKeepsAnnouncer(w, message, intent, id);
    }
  }

  lemma CommitTimes(w: World, message: string, intent: Intent)
    requires Times(w) && Enabled(w, Commit(message, intent))
    ensures Times(CommitStep(w, message, intent))
  {
  }

  lemma CommitKeepsAnnouncer(w: World, message: string, intent: Intent, id: nat)
    requires Sound(w) && Enabled(w, Commit(message, intent)) && id in w.announcers
    ensures var after := CommitStep(w, message, intent);
            AnnouncerOk(after.store, after.created, Log(after), w.announcers[id])
  {
    var after, queue := CommitStep(w, message, intent), w.announcers[id].queue;
    assert AnnouncerOk(w.store, w.created, Log(w), w.announcers[id]);
    forall p | 0 <= p < |queue|
      ensures IsTimely(after.created, queue[p])
      ensures IsOfIntent(after.store, queue[p]) ==>
                Fits(Current(after.store, queue[p].clientMessageId).devices, queue[p])
    {
      assert IsTimely(w.created, queue[p]);
      if queue[p].clientMessageId != message {
        assert IsOfIntent(after.store, queue[p]) ==> IsOfIntent(w.store, queue[p]);
      }
    }
  }

  /** Every step keeps the invariant, when a mark is backed. */
  lemma StepKeepsSound(w: World, event: Event)
    requires Sound(w) && Enabled(w, event)
    requires event.MarkHead? ==> IsBacked(w, w.announcers[event.announcer].queue[0])
    ensures Sound(Next(w, event))
  {
    match event
    case Commit(message, intent) => CommitKeeps(w, message, intent);
    case Receipt(id, message, source, recipient, at) => ReceiptKeeps(w, id, message, source, recipient, at);
    case Release(id, message) =>
      ListIsOk(w.store, w.created, w.sending, Log(w), message);
      EnqueueKeeps(w, id, ToAnnounce(w.store, w.sending, message));
    case HookReturns(id, registered) => HookReturnsKeeps(w, id, registered);
    case MarkHead(id) => MarkKeeps(w, id);
    case _ => QuietStepKeepsSound(w, event);
  }

  lemma FewerIntentsKeepStore(before: Store, after: Store)
    requires StoreOk(before) && after.statuses == before.statuses
    requires forall message :: message in after.intents ==>
               && message in before.intents
               && after.intents[message].createdAt == before.intents[message].createdAt
    ensures StoreOk(after) && StoreGrows(before, after)
  {
    assert forall message :: message in after.intents ==> Current(after, message) == Current(before, message);
  }

  lemma QuietStepKeepsSound(w: World, event: Event)
    requires Sound(w) && Enabled(w, event)
    requires event.BeginSend? || event.EndSend? || event.Resolve? || event.Forget? || event.HookThrows? || event.Crash?
    ensures Sound(Next(w, event))
  {
    var after := Next(w, event);
    FewerIntentsKeepStore(w.store, after.store);
    LogFitsGrows(w.store, after.store, Log(w));
    AllAnnouncersKept(w, after);
  }

  /** Every mark of the run counts only sources that are in the log. */
  predicate MarksAreBacked(w: World, events: seq<Event>)
    requires ValidRun(w, events)
    decreases |events|
  {
    events == []
    || (&& (events[0].MarkHead? ==> IsBacked(w, w.announcers[events[0].announcer].queue[0]))
        && MarksAreBacked(Next(w, events[0]), events[1..]))
  }

  lemma {:induction false} RunKeepsSound(w: World, events: seq<Event>)
    requires Sound(w) && ValidRun(w, events) && MarksAreBacked(w, events)
    ensures Sound(Run(w, events))
    decreases |events|
  {
    if events != [] {
      StepKeepsSound(w, events[0]);
      RunKeepsSound(Next(w, events[0]), events[1..]);
    }
  }

  // --- Runs that replace no intent during its announcement ----------------------------------------------

  /** An event of the message waits in an announcement. */
  predicate Holds(w: World, message: string) {
    exists id :: id in w.announcers && exists p :: 0 <= p < |w.announcers[id].queue|
                                                && w.announcers[id].queue[p].clientMessageId == message
  }

  /** No intent is committed under a message ID whose announcement still runs. */
  predicate NeverReplaces(w: World, events: seq<Event>)
    requires ValidRun(w, events)
    decreases |events|
  {
    events == []
    || (&& (events[0].Commit? ==> !Holds(w, events[0].clientMessageId))
        && NeverReplaces(Next(w, events[0]), events[1..]))
  }

  ghost predicate AllCurrent(store: Store, queue: seq<DeliveredEvent>) {
    forall p :: 0 <= p < |queue| && queue[p].clientMessageId in store.intents ==> IsOfIntent(store, queue[p])
  }

  ghost predicate QueuesAreCurrent(w: World) {
    forall id :: id in w.announcers ==> AllCurrent(w.store, w.announcers[id].queue)
  }

  lemma {:induction false} ListIsFor(message: string, intent: Intent, devices: Devices)
    ensures forall p :: 0 <= p < |Unannounced(message, intent, devices)| ==>
              && Unannounced(message, intent, devices)[p].clientMessageId == message
              && Unannounced(message, intent, devices)[p].createdAt == intent.createdAt
  {
    if devices != [] {
      ListIsFor(message, intent, devices[..|devices| - 1]);
    }
  }

  lemma ListIsCurrent(store: Store, sending: map<string, nat>, message: string)
    ensures AllCurrent(store, ToAnnounce(store, sending, message))
  {
    if message in store.intents {
      ListIsFor(message, store.intents[message], Current(store, message).devices);
    }
  }

  lemma StepStaysCurrent(w: World, event: Event)
    requires QueuesAreCurrent(w) && Enabled(w, event)
    requires event.Commit? ==> !Holds(w, event.clientMessageId)
    ensures QueuesAreCurrent(Next(w, event))
  {
    match event
    case Commit(message, intent) =>
      forall id | id in w.announcers ensures AllCurrent(Next(w, event).store, w.announcers[id].queue) {
        assert AllCurrent(w.store, w.announcers[id].queue);
      }
    case Receipt(id, message, source, recipient, at) =>
      ListIsCurrent(AfterReceipt(w.store, message, source, recipient, at), w.sending, message);
    case Release(id, message) => ListIsCurrent(w.store, w.sending, message);
    case _ =>
  }

  /** Every mark of such a run is backed. */
  lemma {:induction false} NeverReplacingIsBacked(w: World, events: seq<Event>)
    requires ValidRun(w, events) && QueuesAreCurrent(w) && NeverReplaces(w, events)
    ensures MarksAreBacked(w, events)
    decreases |events|
  {
    if events != [] {
      StepStaysCurrent(w, events[0]);
      NeverReplacingIsBacked(Next(w, events[0]), events[1..]);
    }
  }

  // --- What holds in every run ----------------------------------------------------------------------

  ghost predicate AlwaysRegistered(events: seq<Event>) {
    forall i :: 0 <= i < |events| && events[i].HookReturns? ==> events[i].registered
  }

  lemma {:induction false} NothingIsSkipped(w: World, events: seq<Event>)
    requires ValidRun(w, events) && AlwaysRegistered(events) && w.skipped == {}
    ensures Run(w, events).skipped == {}
    decreases |events|
  {
    if events != [] {
      assert events[0] == events[0..][0];
      var after := Next(w, events[0]);
      assert after.skipped == {};
      assert forall i :: 0 <= i < |events| - 1 ==> events[1..][i] == events[i + 1];
      NothingIsSkipped(after, events[1..]);
    }
  }

  /** With a registered hook, a source counts as announced only after its hook returned. */
  lemma AnnouncedMeansTheHookReturned(events: seq<Event>, message: string, recipient: Address, index: nat)
    requires ValidRun(EMPTY, events) && AlwaysRegistered(events) && MarksAreBacked(EMPTY, events)
    requires var store := Run(EMPTY, events).store;
             && message in store.intents
             && Find(Current(store, message).devices, recipient).Some?
             && index < Find(Current(store, message).devices, recipient).value.announced
    ensures var w := Run(EMPTY, events);
            var delivery := Find(Current(w.store, message).devices, recipient).value;
            && Unique(delivery.sources) && delivery.announced <= |delivery.sources|
            && Spot(message, w.store.intents[message].createdAt, recipient, index, delivery.sources[index]) in w.ran
  {
    var w := Run(EMPTY, events);
    RunKeepsSound(EMPTY, events);
    NothingIsSkipped(EMPTY, events);
    var devices := Current(w.store, message).devices;
    FoundIsOk(devices, recipient);
    assert IsLogged(Log(w), message, w.store.intents[message].createdAt, recipient, index,
                    Find(devices, recipient).value.sources[index]);
  }

  /** When the hook of a source runs, the hook of every earlier source of that device has returned. */
  lemma HooksRunInOrder(events: seq<Event>, id: nat, registered: bool, index: nat)
    requires ValidRun(EMPTY, events) && MarksAreBacked(EMPTY, events)
    requires Enabled(Run(EMPTY, events), HookReturns(id, registered))
    requires index < |Run(EMPTY, events).announcers[id].queue[0].sources| - 1
    ensures SpotOf(Run(EMPTY, events).announcers[id].queue[0], index) in Log(Run(EMPTY, events))
  {
    var w := Run(EMPTY, events);
    RunKeepsSound(EMPTY, events);
    assert AnnouncerOk(w.store, w.created, Log(w), w.announcers[id]);
    assert Awaited(Log(w), w.announcers[id].queue, 0, index);
  }

  // --- A status only grows while its intent is kept ---------------------------------------------------

  lemma CommitKeepsStore(w: World, message: string, intent: Intent)
    requires StoreOk(w.store) && StoreTimes(w) && Enabled(w, Commit(message, intent))
    ensures StoreOk(CommitStep(w, message, intent).store) && StoreTimes(CommitStep(w, message, intent))
  {
    var after := CommitStep(w, message, intent);
    forall other | other in after.store.intents ensures DevicesOk(Current(after.store, other).devices) {
      assert other != message ==> Current(after.store, other) == Current(w.store, other);
    }
  }

  lemma ReceiptKeepsTimes(w: World, message: string, source: Source, recipient: Address, at: int)
    requires StoreTimes(w)
    ensures StoreTimes(w.(store := AfterReceipt(w.store, message, source, recipient, at)))
  {
    if message in w.store.intents {
      WriteTimes(w, message, Arrive(Current(w.store, message).devices, source, recipient, at));
    }
  }

  lemma StepKeepsStore(w: World, event: Event)
    requires StoreOk(w.store) && StoreTimes(w) && Enabled(w, event)
    ensures StoreOk(Next(w, event).store) && StoreTimes(Next(w, event))
    ensures event.Commit? || StoreGrows(w.store, Next(w, event).store)
  {
    match event
    case Commit(message, intent) => CommitKeepsStore(w, message, intent);
    case Receipt(id, message, source, recipient, at) =>
      ReceiptStoreGrows(w.store, message, source, recipient, at);
      ReceiptKeepsTimes(w, message, source, recipient, at);
    case MarkHead(id) =>
      MarkStoreGrows(w.store, w.announcers[id].queue[0]);
      MarkTimes(w, id);
    case Resolve(message) => FewerIntentsKeepStore(w.store, Next(w, event).store);
    case Forget(message) => FewerIntentsKeepStore(w.store, Next(w, event).store);
    case _ => StoreUnchangedGrows(w.store);
  }

  lemma StepGrows(w: World, event: Event, message: string)
    requires StoreOk(w.store) && StoreTimes(w) && Enabled(w, event)
    requires message in w.store.intents && event != Forget(message)
    ensures message in Next(w, event).store.intents
    ensures DevicesGrow(Current(w.store, message).devices, Current(Next(w, event).store, message).devices)
  {
    StepKeepsStore(w, event);
    if event.Commit? {
      assert Current(Next(w, event).store, message) == Current(w.store, message);
    }
  }

  /** Sources are never dropped or doubled, and the announced count never goes back, in every run. */
  lemma {:induction false} StatusOnlyGrows(w: World, events: seq<Event>, message: string)
    requires StoreOk(w.store) && StoreTimes(w) && ValidRun(w, events)
    requires message in w.store.intents && Forget(message) !in events
    ensures message in Run(w, events).store.intents
    ensures DevicesGrow(Current(w.store, message).devices, Current(Run(w, events).store, message).devices)
    ensures DevicesOk(Current(Run(w, events).store, message).devices)
    decreases |events|
  {
    if events != [] {
      assert events[0] in events;
      StepGrows(w, events[0], message);
      StepKeepsStore(w, events[0]);
      var after := Next(w, events[0]);
      StatusOnlyGrows(after, events[1..], message);
      DevicesGrowTransitively(Current(w.store, message).devices, Current(after.store, message).devices,
                              Current(Run(w, events).store, message).devices);
    }
  }

  /** Every run from the empty world keeps what StatusOnlyGrows asks of its first state. */
  lemma {:induction false} RunKeepsStore(w: World, events: seq<Event>)
    requires StoreOk(w.store) && StoreTimes(w) && ValidRun(w, events)
    ensures StoreOk(Run(w, events).store) && StoreTimes(Run(w, events))
    decreases |events|
  {
    if events != [] {
      StepKeepsStore(w, events[0]);
      RunKeepsStore(Next(w, events[0]), events[1..]);
    }
  }

  // --- No list during a send -------------------------------------------------------------------------

  function OpenAfter(count: nat, event: Event, message: string): nat {
    match event
    case BeginSend(other) => if other == message then count + 1 else count
    case EndSend(other) => if other == message && count > 0 then count - 1 else count
    case Crash => 0
    case _ => count
  }

  /** The sends of a message that are open, from a count and the events after it. */
  function OpenSends(count: nat, events: seq<Event>, message: string): nat
    decreases |events|
  {
    if events == [] then count else OpenSends(OpenAfter(count, events[0], message), events[1..], message)
  }

  ghost predicate Counts(w: World, message: string, count: nat) {
    (message in w.sending <==> count > 0) && (count > 0 ==> w.sending[message] == count)
  }

  lemma {:induction false} SendsAreCounted(w: World, events: seq<Event>, message: string, count: nat)
    requires ValidRun(w, events) && Counts(w, message, count)
    ensures Counts(Run(w, events), message, OpenSends(count, events, message))
    decreases |events|
  {
    if events != [] {
      var after, more := Next(w, events[0]), OpenAfter(count, events[0], message);
      assert Counts(after, message, more);
      SendsAreCounted(after, events[1..], message, more);
    }
  }

  function QueueOf(w: World, id: nat): seq<DeliveredEvent> {
    if id in w.announcers then w.announcers[id].queue else []
  }

  /** A list of events is built only when the message has a result and no send of it is open. */
  lemma NoListDuringASend(events: seq<Event>, event: Event, id: nat)
    requires ValidRun(EMPTY, events) && Enabled(Run(EMPTY, events), event)
    requires var w := Run(EMPTY, events); |QueueOf(Next(w, event), id)| > |QueueOf(w, id)|
    ensures (event.Receipt? || event.Release?) && event.announcer == id
    ensures var w := Run(EMPTY, events);
            && event.clientMessageId in w.store.intents
            && w.store.intents[event.clientMessageId].hasResult
            && OpenSends(0, events, event.clientMessageId) == 0
  {
    var w := Run(EMPTY, events);
    assert event.Receipt? || event.Release?;
    SendsAreCounted(EMPTY, events, event.clientMessageId, 0);
  }

  // --- A list that stops is announced again from there --------------------------------------------------

  lemma {:induction false} PutInFront(front: Devices, last: Entry<Address, Delivery>, key: Address, delivery: Delivery)
    requires Find(front, key).Some?
    ensures Put(front + [last], key, delivery) == Put(front, key, delivery) + [last]
  {
    assert (front + [last])[0] == front[0];
    if front[0].key != key {
      assert (front + [last])[1..] == front[1..] + [last];
      PutInFront(front[1..], last, key, delivery);
    }
  }

  lemma {:induction false} PutLast(front: Devices, last: Entry<Address, Delivery>, delivery: Delivery)
    requires UniqueKeys(front + [last])
    ensures Put(front + [last], last.key, delivery) == front + [Entry(last.key, delivery)]
  {
    if front != [] {
      var all := front + [last];
      assert all[0] == front[0] && all[|front|] == last;
      assert all[1..] == front[1..] + [last];
      PutLast(front[1..], last, delivery);
    }
  }

  lemma {:induction false} FindInFront(front: Devices, last: Entry<Address, Delivery>, key: Address)
    requires Find(front, key).Some?
    ensures Find(front + [last], key) == Find(front, key)
  {
    assert (front + [last])[0] == front[0];
    if front[0].key != key {
      assert (front + [last])[1..] == front[1..] + [last];
      FindInFront(front[1..], last, key);
    }
  }

  lemma {:induction false} ShiftedEvents(
      message: string, intent: Intent, entry: Entry<Address, Delivery>, next: Entry<Address, Delivery>, to: nat)
    requires entry.value.announced < to <= |entry.value.sources|
    requires next == entry.(value := entry.value.(announced := entry.value.announced + 1))
    ensures EventsOf(message, intent, next, to) == EventsOf(message, intent, entry, to)[1..]
  {
    if to - 1 > entry.value.announced {
      ShiftedEvents(message, intent, entry, next, to - 1);
    }
  }

  /** Marking the first event of a list leaves exactly the rest of the list. */
  lemma {:induction false} MarkingTheFirstLeavesTheRest(message: string, intent: Intent, devices: Devices)
    requires DevicesOk(devices) && Unannounced(message, intent, devices) != []
    ensures var events := Unannounced(message, intent, devices);
            Unannounced(message, intent, Mark(devices, events[0])) == events[1..]
  {
    var n := |devices| - 1;
    var front, last := devices[..n], devices[n];
    var events := Unannounced(message, intent, devices);
    assert devices == front + [last];
    if Unannounced(message, intent, front) != [] {
      MarkingTheFirstLeavesTheRest(message, intent, front);
      MarkingInFrontLeavesTheRest(message, intent, front, last);
    } else {
      MarkingTheFirstOfTheLastDevice(message, intent, front, last);
    }
  }

  lemma UnannouncedOfMore(message: string, intent: Intent, front: Devices, last: Entry<Address, Delivery>)
    ensures Unannounced(message, intent, front + [last])
            == Unannounced(message, intent, front) + EventsOf(message, intent, last, |last.value.sources|)
  {
    assert (front + [last])[..|front|] == front && (front + [last])[|front|] == last;
  }

  lemma MarkingInFront(message: string, intent: Intent, front: Devices, last: Entry<Address, Delivery>)
    requires Unannounced(message, intent, front) != []
    ensures var first := Unannounced(message, intent, front)[0];
            Mark(front + [last], first) == Mark(front, first) + [last]
  {
    var first := Unannounced(message, intent, front)[0];
    UnannouncedIsExactlyWhatIsLeft(message, intent, front, first);
    FirstIsFound(message, intent, front, first);
    FindInFront(front, last, first.recipient);
    PutInFront(front, last, first.recipient, MarkDelivery(Find(front, first.recipient).value, |first.sources|));
  }

  lemma MarkingInFrontLeavesTheRest(
      message: string, intent: Intent, front: Devices, last: Entry<Address, Delivery>)
    requires Unannounced(message, intent, front) != []
    requires var events := Unannounced(message, intent, front);
             Unannounced(message, intent, Mark(front, events[0])) == events[1..]
    ensures var events := Unannounced(message, intent, front + [last]);
            events != [] && Unannounced(message, intent, Mark(front + [last], events[0])) == events[1..]
  {
    var events, more := Unannounced(message, intent, front), EventsOf(message, intent, last, |last.value.sources|);
    MarkingInFront(message, intent, front, last);
    UnannouncedOfMore(message, intent, front, last);
    UnannouncedOfMore(message, intent, Mark(front, events[0]), last);
    HeadOfBoth(events, more);
  }

  lemma HeadOfBoth(events: seq<DeliveredEvent>, more: seq<DeliveredEvent>)
    requires events != []
    ensures (events + more)[0] == events[0] && (events + more)[1..] == events[1..] + more
  {
  }

  lemma FirstIsFound(message: string, intent: Intent, devices: Devices, event: DeliveredEvent)
    requires exists i :: 0 <= i < |devices| && LeftToAnnounce(message, intent, devices, i, event)
    ensures Find(devices, event.recipient).Some?
  {
  }

  lemma MarkingTheFirstOfTheLastDevice(
      message: string, intent: Intent, front: Devices, last: Entry<Address, Delivery>)
    requires DevicesOk(front + [last]) && Unannounced(message, intent, front) == []
    requires Unannounced(message, intent, front + [last]) != []
    ensures var events := Unannounced(message, intent, front + [last]);
            Unannounced(message, intent, Mark(front + [last], events[0])) == events[1..]
  {
    UnannouncedOfMore(message, intent, front, last);
    var events := EventsOf(message, intent, last, |last.value.sources|);
    var next := Entry(last.key, last.value.(announced := last.value.announced + 1));
    NothingBefore(Unannounced(message, intent, front), events);
    MarkLast(message, intent, front, last);
    UnannouncedOfMore(message, intent, front, next);
    ShiftedEvents(message, intent, last, next, |last.value.sources|);
    NothingBefore(Unannounced(message, intent, front), events[1..]);
  }

  lemma NothingBefore(before: seq<DeliveredEvent>, events: seq<DeliveredEvent>)
    requires before == []
    ensures before + events == events
  {
  }

  lemma MarkLast(message: string, intent: Intent, front: Devices, last: Entry<Address, Delivery>)
    requires UniqueKeys(front + [last]) && last.value.announced < |last.value.sources|
    ensures var next := Entry(last.key, last.value.(announced := last.value.announced + 1));
            Mark(front + [last], EventAt(message, intent, last, last.value.announced)) == front + [next]
  {
    var event := EventAt(message, intent, last, last.value.announced);
    FindAt(front + [last], |front|);
    PutLast(front, last, MarkDelivery(last.value, |event.sources|));
  }

  /** The store after the first events of a list were marked in order. */
  function AfterMarks(store: Store, events: seq<DeliveredEvent>): Store
    decreases |events|
  {
    if events == [] then store else AfterMarks(AfterMark(store, events[0]), events[1..])
  }

  lemma TheRestAfterOne(store: Store, sending: map<string, nat>, message: string)
    requires StoreOk(store) && ToAnnounce(store, sending, message) != []
    ensures var events := ToAnnounce(store, sending, message);
            var after := AfterMark(store, events[0]);
            && StoreOk(after) && ToAnnounce(after, sending, message) == events[1..]
  {
    var events, devices := ToAnnounce(store, sending, message), Current(store, message).devices;
    ListIsFor(message, store.intents[message], devices);
    MarkingTheFirstLeavesTheRest(message, store.intents[message], devices);
    MarkGrows(devices, events[0]);
    forall other | other in store.intents
      ensures Current(AfterMark(store, events[0]), other).devices
              == if other == message then Mark(devices, events[0]) else Current(store, other).devices
    {
      WriteSetsOneStatus(store, message, Mark(devices, events[0]), other);
    }
  }

  /**
   * An announcement that marked the first events of its list and then stopped
   * leaves the others: the next list of the message is exactly the rest.
   */
  lemma {:induction false} TheRestIsAnnouncedAgain(
      store: Store, sending: map<string, nat>, message: string, count: nat)
    requires StoreOk(store) && count <= |ToAnnounce(store, sending, message)|
    ensures var events := ToAnnounce(store, sending, message);
            ToAnnounce(AfterMarks(store, events[..count]), sending, message) == events[count..]
    decreases count
  {
    var events := ToAnnounce(store, sending, message);
    if count > 0 {
      TheRestAfterOne(store, sending, message);
      TheRestIsAnnouncedAgain(AfterMark(store, events[0]), sending, message, count - 1);
      assert events[..count][0] == events[0] && events[..count][1..] == events[1..][..count - 1];
      assert events[1..][count - 1..] == events[count..];
    } else {
      assert events[..0] == [];
    }
  }

  // --- What each step does, and an announcement that nothing disturbs ---------------------------------------

  /** The list that a step queues for an announcement: that of its receipt or of its release. */
  function ListOf(w: World, event: Event, id: nat): seq<DeliveredEvent> {
    match event
    case Receipt(other, message, source, recipient, at) =>
      if other == id
      then ReceiptEvents(AfterReceipt(w.store, message, source, recipient, at), w.sending, message, recipient) else []
    case Release(other, message) => if other == id then ToAnnounce(w.store, w.sending, message) else []
    case _ => []
  }

  /** The event whose hook returned was the first of its announcement, and it is in the log under its last source. */
  ghost predicate RanFor(w: World, event: Event, registered: bool, spot: Spot)
    requires Enabled(w, event)
  {
    event.HookReturns? && event.registered == registered && Announces(w.announcers[event.announcer].queue[0], spot)
  }

  /**
   * A list joins the queue of its announcement, a mark takes the first event, and
   * a throw or a crash ends the announcement. A hook is logged once it returned.
   */
  lemma QueueIff(w: World, event: Event, id: nat)
    requires Enabled(w, event)
    ensures QueueOf(Next(w, event), id)
            == if event == MarkHead(id) then QueueOf(w, id)[1..]
               else if event == HookThrows(id) || event.Crash? then []
               else QueueOf(w, id) + ListOf(w, event, id)
    ensures forall spot ::
              && (spot in Next(w, event).ran <==> spot in w.ran || RanFor(w, event, true, spot))
              && (spot in Next(w, event).skipped <==> spot in w.skipped || RanFor(w, event, false, spot))
  {
  }

  /** What each step does to the intents. Only a receipt and a mark write a status. */
  lemma IntentsIff(w: World, event: Event, message: string)
    requires Enabled(w, event)
    ensures var before, after := w.store, Next(w, event).store;
            && (message in after.intents <==>
                  || (event.Commit? && event.clientMessageId == message)
                  || (message in before.intents && event != Forget(message)))
            && (message in after.intents ==>
                  after.intents[message]
                  == if event.Commit? && event.clientMessageId == message then event.intent
                     else if event == Resolve(message) then before.intents[message].(hasResult := true)
                     else before.intents[message])
            && (event.Receipt? ==>
                  after == AfterReceipt(before, event.clientMessageId, event.source, event.recipient, event.at))
            && (event.MarkHead? ==> after == AfterMark(before, w.announcers[event.announcer].queue[0]))
            && (!event.Receipt? && !event.MarkHead? ==> after.statuses == before.statuses)
  {
  }

  /** The hooks and marks of a number of events, with no throw and nothing between them. */
  function Undisturbed(id: nat, registered: bool, count: nat): seq<Event> {
    if count == 0 then [] else [HookReturns(id, registered), MarkHead(id)] + Undisturbed(id, registered, count - 1)
  }

  /** The log after the hooks of a queue: what it held, and the last source of each event. */
  ghost predicate LoggedAfter(before: set<Spot>, after: set<Spot>, queue: seq<DeliveredEvent>) {
    forall spot :: spot in after <==> spot in before || exists i :: 0 <= i < |queue| && Announces(queue[i], spot)
  }

  /** The world after the whole queue of an announcement was announced. */
  ghost predicate Announced(w: World, id: nat, registered: bool, after: World) {
    && after.store == AfterMarks(w.store, QueueOf(w, id))
    && after.sending == w.sending && after.created == w.created
    && after.announcers == w.announcers[id := Announcer([], false)]
    && LoggedAfter(w.ran, after.ran, if registered then QueueOf(w, id) else [])
    && LoggedAfter(w.skipped, after.skipped, if registered then [] else QueueOf(w, id))
  }

  lemma LoggedOneMore(before: set<Spot>, middle: set<Spot>, after: set<Spot>, queue: seq<DeliveredEvent>)
    requires queue != [] && (forall spot :: spot in middle <==> spot in before || Announces(queue[0], spot))
    requires LoggedAfter(middle, after, queue[1..])
    ensures LoggedAfter(before, after, queue)
  {
    forall spot
      ensures (exists i :: 0 <= i < |queue| && Announces(queue[i], spot)) <==>
              Announces(queue[0], spot) || exists i :: 0 <= i < |queue[1..]| && Announces(queue[1..][i], spot)
    {
      forall i | 0 <= i < |queue| && Announces(queue[i], spot) && !Announces(queue[0], spot)
        ensures exists j :: 0 <= j < |queue[1..]| && Announces(queue[1..][j], spot)
      {
        assert queue[1..][i - 1] == queue[i];
      }
    }
  }

  /** One hook and its mark. */
  function AfterOne(w: World, id: nat, registered: bool): World
    requires Enabled(w, HookReturns(id, registered))
  {
    Next(Next(w, HookReturns(id, registered)), MarkHead(id))
  }

  lemma OneIsAnnounced(w: World, id: nat, registered: bool)
    requires Enabled(w, HookReturns(id, registered))
    ensures var after, queue := AfterOne(w, id, registered), w.announcers[id].queue;
            && after.store == AfterMark(w.store, queue[0])
            && after.sending == w.sending && after.created == w.created
            && after.announcers == w.announcers[id := Announcer(queue[1..], false)]
            && (forall spot :: spot in after.ran <==> spot in w.ran || (registered && Announces(queue[0], spot)))
            && (forall spot ::
                  spot in after.skipped <==> spot in w.skipped || (!registered && Announces(queue[0], spot)))
  {
  }

  lemma OneMoreRuns(w: World, id: nat, registered: bool, rest: seq<Event>)
    requires Enabled(w, HookReturns(id, registered)) && ValidRun(AfterOne(w, id, registered), rest)
    ensures var events := [HookReturns(id, registered), MarkHead(id)] + rest;
            ValidRun(w, events) && Run(w, events) == Run(AfterOne(w, id, registered), rest)
  {
    var events := [HookReturns(id, registered), MarkHead(id)] + rest;
    assert events[1..] == [MarkHead(id)] + rest && events[1..][1..] == rest;
  }

  lemma OneMoreAnnounced(w: World, id: nat, registered: bool, after: World)
    requires Enabled(w, HookReturns(id, registered))
    requires Announced(AfterOne(w, id, registered), id, registered, after)
    ensures Announced(w, id, registered, after)
  {
    var queue, next := QueueOf(w, id), AfterOne(w, id, registered);
    OneIsAnnounced(w, id, registered);
    if registered {
      LoggedOneMore(w.ran, next.ran, after.ran, queue);
    } else {
      LoggedOneMore(w.skipped, next.skipped, after.skipped, queue);
    }
  }

  /** An announcement that nothing disturbs runs each hook once, in order, and marks each event after its hook. */
  lemma {:induction false} UndisturbedRun(w: World, id: nat, registered: bool)
    requires id in w.announcers && !w.announcers[id].settled
    ensures var events := Undisturbed(id, registered, |QueueOf(w, id)|);
            ValidRun(w, events) && Announced(w, id, registered, Run(w, events))
    decreases |QueueOf(w, id)|
  {
    var queue := QueueOf(w, id);
    if queue != [] {
      OneIsAnnounced(w, id, registered);
      var next, rest := AfterOne(w, id, registered), Undisturbed(id, registered, |queue| - 1);
      UndisturbedRun(next, id, registered);
      OneMoreRuns(w, id, registered, rest);
      OneMoreAnnounced(w, id, registered, Run(next, rest));
    }
  }

  lemma OneMoreEvent(w: World, event: Event, rest: seq<Event>)
    requires Enabled(w, event) && ValidRun(Next(w, event), rest)
    ensures ValidRun(w, [event] + rest) && Run(w, [event] + rest) == Run(Next(w, event), rest)
  {
    assert ([event] + rest)[1..] == rest;
  }

  lemma ReleaseQueuesTheList(w: World, id: nat, message: string)
    requires id !in w.announcers
    ensures var queue := ToAnnounce(w.store, w.sending, message);
            Next(w, Release(id, message)) == w.(announcers := w.announcers[id := Announcer(queue, false)])
  {
    assert [] + ToAnnounce(w.store, w.sending, message) == ToAnnounce(w.store, w.sending, message);
  }

  lemma NothingIsLeft(store: Store, sending: map<string, nat>, message: string)
    requires StoreOk(store)
    ensures ToAnnounce(AfterMarks(store, ToAnnounce(store, sending, message)), sending, message) == []
  {
    var queue := ToAnnounce(store, sending, message);
    TheRestIsAnnouncedAgain(store, sending, message, |queue|);
    assert queue[..|queue|] == queue && queue[|queue|..] == [];
  }

  /**
   * A released message whose announcement nothing disturbs is announced whole:
   * exactly the hooks of its list ran, and nothing is left to announce.
   */
  lemma AnUndisturbedReleaseAnnouncesAll(w: World, id: nat, registered: bool, message: string)
    requires StoreOk(w.store) && id !in w.announcers
    ensures var queue := ToAnnounce(w.store, w.sending, message);
            var events := [Release(id, message)] + Undisturbed(id, registered, |queue|);
            && ValidRun(w, events)
            && var after := Run(w, events);
               && ToAnnounce(after.store, after.sending, message) == [] && QueueOf(after, id) == []
               && LoggedAfter(w.ran, after.ran, if registered then queue else [])
               && LoggedAfter(w.skipped, after.skipped, if registered then [] else queue)
  {
    var queue := ToAnnounce(w.store, w.sending, message);
    var released, rest := Next(w, Release(id, message)), Undisturbed(id, registered, |queue|);
    ReleaseQueuesTheList(w, id, message);
    UndisturbedRun(released, id, registered);
    OneMoreEvent(w, Release(id, message), rest);
    NothingIsLeft(w.store, w.sending, message);
  }

  // --- An intent that is replaced during an announcement --------------------------------------------------

  /** A direct message to one account. */
  function IntentAt(createdAt: int, user: string, hasResult: bool): Intent {
    Intent(createdAt, 0, false, user, [], hasResult)
  }

  function FirstDevice(user: string): Address {
    Address(user, 1)
  }

  /** The devices after one source of the first device arrived, with an announced count. */
  function OneDevice(user: string, announced: nat): Devices {
    [Entry(FirstDevice(user), Delivery([Relay], 7, announced))]
  }

  /** The event of that source under the intent of a creation time. */
  function OneEvent(message: string, createdAt: int, user: string): DeliveredEvent {
    DeliveredEvent(message, createdAt, FirstDevice(user), Relay, [Relay], false, 7, 0, None)
  }

  /** A send whose receipt starts an announcement: its hook returns, and its mark is still to come. */
  function Announcing(message: string, user: string): seq<Event> {
    [Commit(message, IntentAt(1, user, false)), Resolve(message), Receipt(0, message, Relay, FirstDevice(user), 7),
     HookReturns(0, true)]
  }

  /** The message ID is forgotten and sent again, its receipt comes before its result, and then the old mark. */
  function Replacing(message: string, user: string): seq<Event> {
    [Forget(message), Commit(message, IntentAt(2, user, false)), Receipt(1, message, Relay, FirstDevice(user), 7),
     MarkHead(0)]
  }

  /** The announcement of the first intent, before its mark. */
  function BeforeTheMark(message: string, user: string): World {
    World(Store(map[message := IntentAt(1, user, true)], map[message := Status(1, OneDevice(user, 0))]),
          map[message := 1], map[], map[0 := Announcer([OneEvent(message, 1, user)], true)],
          {Spot(message, 1, FirstDevice(user), 0, Relay)}, {})
  }

  lemma FirstSource(store: Store, message: string, user: string)
    requires message in store.intents && Addresses(store.intents[message], user)
    requires Current(store, message).devices == []
    ensures AfterReceipt(store, message, Relay, FirstDevice(user), 7)
            == store.(statuses := store.statuses[message :=
                 Status(store.intents[message].createdAt, OneDevice(user, 0))])
  {
    assert AddSource(Delivery([], 7, 0), Relay).sources == [Relay];
    assert Arrive([], Relay, FirstDevice(user), 7) == OneDevice(user, 0);
  }

  lemma OneEventIsLeft(message: string, user: string)
    ensures Unannounced(message, IntentAt(1, user, true), OneDevice(user, 0)) == [OneEvent(message, 1, user)]
  {
    var intent, devices := IntentAt(1, user, true), OneDevice(user, 0);
    assert Unannounced(message, intent, devices[..0]) == [];
    assert devices[0].value.sources[..1] == [Relay];
    assert EventsOf(message, intent, devices[0], 1) == [OneEvent(message, 1, user)];
  }

  lemma RunConcat(w: World, first: seq<Event>, second: seq<Event>)
    requires ValidRun(w, first) && ValidRun(Run(w, first), second)
    ensures ValidRun(w, first + second) && Run(w, first + second) == Run(Run(w, first), second)
    decreases |first|
  {
    if first == [] {
      assert first + second == second;
    } else {
      RunConcat(Next(w, first[0]), first[1..], second);
      assert (first + second)[1..] == first[1..] + second;
    }
  }

  lemma AnnouncingRuns(message: string, user: string)
    ensures ValidRun(EMPTY, Announcing(message, user))
    ensures Run(EMPTY, Announcing(message, user)) == BeforeTheMark(message, user)
  {
    var events := Announcing(message, user);
    var committed := Next(EMPTY, events[0]);
    var resolved := Next(committed, events[1]);
    FirstSource(resolved.store, message, user);
    OneEventIsLeft(message, user);
    var received := Next(resolved, events[2]);
    assert received.announcers[0].queue == [OneEvent(message, 1, user)];
    assert SpotOf(OneEvent(message, 1, user), 0) == Spot(message, 1, FirstDevice(user), 0, Relay);
    assert Next(received, events[3]) == BeforeTheMark(message, user);
    RunOfFour(EMPTY, events);
  }

  lemma RunOfFour(w: World, events: seq<Event>)
    requires |events| == 4
    requires Enabled(w, events[0]) && Enabled(Next(w, events[0]), events[1])
    requires Enabled(Next(Next(w, events[0]), events[1]), events[2])
    requires Enabled(Next(Next(Next(w, events[0]), events[1]), events[2]), events[3])
    ensures ValidRun(w, events)
    ensures Run(w, events) == Next(Next(Next(Next(w, events[0]), events[1]), events[2]), events[3])
  {
    var one, two, three := events[1..], events[2..], events[3..];
    assert one[0] == events[1] && one[1..] == two && two[0] == events[2] && two[1..] == three;
    assert three[0] == events[3] && three[1..] == [];
    var third := Next(Next(w, events[0]), events[1]);
    var fourth := Next(third, events[2]);
    assert ValidRun(Next(fourth, events[3]), three[1..]) && Run(Next(fourth, events[3]), three[1..])
           == Next(fourth, events[3]);
    assert ValidRun(fourth, three) && Run(fourth, three) == Next(fourth, events[3]);
    assert ValidRun(third, two) && Run(third, two) == Next(fourth, events[3]);
  }

  lemma ReplacingRuns(message: string, user: string)
    ensures var w := BeforeTheMark(message, user);
            && ValidRun(w, Replacing(message, user))
            && var after := Run(w, Replacing(message, user));
               && after.store == Store(map[message := IntentAt(2, user, false)],
                                       map[message := Status(2, OneDevice(user, 1))])
               && Log(after) == Log(w)
  {
    var w, events := BeforeTheMark(message, user), Replacing(message, user);
    var forgotten := Next(w, events[0]);
    var committed := Next(forgotten, events[1]);
    assert committed.store.intents == map[message := IntentAt(2, user, false)];
    FirstSource(committed.store, message, user);
    var received := Next(committed, events[2]);
    assert received.store.statuses == map[message := Status(2, OneDevice(user, 0))];
    assert received.announcers[0] == w.announcers[0];
    assert Mark(OneDevice(user, 0), OneEvent(message, 1, user)) == OneDevice(user, 1);
    assert Next(received, events[3]).store.statuses == map[message := Status(2, OneDevice(user, 1))];
    RunOfFour(w, events);
  }

  /**
   * The mark of an announcement does not look at the creation time of the
   * intent. When the intent of a message ID is replaced while its announcement
   * runs, the mark counts a source of the new intent whose hook never ran, in a
   * run from the empty world in which every hook is registered and returns.
   */
  lemma ReplacedIntentLosesAnAnnouncement(message: string, user: string)
    ensures var events := Announcing(message, user) + Replacing(message, user);
            && ValidRun(EMPTY, events) && AlwaysRegistered(events)
            && var w := Run(EMPTY, events);
               && message in w.store.intents && w.store.intents[message].createdAt == 2
               && Current(w.store, message).devices == OneDevice(user, 1)
               && Spot(message, 2, FirstDevice(user), 0, Relay) !in Log(w)
  {
    AnnouncingRuns(message, user);
    ReplacingRuns(message, user);
    RunConcat(EMPTY, Announcing(message, user), Replacing(message, user));
  }
}
