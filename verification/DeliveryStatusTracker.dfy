/**
 * The tracker that a client keeps (client/delivery-status.ts). Each method is
 * one step of the model, and a list of events is built by the source's loops.
 */
module DeliveryStatusTracking {
  import opened Options
  import opened Sequences
  import opened Associations
  import opened DeliveryStatus
  import opened DeliveryAnnouncing

  /** What the hook does for one event: it returns, or it throws and ends the announcement. */
  datatype Outcome = Returns | Throws

  /** The events whose hook returned before the first throw. */
  function ReturnedBefore(outcomes: seq<Outcome>, to: nat): (count: nat)
    requires to <= |outcomes|
    ensures count <= to
    ensures forall i :: 0 <= i < count ==> outcomes[i].Returns?
    ensures count < to ==> outcomes[count].Throws?
  {
    if to == 0 then 0
    else
      var before := ReturnedBefore(outcomes, to - 1);
      if before == to - 1 && outcomes[to - 1].Returns? then to else before
  }

  class DeliveryStatusTracker {
    var store: Store
    /** The client message IDs that a send of this client is posting, with a count of the sends. */
    var sending: map<string, nat>

    constructor (store: Store)
      ensures this.store == store && sending == map[]
    {
      this.store, sending := store, map[];
    }

    method BeginSend(clientMessageId: string)
      modifies this`sending
      ensures sending == CountedUp(old(sending), clientMessageId)
    {
      var count := if clientMessageId in sending then sending[clientMessageId] else 0;
      sending := sending[clientMessageId := count + 1];
    }

    method EndSend(clientMessageId: string)
      modifies this`sending
      ensures sending == CountedDown(old(sending), clientMessageId)
    {
      var count := (if clientMessageId in sending then sending[clientMessageId] else 0) as int - 1;
      if count > 0 {
        sending := sending[clientMessageId := count];
      } else {
        sending := sending - {clientMessageId};
      }
    }

    method CollectDevice(message: string, intent: Intent, entry: Entry<Address, Delivery>)
      returns (events: seq<DeliveredEvent>)
      ensures events == EventsOf(message, intent, entry, |entry.value.sources|)
    {
      events := [];
      var index := entry.value.announced;
      while index < |entry.value.sources|
        invariant index >= entry.value.announced
        invariant index <= |entry.value.sources| ==> events == EventsOf(message, intent, entry, index)
        invariant index > |entry.value.sources| ==> index == entry.value.announced && events == []
      {
        events := events + [EventAt(message, intent, entry, index)];
        index := index + 1;
      }
    }

    /** One event for each source of each device that is not announced. */
    method CollectUnannounced(message: string, intent: Intent, devices: Devices) returns (events: seq<DeliveredEvent>)
      ensures events == Unannounced(message, intent, devices)
    {
      events := [];
      for i := 0 to |devices|
        invariant events == Unannounced(message, intent, devices[..i])
      {
        var more := CollectDevice(message, intent, devices[i]);
        UnannouncedOfMore(message, intent, devices[..i], devices[i]);
        assert devices[..i + 1] == devices[..i] + [devices[i]];
        events := events + more;
      }
      assert devices[..|devices|] == devices;
    }

    /** Apply one source of one receipt. */
    method Apply(clientMessageId: string, source: Source, recipient: Address, at: int)
      returns (events: seq<DeliveredEvent>)
      modifies this`store
      ensures store == AfterReceipt(old(store), clientMessageId, source, recipient, at)
      ensures events == ReceiptEvents(store, sending, clientMessageId, recipient)
    {
      if clientMessageId !in store.intents || !Addresses(store.intents[clientMessageId], recipient.userId) {
        return [];
      }
      var intent := store.intents[clientMessageId];
      var devices := Current(store, clientMessageId).devices;
      var delivery := DeliveryOf(devices, recipient, at);
      if source !in delivery.sources {
        delivery := delivery.(sources := delivery.sources + [source]);
      }
      devices := Put(devices, recipient, delivery);
      WriteSetsOneStatus(store, clientMessageId, devices, clientMessageId);
      store := Write(store, clientMessageId, devices);
      if !intent.hasResult || clientMessageId in sending {
        return [];
      }
      events := CollectUnannounced(clientMessageId, intent, devices);
    }

    /** The deliveries that waited for the send of this message. */
    method Release(clientMessageId: string) returns (events: seq<DeliveredEvent>)
      ensures events == ToAnnounce(store, sending, clientMessageId)
    {
      if clientMessageId in sending || clientMessageId !in store.intents {
        return [];
      }
      var intent := store.intents[clientMessageId];
      if !intent.hasResult {
        return [];
      }
      events := CollectUnannounced(clientMessageId, intent, Current(store, clientMessageId).devices);
    }

    method MarkAnnounced(event: DeliveredEvent)
      modifies this`store
      ensures store == AfterMark(old(store), event)
    {
      if event.clientMessageId in store.intents {
        var devices := Current(store, event.clientMessageId).devices;
        var delivery := Find(devices, event.recipient);
        if delivery.Some? {
          var value := delivery.value;
          var announced := if |event.sources| < |value.sources| then |event.sources| else |value.sources|;
          if announced > value.announced {
            value := value.(announced := announced);
          }
          devices := Put(devices, event.recipient, value);
        }
        store := Write(store, event.clientMessageId, devices);
      }
    }

    /**
     * Run the hook for each event in order, and mark each event after its hook
     * returned. A throw ends the announcement and leaves that event and each
     * later one as they are. With no hook, every event is marked.
     */
    method Announce(registered: bool, events: seq<DeliveredEvent>, outcomes: seq<Outcome>)
      returns (completed: bool, ghost marked: nat)
      requires |outcomes| == |events|
      modifies this`store
      ensures marked == if registered then ReturnedBefore(outcomes, |events|) else |events|
      ensures completed <==> marked == |events|
      ensures store == AfterMarks(old(store), events[..marked])
    {
      marked := 0;
      var i := 0;
      while i < |events|
        invariant 0 <= i <= |events| && marked == i
        invariant registered ==> ReturnedBefore(outcomes, i) == i
        invariant store == AfterMarks(old(store), events[..i])
      {
        if registered && outcomes[i].Throws? {
          StopsAt(outcomes, i, |events|);
          return false, marked;
        }
        AfterOneMore(old(store), events, i);
        MarkAnnounced(events[i]);
        i := i + 1;
        marked := i;
      }
      assert events[..|events|] == events;
      return true, marked;
    }
  }

  lemma {:induction false} AfterOneMore(store: Store, events: seq<DeliveredEvent>, i: nat)
    requires i < |events|
    ensures AfterMarks(store, events[..i + 1]) == AfterMark(AfterMarks(store, events[..i]), events[i])
    decreases i
  {
    if i == 0 {
      assert events[..1][1..] == [];
    } else {
      AfterOneMore(AfterMark(store, events[0]), events[1..], i - 1);
      assert events[..i + 1][1..] == events[1..][..i] && events[..i][1..] == events[1..][..i - 1];
    }
  }

  lemma {:induction false} StopsAt(outcomes: seq<Outcome>, i: nat, to: nat)
    requires i < to <= |outcomes| && ReturnedBefore(outcomes, i) == i && outcomes[i].Throws?
    ensures ReturnedBefore(outcomes, to) == i
  {
    if to > i + 1 {
      StopsAt(outcomes, i, to - 1);
    }
  }
}
