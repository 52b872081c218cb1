/**
 * The group fetcher of a client (client/group-fetcher.ts), with the stored
 * groups that it updates. Each method is one atomic step of GroupFetchModel,
 * and the theorems over runs of those steps are about every sequence of calls.
 */
module GroupFetching {
  import opened Options
  import opened Sequences
  import opened GroupReceiveRecord
  import opened GroupFetchModel
  import opened GroupFreshness

  class GroupFetcher {
    var store: map<string, Stored>
    var index: seq<string>
    var inFlight: map<string, Flight>
    var now: int

    ghost function View(): World
      reads this
    {
      World(store, index, inFlight, now)
    }

    constructor (now: int)
      ensures View() == World(map[], [], map[], now)
    {
      store, index, inFlight := map[], [], map[];
      this.now := now;
    }

    method RaiseInFlight(group: string, revision: int)
      modifies this`inFlight
      ensures View() == Raise(old(View()), group, revision)
    {
      if group in inFlight {
        var running := inFlight[group];
        var raised := if running.raised.Some? then Max(running.raised.value, revision) else revision;
        inFlight := inFlight[group := running.(raised := Some(raised))];
      }
    }

    method UpdateReceiveRecord(group: string, record: Record)
      modifies this`store, this`index
      ensures View() == PutRecord(old(View()), group, record)
    {
      var stored := if group in store then store[group].(receive := record) else Stored(record, false, None);
      if group !in index {
        index := index + [group];
      }
      store := store[group := stored];
    }

    method StoreMasterKey(group: string)
      modifies this`store, this`index
      ensures View() == StoreKeyStep(old(View()), group)
    {
      var stored := if group in store then store[group] else Stored(NewRecord(FromLocal), false, None);
      if group !in index {
        index := index + [group];
      }
      store := store[group := stored.(hasKey := true)];
    }

    method DeleteRecord(group: string)
      modifies this`store, this`index
      ensures View() == RemoveStored(old(View()), group)
    {
      store := store - {group};
      index := Filter(index, id => id != group);
    }

    /** Raise the required revision of the group to a claim. */
    method Claim(group: string, revision: int)
      modifies this
      ensures View() == ClaimStep(old(View()), group, revision)
    {
      RaiseInFlight(group, revision);
      var record := if group in store then store[group].receive else NewRecord(FromLocal);
      if revision > record.requiredRevision {
        record := record.(requiredRevision := revision);
      }
      UpdateReceiveRecord(group, record);
    }

    /** Admit the context of a group. False refuses it, because the sender device is at its cap. */
    method AdmitContext(group: string, revision: int, sender: SenderDevice, waiting: set<string>)
      returns (admitted: bool)
      modifies this
      ensures View() == AdmitContextStep(old(View()), group, revision, sender, waiting, true)
      ensures admitted <==> Admits(old(View()), group, sender, waiting)
    {
      if group in store && store[group].hasKey {
        Claim(group, revision);
        return true;
      }
      var room := MakeRoomFor(group, sender, waiting);
      if !room {
        return false;
      }
      RaiseInFlight(group, revision);
      var record := if group in store then store[group].receive else NewRecord(FromContext);
      var unverified := if record.unverified.Some? then record.unverified else Some(Origin(sender, now));
      UpdateReceiveRecord(group, record.(requiredRevision := Max(record.requiredRevision, revision),
                                         unverified := unverified));
      StoreMasterKey(group);
      return true;
    }

    /** Admit a group key sync from an own device. False when it writes no master key. */
    method AdmitSync(group: string, revision: int) returns (wrote: bool)
      modifies this
      ensures View() == AdmitSyncStep(old(View()), group, revision)
      ensures wrote <==> !HasKey(old(View()), group)
    {
      if group in store && store[group].hasKey {
        if store[group].receive.unverified.Some? {
          UpdateReceiveRecord(group, store[group].receive.(unverified := None));
        }
        return false;
      }
      RaiseInFlight(group, revision);
      var record := (if group in store then store[group].receive else NewRecord(FromSync)).(unverified := None);
      if revision > record.requiredRevision {
        record := record.(requiredRevision := revision);
      }
      UpdateReceiveRecord(group, record);
      StoreMasterKey(group);
      return true;
    }

    /** The unverified groups of the sender device other than `group`, in store order. */
    method CollectOwn(group: string, sender: SenderDevice) returns (own: seq<string>)
      ensures own == OwnUnverified(View(), group, sender)
    {
      ghost var w := View();
      ghost var keep := id => id != group && IsUnverifiedOf(w, id, sender);
      own := [];
      for i := 0 to |index|
        invariant own == Filter(index[..i], keep)
      {
        assert index[..i + 1][..i] == index[..i];
        if index[i] != group && index[i] in store && store[index[i]].receive.unverified.Some?
           && store[index[i]].receive.unverified.value.sender == sender {
          own := own + [index[i]];
        }
      }
      assert index[..|index|] == index;
      SameFilter(index, keep, id => id != group && IsUnverifiedOf(w, id, sender));
    }

    /** Delete evictable candidates in order while an excess remains. */
    method EvictInOrder(candidates: seq<string>, surplus: int, waiting: set<string>) returns (excess: int)
      modifies this`store, this`index
      ensures View() == RemoveAll(old(View()), Evicted(old(View()), candidates, surplus, waiting))
      ensures excess == surplus - |Evicted(old(View()), candidates, surplus, waiting)|
    {
      ghost var before := View();
      ghost var all := Evicted(before, candidates, surplus, waiting);
      ghost var evicted: seq<string> := [];
      excess := surplus;
      RemoveNone(before);
      for i := 0 to |candidates|
        invariant View() == RemoveAll(before, evicted)
        invariant excess == surplus - |evicted|
        invariant evicted + Evicted(before, candidates[i..], excess, waiting) == all
      {
        EvictedFrom(before, candidates, i, excess, waiting);
        if excess > 0 && candidates[i] !in inFlight && candidates[i] !in waiting {
          ghost var rest := Evicted(before, candidates[i + 1..], excess - 1, waiting);
          ConcatIsAssociative(evicted, [candidates[i]], rest);
          RemoveOneMore(before, evicted, candidates[i]);
          DeleteRecord(candidates[i]);
          excess := excess - 1;
          evicted := evicted + [candidates[i]];
          assert evicted + rest == all;
        }
      }
      assert evicted + [] == evicted;
    }

    /** Delete the oldest evictable unverified groups of the sender device until a new one fits. */
    method MakeRoomFor(group: string, sender: SenderDevice, waiting: set<string>) returns (room: bool)
      modifies this`store, this`index
      ensures (View(), room) == MakeRoom(old(View()), group, sender, waiting)
    {
      var own := CollectOwn(group, sender);
      var excess := |own| - GROUP_UNVERIFIED_PER_SENDER_DEVICE + 1;
      excess := EvictInOrder(SortByAge(World(store, index, inFlight, now), own), excess, waiting);
      return excess <= 0;
    }

    /** Decide for a message: answer at once, fetch, or only apply a carried change. */
    method DecideFor(group: string, claim: Option<MessageClaim>) returns (decision: Decision)
      ensures decision == Decide(View(), group, claim)
    {
      var known := group in store;
      var record := if known then store[group].receive else NewRecord(FromLocal);
      var revision := if known then store[group].revision else None;
      if record.init.denied.Some? && record.init.denied.value.atRevision >= record.requiredRevision {
        return Answered(DeniedFor(record.init.denied.value.reason));
      }
      var target := if claim.Some? then claim.value.revision else record.requiredRevision;
      if revision.Some? && revision.value >= target {
        return Answered(Fresh(revision.value));
      }
      if known && now < record.init.nextAttemptAt {
        var wait := UpdateFailed(record.init.nextAttemptAt - now);
        if target in record.init.fetchedClaims {
          if revision.Some? && record.init.head.Some? && revision.value >= record.init.head.value {
            return Answered(Fresh(revision.value));
          }
          return Answered(wait);
        }
        if |record.init.fetchedClaims| >= GROUP_FETCH_CLAIMS_PER_WINDOW {
          return if claim.Some? && claim.value.carriesChange then Apply(target, record.requiredRevision, wait)
                 else Answered(wait);
        }
      }
      return Fetch(target, record.requiredRevision);
    }

    /** Let the steps of others happen while the call waits. */
    method Await(events: seq<Event>)
      modifies this
      ensures View() == Others(old(View()), events)
    {
      var after := Others(World(store, index, inFlight, now), events);
      store, index, inFlight, now := after.store, after.index, after.inFlight, after.now;
    }

    /**
     * Answer whether the group is fresh for a message, and fetch first when the
     * budget allows it. A call joins a running fetch and decides again, in at most
     * three rounds.
     */
    method EnsureFresh(group: string, claim: Option<MessageClaim>, rounds: seq<Round>) returns (freshness: Freshness)
      requires |rounds| == ROUNDS
      modifies this
      ensures (View(), freshness) == AfterRounds(old(View()), group, claim, rounds)
    {
      ghost var before := View();
      for i := 0 to ROUNDS
        invariant AfterRounds(View(), group, claim, rounds[i..]) == AfterRounds(before, group, claim, rounds)
      {
        ghost var w, rest := View(), rounds[i..];
        assert rest[0] == rounds[i] && rest[1..] == rounds[i + 1..];
        if group in inFlight {
          var ending := EndOf(World(store, index, inFlight, now), group, rounds[i].waiting, None);
          Await(rounds[i].waiting);
          if ending.None? {
            return UpdatePending;
          }
        } else {
          var decision := DecideFor(group, claim);
          if decision.Answered? {
            return decision.freshness;
          }
          Await(rounds[i].reading);
          if group !in inFlight {
            StartingRound(w, group, claim, rounds[i]);
            match decision {
              case Fetch(target, required) => StartFetch(group, target, required, true);
              case Apply(target, required, _) => StartFetch(group, target, required, false);
            }
            var ending := EndOf(World(store, index, inFlight, now), group, rounds[i].waiting, None);
            Await(rounds[i].waiting);
            return FreshnessOf(World(store, index, inFlight, now), group, decision, ending);
          }
        }
      }
      return UpdatePending;
    }

    /** Start the fetch of a manual sync. It asks for the required revision, outside the budget decision. */
    method StartSync(group: string)
      requires group !in inFlight
      modifies this`inFlight
      ensures var required := Required(old(View()), group);
              View() == Next(old(View()), Start(group, required, required, true))
    {
      var required := if group in store then store[group].receive.requiredRevision else 0;
      StartFetch(group, required, required, true);
    }

    method StartFetch(group: string, target: int, required: int, serverCall: bool)
      requires group !in inFlight
      modifies this`inFlight
      ensures View() == Next(old(View()), Start(group, target, required, serverCall))
    {
      inFlight := inFlight[group := Flight(target, required, serverCall, None, false)];
    }

    /** Record the outcome of the fetch in flight for the group. */
    method RecordOutcome(group: string, outcome: Outcome)
      requires Enabled(View(), RecordFetch(group, outcome))
      modifies this
      ensures View() == Next(old(View()), RecordFetch(group, outcome))
    {
      var flight := inFlight[group];
      var record := if group in store then store[group].receive else NewRecord(FromLocal);
      var claims := if now < record.init.nextAttemptAt then record.init.fetchedClaims else [];
      if flight.target !in claims {
        claims := claims + [flight.target];
      }
      var attempts := record.init.attempts + 1;
      match outcome {
        case Synced(head, server) =>
          record := record.(unverified := None);
          if server {
            record := record.(requiredRevision := Max(head, flight.raised.GetOr(head)));
          }
          if flight.serverCall {
            record := record.(init := FetchState(0, now + GROUP_FETCH_WINDOW_MS, Some(head), claims, None));
          }
        case Refused(reason) =>
          var denial := Denial(Max(flight.target, flight.required), reason);
          record := record.(init := FetchState(attempts, now + BackoffMs(attempts), None, claims, Some(denial)));
        case Failed =>
          record := record.(init := FetchState(attempts, now + BackoffMs(attempts), None, claims, record.init.denied));
      }
      UpdateReceiveRecord(group, record);
      inFlight := inFlight[group := flight.(recorded := true)];
    }

    method FinishFetch(group: string)
      modifies this`inFlight
      ensures View() == Next(old(View()), Finish(group))
    {
      inFlight := inFlight - {group};
    }
  }

  lemma EvictedFrom(w: World, candidates: seq<string>, i: nat, excess: int, waiting: set<string>)
    requires i < |candidates|
    ensures Evicted(w, candidates[i..], excess, waiting)
         == if excess > 0 && Evictable(w, candidates[i], waiting) then
              [candidates[i]] + Evicted(w, candidates[i + 1..], excess - 1, waiting)
            else Evicted(w, candidates[i + 1..], excess, waiting)
  {
    assert candidates[i..][1..] == candidates[i + 1..];
  }

  lemma RemoveNone(w: World)
    ensures RemoveAll(w, []) == w
  {
    var none: seq<string> := [];
    FilterAll(w.index, id => id !in none);
    assert w.store - (set id | id in none) == w.store;
  }

  lemma RemoveOneMore(w: World, ids: seq<string>, id: string)
    ensures RemoveStored(RemoveAll(w, ids), id) == RemoveAll(w, ids + [id])
  {
    var more := ids + [id];
    FilterTwice(w.index, x => x !in ids, x => x != id, x => x !in more);
    assert (w.store - (set x | x in ids)) - {id} == w.store - (set x | x in more);
  }
}
