/**
 * The unverified cap of a sender device: which groups an admission deletes,
 * when it refuses, and that the cap holds in every sequential run.
 */
module GroupEviction {
  import opened Options
  import opened Sequences
  import opened GroupReceiveRecord
  import opened GroupFetchModel

  // --- The order of the candidates -----------------------------------------

  ghost predicate OldestFirst(w: World, ids: seq<string>) {
    forall i, j :: 0 <= i < j < |ids| ==> Age(w, ids[i]) <= Age(w, ids[j])
  }

  lemma {:induction false} InsertByAgeMembers(w: World, sorted: seq<string>, id: string)
    ensures multiset(InsertByAge(w, sorted, id)) == multiset(sorted) + multiset{id}
  {
    if sorted != [] && Age(w, sorted[|sorted| - 1]) > Age(w, id) {
      var front := sorted[..|sorted| - 1];
      assert sorted == front + [sorted[|sorted| - 1]];
      InsertByAgeMembers(w, front, id);
    }
  }

  lemma {:induction false} InsertByAgeSorts(w: World, sorted: seq<string>, id: string)
    requires OldestFirst(w, sorted)
    ensures OldestFirst(w, InsertByAge(w, sorted, id))
  {
    if sorted != [] && Age(w, sorted[|sorted| - 1]) > Age(w, id) {
      var front, last := sorted[..|sorted| - 1], sorted[|sorted| - 1];
      InsertByAgeSorts(w, front, id);
      InsertByAgeMembers(w, front, id);
      var inserted := InsertByAge(w, front, id);
      forall i | 0 <= i < |inserted| ensures Age(w, inserted[i]) <= Age(w, last) {
        assert inserted[i] in multiset(inserted);
        assert inserted[i] == id || inserted[i] in front;
      }
    }
  }

  lemma {:induction false} SortByAgeSorts(w: World, ids: seq<string>)
    ensures OldestFirst(w, SortByAge(w, ids))
    ensures multiset(SortByAge(w, ids)) == multiset(ids)
  {
    if ids != [] {
      SortByAgeSorts(w, ids[..|ids| - 1]);
      InsertByAgeSorts(w, SortByAge(w, ids[..|ids| - 1]), ids[|ids| - 1]);
      InsertByAgeMembers(w, SortByAge(w, ids[..|ids| - 1]), ids[|ids| - 1]);
      assert ids == ids[..|ids| - 1] + [ids[|ids| - 1]];
    }
  }

  lemma SortByAgeMembers(w: World, ids: seq<string>)
    ensures forall id :: id in SortByAge(w, ids) <==> id in ids
    ensures Unique(ids) ==> Unique(SortByAge(w, ids))
  {
    SortByAgeSorts(w, ids);
    var sorted := SortByAge(w, ids);
    forall id ensures id in sorted <==> id in ids {
      assert id in sorted <==> id in multiset(sorted);
      assert id in ids <==> id in multiset(ids);
    }
    if Unique(ids) {
      UniqueCounts(ids);
      CountsUnique(sorted);
    }
  }

  lemma {:induction false} UniqueCounts(ids: seq<string>)
    requires Unique(ids)
    ensures forall id :: multiset(ids)[id] <= 1
  {
    if ids != [] {
      var front := ids[..|ids| - 1];
      assert ids == front + [ids[|ids| - 1]];
      UniqueCounts(front);
      assert ids[|ids| - 1] !in multiset(front);
    }
  }

  lemma CountsUnique(ids: seq<string>)
    requires forall id :: multiset(ids)[id] <= 1
    ensures Unique(ids)
  {
    forall i, j | 0 <= i < j < |ids| ensures ids[i] != ids[j] {
      assert ids == ids[..j] + [ids[j]] + ids[j + 1..];
      assert ids[i] in multiset(ids[..j]) by {
        assert ids[..j][i] == ids[i];
      }
      assert multiset(ids)[ids[j]] == multiset(ids[..j])[ids[j]] + 1 + multiset(ids[j + 1..])[ids[j]];
    }
  }

  // --- What one eviction deletes ---------------------------------------------

  function EvictableIn(w: World, ids: seq<string>, waiting: set<string>): set<string> {
    set id | id in ids && id !in w.inFlight && id !in waiting
  }

  /**
   * The eviction takes the evictable candidates of a prefix, at most one for
   * each excess group. It takes fewer only when the prefix is complete.
   */
  lemma {:induction false} EvictedIsAPrefix(
    w: World, candidates: seq<string>, excess: int, waiting: set<string>) returns (cut: nat)
    requires Unique(candidates)
    ensures var evicted := Evicted(w, candidates, excess, waiting);
            && cut <= |candidates|
            && Unique(evicted)
            && (forall id :: id in evicted <==> id in EvictableIn(w, candidates[..cut], waiting))
            && |evicted| <= Max(excess, 0)
            && (|evicted| < excess ==> cut == |candidates|)
    decreases |candidates|
  {
    if candidates == [] || excess <= 0 {
      cut := 0;
    } else {
      var first, rest := candidates[0], candidates[1..];
      var less := if Evictable(w, first, waiting) then excess - 1 else excess;
      var cutOfRest := EvictedIsAPrefix(w, rest, less, waiting);
      cut := cutOfRest + 1;
      assert candidates[..cut] == [first] + rest[..cutOfRest];
      assert first !in rest && forall id :: id in rest[..cutOfRest] ==> id in rest;
      var evictedOfRest := Evicted(w, rest, less, waiting);
      assert first !in evictedOfRest;
      UniqueCons(first, evictedOfRest);
    }
  }

  lemma {:induction false} EvictedAreCandidates(w: World, candidates: seq<string>, excess: int, waiting: set<string>)
    ensures forall id :: id in Evicted(w, candidates, excess, waiting) ==> id in candidates
    decreases |candidates|
  {
    if candidates != [] && excess > 0 {
      var less := if Evictable(w, candidates[0], waiting) then excess - 1 else excess;
      EvictedAreCandidates(w, candidates[1..], less, waiting);
    }
  }

  /** An admission never deletes the record of the group that it admits. */
  lemma AdmissionSparesItsGroup(w: World, group: string, sender: SenderDevice, waiting: set<string>)
    ensures group !in EvictedFor(w, group, sender, waiting)
  {
    var own := OwnUnverified(w, group, sender);
    EvictedAreCandidates(w, SortByAge(w, own), Excess(w, group, sender), waiting);
    SortByAgeMembers(w, own);
    FilterMembers(w.index, id => id != group && IsUnverifiedOf(w, id, sender));
  }

  // --- One admission -----------------------------------------------------------

  /** The store index lists each stored group once. */
  ghost predicate Indexed(w: World) {
    Unique(w.index) && forall id :: id in w.store ==> id in w.index
  }

  /** The groups that a sender device's contexts created and left unverified. */
  function UnverifiedOf(w: World, sender: SenderDevice): set<string> {
    set id | id in w.store && IsUnverifiedOf(w, id, sender)
  }

  lemma UnverifiedOfIff(w: World, sender: SenderDevice, id: string)
    ensures id in UnverifiedOf(w, sender) <==>
            && id in w.store && w.store[id].receive.unverified.Some?
            && w.store[id].receive.unverified.value.sender == sender
  {
  }

  /** The unverified groups of the sender device that an admission may delete. */
  function EvictableOf(w: World, group: string, sender: SenderDevice, waiting: set<string>): set<string> {
    set id | id in UnverifiedOf(w, sender) && id != group && id !in w.inFlight && id !in waiting
  }

  lemma OwnUnverifiedCounts(w: World, group: string, sender: SenderDevice)
    requires Indexed(w)
    ensures Unique(OwnUnverified(w, group, sender))
    ensures forall id :: id in OwnUnverified(w, group, sender) <==> id in UnverifiedOf(w, sender) - {group}
    ensures |OwnUnverified(w, group, sender)| == |UnverifiedOf(w, sender) - {group}|
  {
    var keep := id => id != group && IsUnverifiedOf(w, id, sender);
    FilterMembers(w.index, keep);
    FilterUnique(w.index, keep);
    UniqueSize(OwnUnverified(w, group, sender), UnverifiedOf(w, sender) - {group});
  }

  /** The groups that an admission deletes. */
  function Deleted(w: World, group: string, sender: SenderDevice, waiting: set<string>): set<string> {
    set id | id in EvictedFor(w, group, sender, waiting)
  }

  /** The sorted candidates of an admission are the other unverified groups of the device, once each. */
  lemma CandidatesOfAdmission(w: World, group: string, sender: SenderDevice, waiting: set<string>)
    requires Indexed(w)
    ensures var sorted := SortByAge(w, OwnUnverified(w, group, sender));
            && Unique(sorted) && OldestFirst(w, sorted)
            && EvictableIn(w, sorted, waiting) == EvictableOf(w, group, sender, waiting)
            && Excess(w, group, sender)
               == |UnverifiedOf(w, sender) - {group}| - GROUP_UNVERIFIED_PER_SENDER_DEVICE + 1
  {
    var own := OwnUnverified(w, group, sender);
    OwnUnverifiedCounts(w, group, sender);
    SortByAgeMembers(w, own);
    SortByAgeSorts(w, own);
  }

  /** An admission deletes only evictable unverified groups of the sender device, never the admitted group. */
  lemma DeletedAreEvictable(w: World, group: string, sender: SenderDevice, waiting: set<string>)
    requires Indexed(w)
    ensures Deleted(w, group, sender, waiting) <= EvictableOf(w, group, sender, waiting)
  {
    var sorted := SortByAge(w, OwnUnverified(w, group, sender));
    CandidatesOfAdmission(w, group, sender, waiting);
    var cut := EvictedIsAPrefix(w, sorted, Excess(w, group, sender), waiting);
    assert EvictableIn(w, sorted[..cut], waiting) <= EvictableIn(w, sorted, waiting);
  }

  /**
   * An admission of a new group deletes the oldest evictable groups of the
   * sender device, exactly as many as the cap needs. It refuses if and only if
   * too few are evictable, and then it deletes each of them.
   */
  lemma MakeRoomTakesTheOldest(w: World, group: string, sender: SenderDevice, waiting: set<string>)
    requires Indexed(w)
    ensures var deleted := Deleted(w, group, sender, waiting);
            var room := MakeRoom(w, group, sender, waiting).1;
            var excess := |UnverifiedOf(w, sender) - {group}| - GROUP_UNVERIFIED_PER_SENDER_DEVICE + 1;
            var evictable := EvictableOf(w, group, sender, waiting);
            && (room <==> excess <= |evictable|)
            && (room ==> |deleted| == Max(excess, 0))
            && (!room ==> deleted == evictable)
            && (forall gone, kept :: gone in deleted && kept in evictable - deleted ==> Age(w, gone) <= Age(w, kept))
  {
    var sorted, excess := SortByAge(w, OwnUnverified(w, group, sender)), Excess(w, group, sender);
    CandidatesOfAdmission(w, group, sender, waiting);
    var cut := EvictedIsAPrefix(w, sorted, excess, waiting);
    var deleted := Deleted(w, group, sender, waiting);
    assert deleted == EvictableIn(w, sorted[..cut], waiting);
    UniqueSize(EvictedFor(w, group, sender, waiting), deleted);
    DeletedAreEvictable(w, group, sender, waiting);
    SubsetSize(deleted, EvictableOf(w, group, sender, waiting));
    EvictedAreOlder(w, sorted, cut, waiting);
    assert sorted[..|sorted|] == sorted;
  }

  /** In an oldest-first list, the evictable groups of a prefix are not younger than the others. */
  lemma EvictedAreOlder(w: World, sorted: seq<string>, cut: nat, waiting: set<string>)
    requires cut <= |sorted| && OldestFirst(w, sorted)
    ensures forall gone, kept :: gone in EvictableIn(w, sorted[..cut], waiting)
                                 && kept in EvictableIn(w, sorted, waiting) - EvictableIn(w, sorted[..cut], waiting) ==>
              Age(w, gone) <= Age(w, kept)
  {
    forall gone, kept | gone in EvictableIn(w, sorted[..cut], waiting)
                        && kept in EvictableIn(w, sorted, waiting) - EvictableIn(w, sorted[..cut], waiting)
      ensures Age(w, gone) <= Age(w, kept)
    {
      var i :| 0 <= i < cut && sorted[i] == gone;
      var j :| 0 <= j < |sorted| && sorted[j] == kept;
      assert sorted[j] in sorted[..cut] || j >= cut;
    }
  }

  lemma SubsetSize<T>(small: set<T>, large: set<T>)
    requires small <= large
    ensures |small| <= |large|
  {
    assert large == small + (large - small);
  }

  /** A refused admission changes nothing if and only if no group of the device is evictable. */
  lemma RefusalChangesNothingIff(w: World, group: string, sender: SenderDevice, waiting: set<string>)
    requires Indexed(w) && !MakeRoom(w, group, sender, waiting).1
    ensures MakeRoom(w, group, sender, waiting).0 == w <==> EvictableOf(w, group, sender, waiting) == {}
    ensures |UnverifiedOf(w, sender)| <= GROUP_UNVERIFIED_PER_SENDER_DEVICE ==>
              MakeRoom(w, group, sender, waiting).0 == w
  {
    MakeRoomTakesTheOldest(w, group, sender, waiting);
    var evicted := EvictedFor(w, group, sender, waiting);
    if EvictableOf(w, group, sender, waiting) == {} {
      assert forall id :: id in evicted ==> id in Deleted(w, group, sender, waiting);
      RemovingNothing(w, evicted);
    } else {
      var id :| id in EvictableOf(w, group, sender, waiting);
      assert id in evicted;
    }
    if |UnverifiedOf(w, sender)| <= GROUP_UNVERIFIED_PER_SENDER_DEVICE {
      SubsetSize(UnverifiedOf(w, sender) - {group}, UnverifiedOf(w, sender));
      assert EvictableOf(w, group, sender, waiting) == {};
    }
  }

  lemma RemovingNothing(w: World, ids: seq<string>)
    requires forall id :: id !in ids
    ensures RemoveAll(w, ids) == w
  {
    FilterAll(w.index, id => id !in ids);
    assert w.store - {} == w.store;
  }

  // --- Every sequential run --------------------------------------------------

  ghost predicate CapHolds(w: World) {
    && Indexed(w)
    && forall sender :: |UnverifiedOf(w, sender)| <= GROUP_UNVERIFIED_PER_SENDER_DEVICE
  }

  lemma RemoveKeepsIndexed(w: World, group: string)
    requires Indexed(w)
    ensures Indexed(RemoveStored(w, group))
  {
    FilterMembers(w.index, id => id != group);
    FilterUnique(w.index, id => id != group);
  }

  lemma RemoveAllKeepsIndexed(w: World, ids: seq<string>)
    requires Indexed(w)
    ensures Indexed(RemoveAll(w, ids))
  {
    FilterMembers(w.index, id => id !in ids);
    FilterUnique(w.index, id => id !in ids);
  }

  /** A step that makes no group unverified keeps the cap. */
  lemma FewerUnverifiedKeepCap(w: World, after: World)
    requires CapHolds(w) && Indexed(after)
    requires forall id, sender :: IsUnverifiedOf(after, id, sender) ==> IsUnverifiedOf(w, id, sender)
    ensures CapHolds(after)
  {
    forall sender ensures |UnverifiedOf(after, sender)| <= GROUP_UNVERIFIED_PER_SENDER_DEVICE {
      SubsetSize(UnverifiedOf(after, sender), UnverifiedOf(w, sender));
    }
  }

  lemma MakeRoomKeepsCap(w: World, group: string, sender: SenderDevice, waiting: set<string>)
    requires CapHolds(w)
    ensures var (after, room) := MakeRoom(w, group, sender, waiting);
            && CapHolds(after)
            && (room ==> |UnverifiedOf(after, sender) - {group}| < GROUP_UNVERIFIED_PER_SENDER_DEVICE)
  {
    var (after, room) := MakeRoom(w, group, sender, waiting);
    var deleted := Deleted(w, group, sender, waiting);
    DeletedAreEvictable(w, group, sender, waiting);
    RemoveAllKeepsIndexed(w, EvictedFor(w, group, sender, waiting));
    FewerUnverifiedKeepCap(w, after);
    if room {
      RoomIsUnderTheCap(w, group, sender, waiting);
    }
  }

  lemma RoomIsUnderTheCap(w: World, group: string, sender: SenderDevice, waiting: set<string>)
    requires Indexed(w) && MakeRoom(w, group, sender, waiting).1
    ensures |UnverifiedOf(MakeRoom(w, group, sender, waiting).0, sender) - {group}|
         <= GROUP_UNVERIFIED_PER_SENDER_DEVICE - 1
  {
    var others, deleted := UnverifiedOf(w, sender) - {group}, Deleted(w, group, sender, waiting);
    MakeRoomTakesTheOldest(w, group, sender, waiting);
    DeletedAreEvictable(w, group, sender, waiting);
    assert deleted <= others;
    assert |others - deleted| == |others| - |deleted|;
    assert UnverifiedOf(MakeRoom(w, group, sender, waiting).0, sender) - {group} == others - deleted;
  }

  lemma AdmissionKeepsCap(
      w: World, group: string, revision: int, sender: SenderDevice, waiting: set<string>, keyStored: bool)
    requires CapHolds(w)
    ensures CapHolds(AdmitContextStep(w, group, revision, sender, waiting, keyStored))
  {
    var after := AdmitContextStep(w, group, revision, sender, waiting, keyStored);
    if HasKey(w, group) {
      FewerUnverifiedKeepCap(w, after);
    } else {
      MakeRoomKeepsCap(w, group, sender, waiting);
      var (roomy, room) := MakeRoom(w, group, sender, waiting);
      if room {
        RecordingKeepsCap(roomy, group, revision, sender);
        var recorded := AdmitRecord(roomy, group, revision, sender);
        FewerUnverifiedKeepCap(recorded, StoreKeyStep(recorded, group));
      }
    }
  }

  /** With room under the cap, one more unverified group of the device keeps it. */
  lemma RecordingKeepsCap(w: World, group: string, revision: int, sender: SenderDevice)
    requires CapHolds(w)
    requires |UnverifiedOf(w, sender) - {group}| < GROUP_UNVERIFIED_PER_SENDER_DEVICE
    ensures CapHolds(AdmitRecord(w, group, revision, sender))
  {
    var after := AdmitRecord(w, group, revision, sender);
    RecordingAddsOne(w, group, revision, sender);
    forall other ensures |UnverifiedOf(after, other)| <= GROUP_UNVERIFIED_PER_SENDER_DEVICE {
      var others := if other == sender then (UnverifiedOf(w, other) - {group}) + {group} else UnverifiedOf(w, other);
      SubsetSize(UnverifiedOf(after, other), others);
    }
  }

  lemma RecordingAddsOne(w: World, group: string, revision: int, sender: SenderDevice)
    requires Indexed(w)
    ensures var after := AdmitRecord(w, group, revision, sender);
            && Indexed(after)
            && forall id, other :: IsUnverifiedOf(after, id, other) ==>
                 IsUnverifiedOf(w, id, other) || (id == group && other == sender)
  {
  }

  lemma CapIsKept(w: World, e: Event)
    requires CapHolds(w) && Enabled(w, e)
    ensures CapHolds(Next(w, e))
  {
    match e
    case AdmitContext(group, revision, sender, waiting) =>
      AdmissionKeepsCap(w, group, revision, sender, waiting, true);
    case AdmitContextCrash(group, revision, sender, waiting) =>
      AdmissionKeepsCap(w, group, revision, sender, waiting, false);
      FewerUnverifiedKeepCap(AdmitContextStep(w, group, revision, sender, waiting, false), Next(w, e));
    case Delete(group) =>
      RemoveKeepsIndexed(w, group);
      FewerUnverifiedKeepCap(w, Next(w, e));
    case _ =>
      OtherStepsKeepIndexed(w, e);
      OtherStepsAddNone(w, e);
      FewerUnverifiedKeepCap(w, Next(w, e));
  }

  lemma OtherStepsKeepIndexed(w: World, e: Event)
    requires Indexed(w) && Enabled(w, e)
    requires !e.AdmitContext? && !e.AdmitContextCrash? && !e.Delete?
    ensures Indexed(Next(w, e))
  {
  }

  lemma OtherStepsAddNone(w: World, e: Event)
    requires Enabled(w, e)
    requires !e.AdmitContext? && !e.AdmitContextCrash? && !e.Delete?
    ensures forall id, sender :: IsUnverifiedOf(Next(w, e), id, sender) ==> IsUnverifiedOf(w, id, sender)
  {
  }

  /** In every run of admissions, claims, syncs, fetches and crashes, no sender device passes the cap. */
  lemma {:induction false} NoDevicePassesTheCap(w: World, events: seq<Event>, sender: SenderDevice)
    requires CapHolds(w) && ValidRun(w, events)
    ensures CapHolds(Run(w, events))
    ensures |UnverifiedOf(Run(w, events), sender)| <= GROUP_UNVERIFIED_PER_SENDER_DEVICE
    decreases |events|
  {
    if events != [] {
      CapIsKept(w, events[0]);
      NoDevicePassesTheCap(Next(w, events[0]), events[1..], sender);
    }
  }

  /**
   * The cap needs admissions to run one at a time. Two admissions that both
   * make room before either writes its record pass it.
   */
  lemma InterleavedAdmissionsPassTheCap(w: World, one: string, two: string, sender: SenderDevice, waiting: set<string>)
    requires CapHolds(w) && |UnverifiedOf(w, sender)| == GROUP_UNVERIFIED_PER_SENDER_DEVICE - 1
    requires one != two && one !in w.store && two !in w.store
    ensures MakeRoom(w, one, sender, waiting) == (w, true)
    ensures MakeRoom(w, two, sender, waiting) == (w, true)
    ensures |UnverifiedOf(AdmitRecord(AdmitRecord(w, one, 0, sender), two, 0, sender), sender)|
         == GROUP_UNVERIFIED_PER_SENDER_DEVICE + 1
  {
    RoomWithoutEviction(w, one, sender, waiting);
    RoomWithoutEviction(w, two, sender, waiting);
    RecordingCountsOne(w, one, 0, sender);
    RecordingCountsOne(AdmitRecord(w, one, 0, sender), two, 0, sender);
  }

  lemma RecordingCountsOne(w: World, group: string, revision: int, sender: SenderDevice)
    requires group !in w.store
    ensures |UnverifiedOf(AdmitRecord(w, group, revision, sender), sender)| == |UnverifiedOf(w, sender)| + 1
    ensures AdmitRecord(w, group, revision, sender).store.Keys == w.store.Keys + {group}
  {
    assert UnverifiedOf(AdmitRecord(w, group, revision, sender), sender) == UnverifiedOf(w, sender) + {group};
  }

  lemma RoomWithoutEviction(w: World, group: string, sender: SenderDevice, waiting: set<string>)
    requires Indexed(w) && group !in w.store && |UnverifiedOf(w, sender)| < GROUP_UNVERIFIED_PER_SENDER_DEVICE
    ensures MakeRoom(w, group, sender, waiting) == (w, true)
  {
    assert UnverifiedOf(w, sender) - {group} == UnverifiedOf(w, sender);
    OwnUnverifiedCounts(w, group, sender);
    RemovingNothing(w, EvictedFor(w, group, sender, waiting));
  }
}
