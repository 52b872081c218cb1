/**
 * The receive record of a group (internal/groups/receive-record.ts): what a
 * device must verify before it delivers the content of the group.
 *
 * An absent claim list and an empty one are the same list here, because every
 * reader of the record reads an absent list as an empty one.
 */
module GroupReceiveRecord {
  import opened Options

  const GROUP_FETCH_WINDOW_MS: int := 30_000
  const GROUP_FETCH_MAX_BACKOFF_MS: int := 3_600_000

  datatype Source = FromContext | FromSync | FromLocal

  datatype DenialReason = GroupNotFound | AccessRevoked | GroupNotReadable

  datatype Denial = Denial(atRevision: int, reason: DenialReason)

  datatype FetchState = FetchState(
    attempts: nat,
    nextAttemptAt: int,
    head: Option<int>,
    fetchedClaims: seq<int>,
    denied: Option<Denial>)

  datatype SenderDevice = SenderDevice(senderId: string, senderDeviceId: nat)

  datatype Origin = Origin(sender: SenderDevice, createdAt: int)

  datatype Record = Record(
    requiredRevision: int,
    source: Source,
    init: FetchState,
    unverified: Option<Origin>)

  datatype Status = Ready | Stale | Pending | Denied

  function NewRecord(source: Source): Record {
    Record(0, source, FetchState(0, 0, None, [], None), None)
  }

  function ReceiveStatus(record: Option<Record>, revision: Option<int>): Status {
    var required := if record.Some? then record.value.requiredRevision else 0;
    if record.Some? && record.value.init.denied.Some? && record.value.init.denied.value.atRevision >= required then
      Denied
    else if revision.None? then Pending
    else if revision.value >= required then Ready
    else Stale
  }

  /**
   * A denial answers every required revision up to its own. Without one a group is
   * pending until it has a state, and stale until the state is at the required revision.
   */
  lemma ReceiveStatusIff(record: Record, revision: Option<int>)
    ensures var status := ReceiveStatus(Some(record), revision);
            var denied := record.init.denied.Some?
                          && record.init.denied.value.atRevision >= record.requiredRevision;
            && (status == Status.Denied <==> denied)
            && (status == Pending <==> !denied && revision.None?)
            && (status == Stale <==> !denied && revision.Some? && revision.value < record.requiredRevision)
            && (status == Ready <==> !denied && revision.Some? && revision.value >= record.requiredRevision)
  {
  }

  function Doubled(base: int, times: nat): int {
    if times == 0 then base else 2 * Doubled(base, times - 1)
  }

  function BackoffMs(attempts: nat): int {
    var delay := Doubled(GROUP_FETCH_WINDOW_MS, attempts);
    if delay < GROUP_FETCH_MAX_BACKOFF_MS then delay else GROUP_FETCH_MAX_BACKOFF_MS
  }

  /** The backoff never shrinks, starts at one window and stops at one hour. */
  lemma {:induction false} BackoffGrowsToItsBound(fewer: nat, more: nat)
    requires fewer <= more
    ensures GROUP_FETCH_WINDOW_MS <= BackoffMs(fewer) <= BackoffMs(more) <= GROUP_FETCH_MAX_BACKOFF_MS
    ensures 7 <= more ==> BackoffMs(more) == GROUP_FETCH_MAX_BACKOFF_MS
    decreases more
  {
    DoubledPositive(fewer);
    if fewer < more {
      BackoffGrowsToItsBound(fewer, more - 1);
      DoubledPositive(more - 1);
      if more == 7 {
        assert Doubled(GROUP_FETCH_WINDOW_MS, 1) == 60_000;
        assert Doubled(GROUP_FETCH_WINDOW_MS, 3) == 240_000;
        assert Doubled(GROUP_FETCH_WINDOW_MS, 5) == 960_000;
        assert Doubled(GROUP_FETCH_WINDOW_MS, 7) == 3_840_000;
      }
    } else if more >= 7 {
      AtLeastSevenDoublings(more);
    }
  }

  /** Each failed fetch doubles the backoff of the one before, from one window up to one hour. */
  lemma BackoffDoubles(attempts: nat)
    ensures BackoffMs(0) == GROUP_FETCH_WINDOW_MS
    ensures BackoffMs(attempts + 1)
            == if 2 * BackoffMs(attempts) < GROUP_FETCH_MAX_BACKOFF_MS then 2 * BackoffMs(attempts)
               else GROUP_FETCH_MAX_BACKOFF_MS
  {
    DoubledPositive(attempts);
  }

  lemma {:induction false} DoubledPositive(times: nat)
    ensures Doubled(GROUP_FETCH_WINDOW_MS, times) >= GROUP_FETCH_WINDOW_MS
  {
    if times > 0 {
      DoubledPositive(times - 1);
    }
  }

  lemma {:induction false} AtLeastSevenDoublings(times: nat)
    requires times >= 7
    ensures Doubled(GROUP_FETCH_WINDOW_MS, times) >= GROUP_FETCH_MAX_BACKOFF_MS
  {
    if times == 7 {
      assert Doubled(GROUP_FETCH_WINDOW_MS, 1) == 60_000;
      assert Doubled(GROUP_FETCH_WINDOW_MS, 3) == 240_000;
      assert Doubled(GROUP_FETCH_WINDOW_MS, 5) == 960_000;
    } else {
      AtLeastSevenDoublings(times - 1);
    }
  }
}
