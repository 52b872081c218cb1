/**
 * The group fetcher as a state machine. A world holds the stored groups, the
 * fetches in flight and the clock. Each event is one atomic step: one record
 * update, one fetch start, or one end of a fetch. The class in
 * GroupFetcher.dfy implements each step.
 */
module GroupFetchModel {
  import opened Options
  import opened Sequences
  import opened GroupReceiveRecord

  const GROUP_FETCH_CLAIMS_PER_WINDOW: nat := 16
  const GROUP_UNVERIFIED_PER_SENDER_DEVICE: nat := 100

  /** The stored value of one group: its receive record, and whether it holds a master key and a state. */
  datatype Stored = Stored(receive: Record, hasKey: bool, revision: Option<int>)

  /**
   * A fetch in flight. `required` is the required revision that its caller
   * read, and `raised` the highest claim raised while it runs. `recorded` is
   * true between the record of its outcome and its removal from the map.
   */
  datatype Flight = Flight(target: int, required: int, serverCall: bool, raised: Option<int>, recorded: bool)

  datatype World = World(
    store: map<string, Stored>,
    index: seq<string>,
    inFlight: map<string, Flight>,
    now: int)

  datatype Outcome =
    | Synced(head: int, server: bool)
    | Refused(reason: DenialReason)
    | Failed

  datatype Event =
    | Claim(group: string, revision: int)
    | AdmitContext(group: string, revision: int, sender: SenderDevice, waiting: set<string>)
    | AdmitContextCrash(group: string, revision: int, sender: SenderDevice, waiting: set<string>)
    | AdmitSync(group: string, revision: int)
    | StoreState(group: string, revision: int)
    | Delete(group: string)
    | Start(group: string, target: int, required: int, serverCall: bool)
    | RecordFetch(group: string, outcome: Outcome)
    | Finish(group: string)
    | Tick(time: int)
    | Crash

  function Max(a: int, b: int): int {
    if a < b then b else a
  }

  function RecordOf(w: World, group: string): Option<Record> {
    if group in w.store then Some(w.store[group].receive) else None
  }

  function RevisionOf(w: World, group: string): Option<int> {
    if group in w.store then w.store[group].revision else None
  }

  /** The required revision of a group, 0 for a group with no record. */
  function Required(w: World, group: string): int {
    if group in w.store then w.store[group].receive.requiredRevision else 0
  }

  function HasKey(w: World, group: string): bool {
    group in w.store && w.store[group].hasKey
  }

  function PutStored(w: World, group: string, stored: Stored): World {
    w.(store := w.store[group := stored], index := if group in w.index then w.index else w.index + [group])
  }

  /** An update of the receive record. The master key and the state stay. */
  function PutRecord(w: World, group: string, record: Record): World {
    PutStored(w, group, Stored(record, HasKey(w, group), RevisionOf(w, group)))
  }

  function RemoveStored(w: World, group: string): World {
    w.(store := w.store - {group}, index := Filter(w.index, id => id != group))
  }

  /** Note a claim on the fetch that runs for the group, if one runs. */
  function Raise(w: World, group: string, revision: int): World {
    if group in w.inFlight then
      var flight := w.inFlight[group];
      w.(inFlight := w.inFlight[group := flight.(raised := Some(Max(flight.raised.GetOr(revision), revision)))])
    else w
  }

  function ClaimStep(w: World, group: string, revision: int): World {
    var record := RecordOf(w, group).GetOr(NewRecord(FromLocal));
    PutRecord(Raise(w, group, revision), group,
              record.(requiredRevision := Max(record.requiredRevision, revision)))
  }

  function StoreKeyStep(w: World, group: string): World {
    PutStored(w, group, Stored(RecordOf(w, group).GetOr(NewRecord(FromLocal)), true, RevisionOf(w, group)))
  }

  /** New verified state of the group. It clears the unverified origin. */
  function StoreStateStep(w: World, group: string, revision: int): World {
    var record := RecordOf(w, group).GetOr(NewRecord(FromLocal));
    PutStored(w, group, Stored(record.(unverified := None), HasKey(w, group), Some(revision)))
  }

  // --- The unverified cap -------------------------------------------------

  predicate IsUnverifiedOf(w: World, id: string, sender: SenderDevice) {
    id in w.store && w.store[id].receive.unverified.Some? && w.store[id].receive.unverified.value.sender == sender
  }

  /** The unverified groups of a sender device, other than `group`, in store order. */
  function OwnUnverified(w: World, group: string, sender: SenderDevice): seq<string> {
    Filter(w.index, id => id != group && IsUnverifiedOf(w, id, sender))
  }

  function Age(w: World, id: string): int {
    if id in w.store && w.store[id].receive.unverified.Some? then
      w.store[id].receive.unverified.value.createdAt
    else 0
  }

  function InsertByAge(w: World, sorted: seq<string>, id: string): seq<string> {
    if sorted == [] || Age(w, sorted[|sorted| - 1]) <= Age(w, id) then sorted + [id]
    else InsertByAge(w, sorted[..|sorted| - 1], id) + [sorted[|sorted| - 1]]
  }

  /** The IDs by creation time, the oldest first, and in the given order when the times are equal. */
  function SortByAge(w: World, ids: seq<string>): seq<string> {
    if ids == [] then [] else InsertByAge(w, SortByAge(w, ids[..|ids| - 1]), ids[|ids| - 1])
  }

  /** A group that the eviction may delete: no fetch runs for it and no content waits on it. */
  predicate Evictable(w: World, id: string, waiting: set<string>) {
    id !in w.inFlight && id !in waiting
  }

  /** The first evictable candidates, at most `excess` of them. */
  function Evicted(w: World, candidates: seq<string>, excess: int, waiting: set<string>): seq<string>
    decreases |candidates|
  {
    if candidates == [] || excess <= 0 then []
    else if !Evictable(w, candidates[0], waiting) then Evicted(w, candidates[1..], excess, waiting)
    else [candidates[0]] + Evicted(w, candidates[1..], excess - 1, waiting)
  }

  function RemoveAll(w: World, ids: seq<string>): World {
    w.(store := w.store - (set id | id in ids), index := Filter(w.index, id => id !in ids))
  }

  function Excess(w: World, group: string, sender: SenderDevice): int {
    |OwnUnverified(w, group, sender)| - GROUP_UNVERIFIED_PER_SENDER_DEVICE + 1
  }

  function EvictedFor(w: World, group: string, sender: SenderDevice, waiting: set<string>): seq<string> {
    Evicted(w, SortByAge(w, OwnUnverified(w, group, sender)), Excess(w, group, sender), waiting)
  }

  /** Delete the oldest evictable groups of the device, and tell whether a new group fits under the cap. */
  function MakeRoom(w: World, group: string, sender: SenderDevice, waiting: set<string>): (World, bool) {
    var evicted := EvictedFor(w, group, sender, waiting);
    (RemoveAll(w, evicted), |evicted| >= Excess(w, group, sender))
  }

  /** The record write of an admitted context of a group with no master key. */
  function AdmitRecord(w: World, group: string, revision: int, sender: SenderDevice): World {
    var record := RecordOf(w, group).GetOr(NewRecord(FromContext));
    PutRecord(Raise(w, group, revision), group,
              record.(requiredRevision := Max(record.requiredRevision, revision),
                      unverified := Some(record.unverified.GetOr(Origin(sender, w.now)))))
  }

  /** True when the context is admitted. A refused context found no room under the cap. */
  predicate Admits(w: World, group: string, sender: SenderDevice, waiting: set<string>) {
    HasKey(w, group) || MakeRoom(w, group, sender, waiting).1
  }

  /** Admit a context. With `keyStored` false, a crash ends the step between the record and the key. */
  function AdmitContextStep(
    w: World, group: string, revision: int, sender: SenderDevice, waiting: set<string>, keyStored: bool): World
  {
    if HasKey(w, group) then ClaimStep(w, group, revision)
    else
      var room := MakeRoom(w, group, sender, waiting);
      if !room.1 then room.0
      else
        var recorded := AdmitRecord(room.0, group, revision, sender);
        if keyStored then StoreKeyStep(recorded, group) else recorded
  }

  function AdmitSyncStep(w: World, group: string, revision: int): World {
    if HasKey(w, group) then
      var record := w.store[group].receive;
      if record.unverified.Some? then PutRecord(w, group, record.(unverified := None)) else w
    else
      var record := RecordOf(w, group).GetOr(NewRecord(FromSync)).(unverified := None);
      StoreKeyStep(
        PutRecord(Raise(w, group, revision), group,
                  record.(requiredRevision := Max(record.requiredRevision, revision))),
        group)
  }

  // --- The fetch -----------------------------------------------------------

  /** The answer to a message: evaluate it at a revision, refuse it, or wait. */
  datatype Freshness =
    | Fresh(revision: int)
    | DeniedFor(reason: DenialReason)
    | UpdateFailed(retryAfterMs: int)
    | UpdatePending

  datatype Decision =
    | Answered(freshness: Freshness)
    | Fetch(target: int, required: int)
    | Apply(applyTarget: int, applyRequired: int, wait: Freshness)

  /** The revision that a message claims, and whether it carries a change that the client can apply. */
  datatype MessageClaim = MessageClaim(revision: int, carriesChange: bool)

  /** What the fetcher does for a message: answer at once, fetch, or only apply a carried change. */
  function Decide(w: World, group: string, claim: Option<MessageClaim>): Decision {
    var record := RecordOf(w, group);
    var revision := RevisionOf(w, group);
    if ReceiveStatus(record, revision) == Denied then Answered(DeniedFor(record.value.init.denied.value.reason))
    else
      var required := Required(w, group);
      var target := if claim.Some? then claim.value.revision else required;
      if revision.Some? && revision.value >= target then Answered(Fresh(revision.value))
      else if record.Some? && w.now < record.value.init.nextAttemptAt then
        var init := record.value.init;
        var wait := UpdateFailed(init.nextAttemptAt - w.now);
        if target in init.fetchedClaims then
          if revision.Some? && init.head.Some? && revision.value >= init.head.value
          then Answered(Fresh(revision.value)) else Answered(wait)
        else if |init.fetchedClaims| >= GROUP_FETCH_CLAIMS_PER_WINDOW then
          if claim.Some? && claim.value.carriesChange then Apply(target, required, wait) else Answered(wait)
        else Fetch(target, required)
      else Fetch(target, required)
  }

  /** The claims of the window of a record, with the target of the recorded fetch. */
  function ClaimsAfter(record: Record, now: int, target: int): seq<int> {
    var claims := if now < record.init.nextAttemptAt then record.init.fetchedClaims else [];
    if target in claims then claims else claims + [target]
  }

  /** The receive record after one fetch. A fetch with no server call leaves the window as it is. */
  function OutcomeRecord(current: Option<Record>, now: int, flight: Flight, outcome: Outcome): Record {
    var record := current.GetOr(NewRecord(FromLocal));
    var claims := ClaimsAfter(record, now, flight.target);
    var attempts := record.init.attempts + 1;
    match outcome
    case Synced(head, server) =>
      var required := if server then Max(head, flight.raised.GetOr(head)) else record.requiredRevision;
      var verified := record.(unverified := None, requiredRevision := required);
      if !flight.serverCall then verified
      else verified.(init := FetchState(0, now + GROUP_FETCH_WINDOW_MS, Some(head), claims, None))
    case Refused(reason) =>
      record.(init := FetchState(attempts, now + BackoffMs(attempts), None, claims,
                                 Some(Denial(Max(flight.target, flight.required), reason))))
    case Failed =>
      record.(init := FetchState(attempts, now + BackoffMs(attempts), None, claims, record.init.denied))
  }

  function RecordFetchStep(w: World, group: string, outcome: Outcome): World
    requires group in w.inFlight
  {
    var flight := w.inFlight[group];
    PutRecord(w, group, OutcomeRecord(RecordOf(w, group), w.now, flight, outcome))
      .(inFlight := w.inFlight[group := flight.(recorded := true)])
  }

  /** What a fetch can end with: only a server call is refused, fails, or reaches the server head. */
  predicate CanEndWith(flight: Flight, outcome: Outcome) {
    match outcome
    case Synced(head, server) => if server then flight.serverCall else head >= flight.target
    case Refused(_) => flight.serverCall
    case Failed => flight.serverCall
  }

  // --- Runs ----------------------------------------------------------------

  predicate Enabled(w: World, e: Event) {
    match e
    case Start(group, _, _, _) => group !in w.inFlight
    case RecordFetch(group, outcome) =>
      group in w.inFlight && !w.inFlight[group].recorded && CanEndWith(w.inFlight[group], outcome)
    case _ => true
  }

  function Next(w: World, e: Event): World
    requires Enabled(w, e)
  {
    match e
    case Claim(group, revision) => ClaimStep(w, group, revision)
    case AdmitContext(group, revision, sender, waiting) =>
      AdmitContextStep(w, group, revision, sender, waiting, true)
    case AdmitContextCrash(group, revision, sender, waiting) =>
      AdmitContextStep(w, group, revision, sender, waiting, false).(inFlight := map[])
    case AdmitSync(group, revision) => AdmitSyncStep(w, group, revision)
    case StoreState(group, revision) => StoreStateStep(w, group, revision)
    case Delete(group) => RemoveStored(w, group)
    case Start(group, target, required, serverCall) =>
      w.(inFlight := w.inFlight[group := Flight(target, required, serverCall, None, false)])
    case RecordFetch(group, outcome) => RecordFetchStep(w, group, outcome)
    case Finish(group) => w.(inFlight := w.inFlight - {group})
    case Tick(time) => w.(now := time)
    case Crash => w.(inFlight := map[])
  }

  ghost predicate ValidRun(w: World, events: seq<Event>)
    decreases |events|
  {
    events == [] || (Enabled(w, events[0]) && ValidRun(Next(w, events[0]), events[1..]))
  }

  ghost function Run(w: World, events: seq<Event>): World
    requires ValidRun(w, events)
    decreases |events|
  {
    if events == [] then w else Run(Next(w, events[0]), events[1..])
  }

  /** The claim that an event applies to a group, if it applies one. */
  function ClaimOn(w: World, e: Event, group: string): Option<int> {
    match e
    case Claim(g, revision) => if g == group then Some(revision) else None
    case AdmitContext(g, revision, sender, waiting) =>
      if g == group && Admits(w, g, sender, waiting) then Some(revision) else None
    case AdmitContextCrash(g, revision, sender, waiting) =>
      if g == group && Admits(w, g, sender, waiting) then Some(revision) else None
    case AdmitSync(g, revision) => if g == group && !HasKey(w, g) then Some(revision) else None
    case _ => None
  }

  /** The event records the sync of a fetch of the group that reached the server head. */
  predicate RecordsServerSync(e: Event, group: string) {
    e.RecordFetch? && e.group == group && e.outcome.Synced? && e.outcome.server
  }
}
