/**
 * One phase of a declared send (client/device-set-reconciliation.ts,
 * runDeviceSetPhase): post every device, repair what the Relay refused, and
 * post again, at most ten times.
 *
 * The environment of a run is a script: what each pass answers, what each
 * repair does, and whether each wait of a given time ends. Every behaviour of the
 * Relay, the store and the session setup is one such script.
 */
module DeviceSetPhase {
  import opened Options
  import opened Sequences
  import opened DeviceSets
  import opened DeviceSetMerge

  const DEVICE_SET_RESTARTS_MAXIMUM: nat := 10

  /** The error of one device post, and what the reconciliation reads from it. */
  datatype PostError = PostError(id: nat, stops: bool, expired: bool, refusal: Option<Refusal>)

  /** The answer to one device post. No error is an acceptance. */
  datatype Post = Post(device: Device, error: Option<PostError>)

  datatype PassAnswer = Posted(posts: seq<Post>) | PassThrew(error: nat)

  /** A repair commits and names the devices with no bundle, or it throws. */
  datatype RepairAnswer = Repaired(bundleMissing: seq<Device>) | RepairThrew(error: nat)

  datatype PhaseRun = PhaseRun(
    restarts: nat,
    pass: nat -> PassAnswer,
    repair: nat -> RepairAnswer,
    waitEnds: (nat, nat) -> bool)

  datatype Reason = Exhausted | Expired

  datatype PhaseEnd =
    | Complete(posts: seq<Post>)
    | Threw(error: nat)
    | Stopped
    | Unresolved(
        reason: Reason,
        restarts: nat,
        lastRefusal: Option<LastRefusal>,
        acceptedDevices: seq<Device>,
        unresolvedDevices: seq<Device>)

  // --- The rule that decides after a pass ----------------------------------------

  datatype Rule = AllAccepted | Rethrow(error: nat) | EndExpired | EndExhausted | RepairAndRestart

  function Failures(posts: seq<Post>): seq<Post> {
    Filter(posts, (post: Post) => post.error.Some?)
  }

  function FirstStop(failures: seq<Post>): Option<nat> {
    if failures == [] then None
    else if failures[0].error.Some? && failures[0].error.value.stops then Some(failures[0].error.value.id)
    else FirstStop(failures[1..])
  }

  predicate SomeExpired(failures: seq<Post>) {
    exists i :: 0 <= i < |failures| && failures[i].error.Some? && failures[i].error.value.expired
  }

  function Refusals(failures: seq<Post>): seq<Refusal> {
    if failures == [] then []
    else
      var front, last := Refusals(failures[..|failures| - 1]), failures[|failures| - 1];
      if last.error.Some? && last.error.value.refusal.Some? then front + [last.error.value.refusal.value] else front
  }

  /** The first rule that applies to the posts of a pass after `restarts` restarts. */
  function RuleOf(posts: seq<Post>, restarts: nat): Rule {
    var failures := Failures(posts);
    if failures == [] then AllAccepted
    else if FirstStop(failures).Some? then Rethrow(FirstStop(failures).value)
    else if restarts > 0 && SomeExpired(failures) then EndExpired
    else if Refusals(failures) == [] then
      FailuresHaveErrors(posts);
      Rethrow(failures[0].error.value.id)
    else if restarts >= DEVICE_SET_RESTARTS_MAXIMUM then EndExhausted
    else RepairAndRestart
  }

  lemma FailuresHaveErrors(posts: seq<Post>)
    ensures forall post :: post in Failures(posts) <==> post in posts && post.error.Some?
  {
    FilterMembers(posts, (post: Post) => post.error.Some?);
  }

  // --- The rule in terms of the posts ---------------------------------------------------

  ghost predicate IsFirstFailure(posts: seq<Post>, i: nat) {
    i < |posts| && posts[i].error.Some? && forall j :: 0 <= j < i ==> posts[j].error.None?
  }

  ghost predicate IsFirstStop(posts: seq<Post>, i: nat) {
    && i < |posts| && posts[i].error.Some? && posts[i].error.value.stops
    && forall j :: 0 <= j < i && posts[j].error.Some? ==> !posts[j].error.value.stops
  }

  predicate AnyStops(posts: seq<Post>) {
    exists i :: 0 <= i < |posts| && posts[i].error.Some? && posts[i].error.value.stops
  }

  predicate AnyExpired(posts: seq<Post>) {
    exists i :: 0 <= i < |posts| && posts[i].error.Some? && posts[i].error.value.expired
  }

  predicate AnyRefused(posts: seq<Post>) {
    exists i :: 0 <= i < |posts| && posts[i].error.Some? && posts[i].error.value.refusal.Some?
  }

  lemma {:induction false} FirstStopAppended(failures: seq<Post>, last: Post)
    ensures FirstStop(failures + [last])
            == if FirstStop(failures).Some? then FirstStop(failures)
               else if last.error.Some? && last.error.value.stops then Some(last.error.value.id) else None
  {
    if failures == [] {
      assert [last][1..] == [] && [] + [last] == [last];
    } else {
      assert (failures + [last])[1..] == failures[1..] + [last];
      FirstStopAppended(failures[1..], last);
    }
  }

  lemma {:induction false} FirstFailureIsFirst(posts: seq<Post>)
    ensures Failures(posts) == [] <==> forall i :: 0 <= i < |posts| ==> posts[i].error.None?
    ensures forall i: nat :: IsFirstFailure(posts, i) ==> Failures(posts) != [] && Failures(posts)[0] == posts[i]
  {
    if posts != [] {
      var front := posts[..|posts| - 1];
      FirstFailureIsFirst(front);
      forall i: nat | IsFirstFailure(posts, i) ensures Failures(posts) != [] && Failures(posts)[0] == posts[i] {
        assert i < |front| ==> IsFirstFailure(front, i);
      }
    }
  }

  lemma {:induction false} FirstStopIsFirst(posts: seq<Post>)
    ensures FirstStop(Failures(posts)).Some? <==> AnyStops(posts)
    ensures forall i: nat :: IsFirstStop(posts, i) ==> FirstStop(Failures(posts)) == Some(posts[i].error.value.id)
  {
    if posts != [] {
      var front, last := posts[..|posts| - 1], posts[|posts| - 1];
      FirstStopIsFirst(front);
      FirstStopAppended(Failures(front), last);
      assert AnyStops(posts) <==> AnyStops(front) || (last.error.Some? && last.error.value.stops);
      forall i: nat | IsFirstStop(posts, i) ensures FirstStop(Failures(posts)) == Some(posts[i].error.value.id) {
        assert i < |front| ==> IsFirstStop(front, i);
      }
    }
  }

  lemma {:induction false} RefusalsOf(failures: seq<Post>)
    ensures forall refusal :: refusal in Refusals(failures) <==>
              exists post :: post in failures && post.error.Some? && post.error.value.refusal == Some(refusal)
  {
    if failures != [] {
      var front, last := failures[..|failures| - 1], failures[|failures| - 1];
      RefusalsOf(front);
      assert failures == front + [last];
    }
  }

  lemma FailuresTell(posts: seq<Post>)
    ensures SomeExpired(Failures(posts)) <==> AnyExpired(posts)
    ensures Refusals(Failures(posts)) == [] <==> !AnyRefused(posts)
  {
    var failures := Failures(posts);
    FailuresHaveErrors(posts);
    RefusalsOf(failures);
    FirstIsInside(Refusals(failures));
    if SomeExpired(failures) {
      var i :| 0 <= i < |failures| && failures[i].error.Some? && failures[i].error.value.expired;
      assert failures[i] in posts;
    }
    if AnyExpired(posts) {
      var i :| 0 <= i < |posts| && posts[i].error.Some? && posts[i].error.value.expired;
      assert posts[i] in failures;
    }
    if AnyRefused(posts) {
      var i :| 0 <= i < |posts| && posts[i].error.Some? && posts[i].error.value.refusal.Some?;
      assert posts[i] in failures && posts[i].error.value.refusal.value in Refusals(failures);
    }
  }

  /**
   * The rules in their order, told by the posts: a stop throws first, then an
   * expired post ends a restarted phase, then a phase with no refusal throws its
   * first failure, and a refused one repairs until its restarts are used up.
   */
  lemma RuleIff(posts: seq<Post>, restarts: nat)
    ensures RuleOf(posts, restarts) == AllAccepted <==> forall i :: 0 <= i < |posts| ==> posts[i].error.None?
    ensures forall i: nat :: IsFirstStop(posts, i) ==> RuleOf(posts, restarts) == Rethrow(posts[i].error.value.id)
    ensures RuleOf(posts, restarts) == EndExpired <==> !AnyStops(posts) && restarts > 0 && AnyExpired(posts)
    ensures forall i: nat ::
              IsFirstFailure(posts, i) && !AnyStops(posts) && !(restarts > 0 && AnyExpired(posts)) && !AnyRefused(posts)
              ==> RuleOf(posts, restarts) == Rethrow(posts[i].error.value.id)
    ensures !AnyStops(posts) && !(restarts > 0 && AnyExpired(posts)) && AnyRefused(posts) ==>
              RuleOf(posts, restarts)
              == if restarts >= DEVICE_SET_RESTARTS_MAXIMUM then EndExhausted else RepairAndRestart
  {
    FirstFailureIsFirst(posts);
    FirstStopIsFirst(posts);
    FailuresTell(posts);
    FailuresHaveErrors(posts);
  }

  // --- The waits for bundles ----------------------------------------------------------

  function DeviceSetBundleRetryDelay(consecutiveMisses: nat): nat {
    if consecutiveMisses <= 1 then 250 else if consecutiveMisses == 2 then 500 else 1000
  }

  /** The longest total wait of a number of repairs: each of them misses a bundle. */
  function LongestWait(repairs: nat): nat {
    if repairs == 0 then 0 else LongestWait(repairs - 1) + DeviceSetBundleRetryDelay(repairs)
  }

  lemma {:induction false} LongestWaitGrows(fewer: nat, more: nat)
    requires fewer <= more
    ensures LongestWait(fewer) <= LongestWait(more)
    decreases more
  {
    if fewer < more {
      LongestWaitGrows(fewer, more - 1);
    }
  }

  /** The wait doubles with each miss in a row, from 250 milliseconds up to one second. */
  lemma WaitsDouble(misses: nat)
    requires misses > 0
    ensures DeviceSetBundleRetryDelay(1) == 250
    ensures DeviceSetBundleRetryDelay(misses + 1)
            == if DeviceSetBundleRetryDelay(misses) < 1000 then 2 * DeviceSetBundleRetryDelay(misses) else 1000
  {
  }

  lemma LongestWaitOfTenRepairs()
    ensures LongestWait(10) == 8750
  {
    assert LongestWait(2) == 750;
    assert LongestWait(4) == 2750;
    assert LongestWait(6) == 4750;
    assert LongestWait(8) == 6750;
  }

  // --- The accounting of the devices ----------------------------------------------------

  /** Some pass of the first `passes` passes accepted the device. */
  ghost predicate AcceptedIn(run: PhaseRun, passes: nat, device: Device) {
    exists k :: 0 <= k < passes && AcceptedBy(run.pass(k), device)
  }

  ghost predicate AcceptedBy(answer: PassAnswer, device: Device) {
    answer.Posted? && Post(device, None) in answer.posts
  }

  /** Some post of the pass to the device failed. */
  ghost predicate FailedBy(answer: PassAnswer, device: Device) {
    answer.Posted? && exists error :: Post(device, Some(error)) in answer.posts
  }

  function NamedDevices(repairs: seq<AccountRepair>): seq<Device> {
    if repairs == [] then []
    else
      var last := repairs[|repairs| - 1];
      var ids := last.missingDeviceIds + last.staleDeviceIds;
      NamedDevices(repairs[..|repairs| - 1]) + seq(|ids|, i requires 0 <= i < |ids| => Device(last.userId, ids[i]))
  }

  /** The missing and stale devices that the refusals of a pass name. */
  function NamedBy(answer: PassAnswer): seq<Device> {
    if answer.Posted? then NamedDevices(Merged(Refusals(Failures(answer.posts)))) else []
  }

  /** The named devices are exactly the missing and the stale devices of the repairs. */
  lemma {:induction false} NamedDevicesIff(repairs: seq<AccountRepair>, device: Device)
    ensures device in NamedDevices(repairs) <==>
            exists repair :: repair in repairs && repair.userId == device.userId
                             && (device.deviceId in repair.missingDeviceIds || device.deviceId in repair.staleDeviceIds)
  {
    if repairs != [] {
      var front, last := repairs[..|repairs| - 1], repairs[|repairs| - 1];
      var ids := last.missingDeviceIds + last.staleDeviceIds;
      NamedDevicesIff(front, device);
      assert repairs == front + [last];
      var named := seq(|ids|, i requires 0 <= i < |ids| => Device(last.userId, ids[i]));
      assert device in named <==> device.userId == last.userId && device.deviceId in ids by {
        if device.userId == last.userId && device.deviceId in ids {
          var i :| 0 <= i < |ids| && ids[i] == device.deviceId;
          assert named[i] == device;
        }
      }
    }
  }

  /** A post of the pass was refused so. */
  ghost predicate Refuses(posts: seq<Post>, refusal: Refusal) {
    exists post :: post in posts && post.error.Some? && post.error.value.refusal == Some(refusal)
  }

  lemma {:induction false} RefusalsMembers(failures: seq<Post>, refusal: Refusal)
    ensures refusal in Refusals(failures) <==> Refuses(failures, refusal)
  {
    if failures != [] {
      var front, last := failures[..|failures| - 1], failures[|failures| - 1];
      assert failures == front + [last];
      RefusalsMembers(front, refusal);
    }
  }

  lemma RefusesIff(posts: seq<Post>, refusal: Refusal)
    ensures refusal in Refusals(Failures(posts)) <==> Refuses(posts, refusal)
  {
    RefusalsMembers(Failures(posts), refusal);
    FilterMembers(posts, (post: Post) => post.error.Some?);
  }

  /** A refusal of the pass names the device so. */
  ghost predicate NamesAs(posts: seq<Post>, part: Part, device: Device) {
    exists refusal :: Refuses(posts, refusal) && SaysPart(refusal, device.userId, part, device.deviceId)
  }

  lemma NamesAsSays(posts: seq<Post>, part: Part, device: Device)
    ensures NamesAs(posts, part, device) <==>
            Says(Refusals(Failures(posts)), device.userId, part, device.deviceId)
  {
    forall refusal ensures refusal in Refusals(Failures(posts)) <==> Refuses(posts, refusal) {
      RefusesIff(posts, refusal);
    }
  }

  /** A pass names exactly the devices that a refusal of it names missing or stale, and that none names extra. */
  lemma NamedByIff(answer: PassAnswer, device: Device)
    ensures device in NamedBy(answer) <==>
            && answer.Posted? && !NamesAs(answer.posts, ExtraPart, device)
            && (NamesAs(answer.posts, MissingPart, device) || NamesAs(answer.posts, StalePart, device))
  {
    if answer.Posted? {
      var refusals := Refusals(Failures(answer.posts));
      NamesAsSays(answer.posts, ExtraPart, device);
      NamesAsSays(answer.posts, MissingPart, device);
      NamesAsSays(answer.posts, StalePart, device);
      NamedDevicesIff(Merged(refusals), device);
      RepairedAccountsIff(refusals, device.userId);
      forall repair | repair in Merged(refusals) && repair.userId == device.userId
        ensures (device.deviceId in repair.missingDeviceIds || device.deviceId in repair.staleDeviceIds) <==>
                && !Says(refusals, device.userId, ExtraPart, device.deviceId)
                && (|| Says(refusals, device.userId, MissingPart, device.deviceId)
                    || Says(refusals, device.userId, StalePart, device.deviceId))
      {
        RepairNamesTheRefused(refusals, repair, device.deviceId);
      }
      if Says(refusals, device.userId, MissingPart, device.deviceId) {
        SaidAccount(refusals, device, MissingPart);
      }
      if Says(refusals, device.userId, StalePart, device.deviceId) {
        SaidAccount(refusals, device, StalePart);
      }
    }
  }

  lemma SaidAccount(refusals: seq<Refusal>, device: Device, part: Part)
    requires Says(refusals, device.userId, part, device.deviceId)
    ensures exists refusal :: refusal in refusals && SaysAccount(refusal, device.userId)
  {
    var refusal :| refusal in refusals && SaysPart(refusal, device.userId, part, device.deviceId);
    assert SaysAccount(refusal, device.userId);
  }

  /** Collect the accepted devices of one pass. */
  method CollectAccepted(posts: seq<Post>, accepted: seq<Device>) returns (accepted': seq<Device>)
    requires Unique(accepted)
    ensures Unique(accepted')
    ensures forall d :: d in accepted' <==> d in accepted || Post(d, None) in posts
  {
    accepted' := accepted;
    for i := 0 to |posts|
      invariant Unique(accepted')
      invariant forall d :: d in accepted' <==> d in accepted || Post(d, None) in posts[..i]
    {
      assert posts[..i + 1] == posts[..i] + [posts[i]];
      if posts[i].error.None? {
        PutDeviceAdds(accepted', posts[i].device);
        accepted' := PutDevice(accepted', posts[i].device);
      }
    }
    assert posts[..|posts|] == posts;
  }

  /** The devices of an unresolved end: failed or named, and accepted in no pass. */
  method CollectUnresolved(posts: seq<Post>, named: seq<Device>, accepted: seq<Device>)
    returns (unresolved: seq<Device>)
    ensures Unique(unresolved)
    ensures forall d :: d in unresolved
                        <==> d !in accepted && ((exists e :: Post(d, Some(e)) in posts) || d in named)
  {
    unresolved := [];
    for i := 0 to |posts|
      invariant Unique(unresolved)
      invariant forall d :: d in unresolved <==> d !in accepted && exists e :: Post(d, Some(e)) in posts[..i]
    {
      assert posts[..i + 1] == posts[..i] + [posts[i]];
      HasDeviceIsMembership(accepted, posts[i].device);
      if posts[i].error.Some? && !HasDevice(accepted, posts[i].device) {
        PutDeviceAdds(unresolved, posts[i].device);
        unresolved := PutDevice(unresolved, posts[i].device);
      }
    }
    assert posts[..|posts|] == posts;
    for i := 0 to |named|
      invariant Unique(unresolved)
      invariant forall d :: d in unresolved
                            <==> d !in accepted && ((exists e :: Post(d, Some(e)) in posts) || d in named[..i])
    {
      assert named[..i + 1] == named[..i] + [named[i]];
      HasDeviceIsMembership(accepted, named[i]);
      if !HasDevice(accepted, named[i]) {
        PutDeviceAdds(unresolved, named[i]);
        unresolved := PutDevice(unresolved, named[i]);
      }
    }
    assert named[..|named|] == named;
  }

  /** A refusal of devices without a bundle: one entry for each account, with its devices. */
  function BundleRefusal(bundleMissing: seq<Device>): LastRefusal {
    var users := UserList(bundleMissing);
    LastRefusal(
      BundleNotFound,
      seq(|users|, i requires 0 <= i < |users| =>
        AccountRepair(users[i], IdsOf(bundleMissing, users[i]), [], [])))
  }

  /** It names exactly the devices without a bundle, as missing, each account once. */
  lemma BundleRefusalNames(bundleMissing: seq<Device>)
    ensures var refusal := BundleRefusal(bundleMissing);
            && refusal.code == BundleNotFound
            && (forall i, j :: 0 <= i < j < |refusal.accounts| ==>
                  refusal.accounts[i].userId != refusal.accounts[j].userId)
            && (forall repair :: repair in refusal.accounts ==>
                  && repair.extraDeviceIds == [] && repair.staleDeviceIds == []
                  && forall id :: id in repair.missingDeviceIds <==> Device(repair.userId, id) in bundleMissing)
            && (forall device :: device in bundleMissing ==>
                  exists repair :: repair in refusal.accounts && repair.userId == device.userId)
  {
    var users, accounts := UserList(bundleMissing), BundleRefusal(bundleMissing).accounts;
    UserListMembers(bundleMissing);
    forall repair, id | repair in accounts
      ensures id in repair.missingDeviceIds <==> Device(repair.userId, id) in bundleMissing
    {
      IdsOfMembers(bundleMissing, repair.userId);
    }
    forall device | device in bundleMissing
      ensures exists repair :: repair in accounts && repair.userId == device.userId
    {
      assert device.userId in users;
      var i :| 0 <= i < |users| && users[i] == device.userId;
      assert accounts[i] in accounts;
    }
  }

  /** A refusal that a phase reports names a mismatch if one of its refusals is one, and the repairs. */
  lemma LastRefusalNames(refusals: seq<Refusal>, repairs: seq<AccountRepair>)
    ensures var last := LastRefusalOf(refusals, repairs);
            && last.accounts == repairs
            && (last.code == DeviceSetMismatch <==> exists refusal :: refusal in refusals && refusal.Mismatch?)
            && (last.code == StaleDevice <==> forall refusal :: refusal in refusals ==> refusal.Stale?)
  {
    if refusal :| refusal in refusals && refusal.Mismatch? {
      var i :| 0 <= i < |refusals| && refusals[i] == refusal;
    }
  }

  // --- The run -------------------------------------------------------------------------------

  function RefusalsAt(run: PhaseRun, k: nat): seq<Refusal> {
    if run.pass(k).Posted? then Refusals(Failures(run.pass(k).posts)) else []
  }

  function BundleMissingAt(run: PhaseRun, k: nat): seq<Device> {
    if run.repair(k).Repaired? then run.repair(k).bundleMissing else []
  }

  /** What the first repairs of a run are asked to repair. */
  function Requested(run: PhaseRun, repairs: nat): (requested: seq<seq<AccountRepair>>)
    ensures |requested| == repairs
  {
    if repairs == 0 then [] else Requested(run, repairs - 1) + [Merged(RefusalsAt(run, repairs - 1))]
  }

  /** The number of repairs in a row, up to the last of some, that missed a bundle. */
  function MissesAfter(run: PhaseRun, repairs: nat): (misses: nat)
    ensures misses <= repairs
  {
    if repairs == 0 || BundleMissingAt(run, repairs - 1) == [] then 0 else MissesAfter(run, repairs - 1) + 1
  }

  /** The wait after the repair `k`. */
  function WaitAt(run: PhaseRun, k: nat): nat {
    if BundleMissingAt(run, k) == [] then 0 else DeviceSetBundleRetryDelay(MissesAfter(run, k + 1))
  }

  function WaitedAfter(run: PhaseRun, repairs: nat): nat {
    if repairs == 0 then 0 else WaitedAfter(run, repairs - 1) + WaitAt(run, repairs - 1)
  }

  /** What the phase reports after the repair `k`, which the refusals asked for. */
  function RefusedAt(run: PhaseRun, k: nat, repairs: seq<AccountRepair>): LastRefusal {
    if BundleMissingAt(run, k) == [] then LastRefusalOf(RefusalsAt(run, k), repairs)
    else BundleRefusal(BundleMissingAt(run, k))
  }

  /** What the phase reports after its repairs. */
  function RefusedAfter(run: PhaseRun, requested: seq<seq<AccountRepair>>): Option<LastRefusal> {
    if requested == [] then None else Some(RefusedAt(run, |requested| - 1, requested[|requested| - 1]))
  }

  /** The pass ends no phase: the run repairs, waits when a bundle is missing, and passes again. */
  ghost predicate Continues(run: PhaseRun, k: nat) {
    && run.pass(k).Posted?
    && RuleOf(run.pass(k).posts, run.restarts + k) == RepairAndRestart
    && run.repair(k).Repaired?
    && (BundleMissingAt(run, k) != [] ==> run.waitEnds(k, WaitAt(run, k)))
  }

  /** How a pass ends the run, after the repairs that the passes before it asked for. */
  ghost predicate EndsWith(run: PhaseRun, requested: seq<seq<AccountRepair>>, end: PhaseEnd) {
    var k := |requested|;
    match run.pass(k)
    case PassThrew(error) => end == Threw(error)
    case Posted(posts) =>
      match RuleOf(posts, run.restarts + k)
      case AllAccepted => end == Complete(posts)
      case Rethrow(error) => end == Threw(error)
      case EndExpired =>
        && end.Unresolved? && end.reason == Expired && end.restarts == run.restarts + k
        && end.lastRefusal == RefusedAfter(run, requested)
      case EndExhausted =>
        && end.Unresolved? && end.reason == Exhausted && end.restarts == run.restarts + k
        && end.lastRefusal == Some(LastRefusalOf(RefusalsAt(run, k), Merged(RefusalsAt(run, k))))
      case RepairAndRestart =>
        if run.repair(k).RepairThrew? then end == Threw(run.repair(k).error)
        else end == Stopped && BundleMissingAt(run, k) != [] && !run.waitEnds(k, WaitAt(run, k))
  }

  /** Every device of an unresolved end is accounted for once. */
  ghost predicate Accounts(run: PhaseRun, passes: nat, end: PhaseEnd)
    requires end.Unresolved? && passes > 0
  {
    && Unique(end.acceptedDevices) && Unique(end.unresolvedDevices)
    && (forall d :: d in end.acceptedDevices <==> AcceptedIn(run, passes, d))
    && (forall d :: d in end.unresolvedDevices
                    <==> && !AcceptedIn(run, passes, d)
                         && (|| FailedBy(run.pass(passes - 1), d)
                             || (end.reason == Exhausted && d in NamedBy(run.pass(passes - 1)))))
  }

  /** The repairs that a stored restart count leaves to the phase. */
  function RestartsLeft(restarts: nat): nat {
    if restarts < DEVICE_SET_RESTARTS_MAXIMUM then DEVICE_SET_RESTARTS_MAXIMUM - restarts else 0
  }

  /** The list holds exactly the devices that the first `passes` passes accepted. */
  ghost predicate Collected(run: PhaseRun, passes: nat, accepted: seq<Device>) {
    Unique(accepted) && forall d :: d in accepted <==> AcceptedIn(run, passes, d)
  }

  /** Collect the accepted devices of the pass `k`. */
  method CollectPass(run: PhaseRun, k: nat, accepted: seq<Device>) returns (accepted': seq<Device>)
    requires Collected(run, k, accepted) && run.pass(k).Posted?
    ensures Collected(run, k + 1, accepted')
  {
    accepted' := CollectAccepted(run.pass(k).posts, accepted);
    AcceptedInOneMore(run, k);
  }

  /** The unresolved end of a run after its pass `k`. */
  method Unresolve(run: PhaseRun, k: nat, reason: Reason, lastRefusal: Option<LastRefusal>, named: seq<Device>,
                   accepted: seq<Device>)
    returns (end: PhaseEnd)
    requires run.pass(k).Posted? && Collected(run, k + 1, accepted)
    requires named == if reason == Exhausted then NamedBy(run.pass(k)) else []
    ensures end.Unresolved? && Accounts(run, k + 1, end)
    ensures end.reason == reason && end.restarts == run.restarts + k && end.lastRefusal == lastRefusal
  {
    var unresolved := CollectUnresolved(run.pass(k).posts, named, accepted);
    end := Unresolved(reason, run.restarts + k, lastRefusal, accepted, unresolved);
  }

  /** What the first rule that applies makes of a pass: an end, or the repairs to commit. */
  method JudgePass(run: PhaseRun, requested: seq<seq<AccountRepair>>, lastRefusal: Option<LastRefusal>,
                   accepted: seq<Device>)
    returns (end: Option<PhaseEnd>, repairs: seq<AccountRepair>, refused: Option<LastRefusal>)
    requires run.pass(|requested|).Posted? && Collected(run, |requested| + 1, accepted)
    requires lastRefusal == RefusedAfter(run, requested)
    ensures end.None? <==> RuleOf(run.pass(|requested|).posts, run.restarts + |requested|) == RepairAndRestart
    ensures end.Some? ==> EndsWith(run, requested, end.value)
    ensures end.Some? && end.value.Unresolved? ==> Accounts(run, |requested| + 1, end.value)
    ensures end.None? ==>
              && |requested| < RestartsLeft(run.restarts) && repairs == Merged(RefusalsAt(run, |requested|))
              && refused == Some(LastRefusalOf(RefusalsAt(run, |requested|), repairs))
  {
    var k := |requested|;
    var posts := run.pass(k).posts;
    var failures := Failures(posts);
    repairs, refused := [], lastRefusal;
    if failures == [] {
      return Some(Complete(posts)), repairs, refused;
    }
    if FirstStop(failures).Some? {
      return Some(Threw(FirstStop(failures).value)), repairs, refused;
    }
    if run.restarts + k > 0 && SomeExpired(failures) {
      var ended := Unresolve(run, k, Expired, lastRefusal, [], accepted);
      return Some(ended), repairs, refused;
    }
    var refusals := Refusals(failures);
    if refusals == [] {
      FailuresHaveErrors(posts);
      return Some(Threw(failures[0].error.value.id)), repairs, refused;
    }
    repairs := MergeDeviceSetRefusals(refusals);
    refused := Some(LastRefusalOf(refusals, repairs));
    if run.restarts + k >= DEVICE_SET_RESTARTS_MAXIMUM {
      var ended := Unresolve(run, k, Exhausted, refused, NamedDevices(repairs), accepted);
      return Some(ended), repairs, refused;
    }
    return None, repairs, refused;
  }

  /** Commit the repairs of a pass, and wait when a listed device has no bundle. */
  method RepairPass(run: PhaseRun, k: nat, repairs: seq<AccountRepair>, bundleMisses: nat, waited: nat,
                    refused: LastRefusal)
    returns (stop: Option<PhaseEnd>, bundleMisses': nat, waited': nat, lastRefusal: LastRefusal)
    requires run.pass(k).Posted? && RuleOf(run.pass(k).posts, run.restarts + k) == RepairAndRestart
    requires refused == LastRefusalOf(RefusalsAt(run, k), repairs)
    requires bundleMisses == MissesAfter(run, k) && waited == WaitedAfter(run, k)
    ensures stop.None? ==> Continues(run, k) && bundleMisses' == MissesAfter(run, k + 1)
    ensures stop.None? ==> lastRefusal == RefusedAt(run, k, repairs)
    ensures stop.Some? && run.repair(k).RepairThrew? ==> stop.value == Threw(run.repair(k).error)
    ensures stop.Some? && run.repair(k).Repaired? ==>
              stop.value == Stopped && BundleMissingAt(run, k) != [] && !run.waitEnds(k, WaitAt(run, k))
    ensures waited' == if run.repair(k).Repaired? then WaitedAfter(run, k + 1) else WaitedAfter(run, k)
  {
    bundleMisses', waited', lastRefusal := bundleMisses, waited, refused;
    var repaired := run.repair(k);
    if repaired.RepairThrew? {
      return Some(Threw(repaired.error)), bundleMisses', waited', lastRefusal;
    }
    if repaired.bundleMissing == [] {
      bundleMisses' := 0;
    } else {
      bundleMisses' := bundleMisses + 1;
      lastRefusal := BundleRefusal(repaired.bundleMissing);
      waited' := waited + DeviceSetBundleRetryDelay(bundleMisses');
      if !run.waitEnds(k, DeviceSetBundleRetryDelay(bundleMisses')) {
        return Some(Stopped), bundleMisses', waited', lastRefusal;
      }
    }
    stop := None;
  }

  /** Some repairs committed, and the next pass is to come. */
  ghost predicate Running(run: PhaseRun, requested: seq<seq<AccountRepair>>, bundleMisses: nat, waited: nat,
                          lastRefusal: Option<LastRefusal>)
  {
    && requested == Requested(run, |requested|) && |requested| <= RestartsLeft(run.restarts)
    && bundleMisses == MissesAfter(run, |requested|) && waited == WaitedAfter(run, |requested|)
    && lastRefusal == RefusedAfter(run, requested)
  }

  ghost predicate AllContinue(run: PhaseRun, passes: nat) {
    forall k :: 0 <= k < passes ==> Continues(run, k)
  }

  lemma OneMoreRequested(run: PhaseRun, requested: seq<seq<AccountRepair>>, repairs: seq<AccountRepair>)
    requires requested == Requested(run, |requested|) && repairs == Merged(RefusalsAt(run, |requested|))
    ensures requested + [repairs] == Requested(run, |requested| + 1)
  {
  }

  lemma OneMoreContinues(run: PhaseRun, passes: nat)
    requires AllContinue(run, passes) && Continues(run, passes)
    ensures AllContinue(run, passes + 1)
  {
  }

  lemma LastRequested(run: PhaseRun, requested: seq<seq<AccountRepair>>, repairs: seq<AccountRepair>)
    ensures RefusedAfter(run, requested + [repairs]) == Some(RefusedAt(run, |requested|, repairs))
  {
    assert (requested + [repairs])[|requested|] == repairs;
  }

  /** The number of repairs that committed with a new restart count. */
  function Committed(run: PhaseRun, requested: seq<seq<AccountRepair>>, last: Option<seq<AccountRepair>>): nat {
    |requested| + if last.Some? && run.repair(|requested|).Repaired? then 1 else 0
  }

  /** The repairs that ended the run, which threw or whose wait did not end. */
  ghost predicate EndedInRepair(run: PhaseRun, requested: seq<seq<AccountRepair>>, last: Option<seq<AccountRepair>>,
                                waited: nat)
  {
    && (last.Some? <==>
          && run.pass(|requested|).Posted?
          && RuleOf(run.pass(|requested|).posts, run.restarts + |requested|) == RepairAndRestart)
    && (last.Some? ==> last.value == Merged(RefusalsAt(run, |requested|)) && |requested| < RestartsLeft(run.restarts))
    && waited == WaitedAfter(run, Committed(run, requested, last))
  }

  /** One pass and the repair after it. The run goes on when there is no end. */
  method Round(run: PhaseRun, requested: seq<seq<AccountRepair>>, bundleMisses: nat, waited: nat,
               lastRefusal: Option<LastRefusal>, accepted: seq<Device>)
    returns (end: Option<PhaseEnd>, repairs: Option<seq<AccountRepair>>, requested': seq<seq<AccountRepair>>,
             bundleMisses': nat, waited': nat, lastRefusal': Option<LastRefusal>, accepted': seq<Device>)
    requires Running(run, requested, bundleMisses, waited, lastRefusal) && Collected(run, |requested|, accepted)
    requires AllContinue(run, |requested|)
    ensures end.Some? ==>
              && requested' == requested && EndsWith(run, requested, end.value)
              && EndedInRepair(run, requested, repairs, waited')
    ensures end.Some? && end.value.Unresolved? ==> Accounts(run, |requested| + 1, end.value)
    ensures end.None? ==>
              && |requested| < |requested'| <= RestartsLeft(run.restarts)
              && AllContinue(run, |requested'|) && Collected(run, |requested'|, accepted')
              && Running(run, requested', bundleMisses', waited', lastRefusal')
  {
    requested' := requested;
    end, repairs, bundleMisses', waited', lastRefusal', accepted' :=
      None, None, bundleMisses, waited, lastRefusal, accepted;
    var k := |requested|;
    var answer := run.pass(k);
    if answer.PassThrew? {
      end := Some(Threw(answer.error));
      return;
    }
    accepted' := CollectPass(run, k, accepted);
    var named, refused;
    end, named, refused := JudgePass(run, requested, lastRefusal, accepted');
    if end.Some? {
      return;
    }
    var refusal;
    repairs := Some(named);
    end, bundleMisses', waited', refusal := RepairPass(run, k, named, bundleMisses, waited, refused.value);
    lastRefusal' := Some(refusal);
    if end.None? {
      OneMoreRequested(run, requested, named);
      OneMoreContinues(run, k);
      LastRequested(run, requested, named);
      requested' := requested + [named];
      assert |requested'| == k + 1;
    }
  }

  /**
   * Run one phase until every post is accepted or a rule ends it. `requested`
   * are the repairs that it asked for and that committed with a new restart
   * count, `last` are those that threw or whose wait ended the run, and `waited`
   * adds the waits.
   */
  method RunDeviceSetPhase(run: PhaseRun)
    returns (end: PhaseEnd, requested: seq<seq<AccountRepair>>, last: Option<seq<AccountRepair>>, waited: nat)
    ensures requested == Requested(run, |requested|) && |requested| <= RestartsLeft(run.restarts)
    ensures AllContinue(run, |requested|)
    ensures EndsWith(run, requested, end) && EndedInRepair(run, requested, last, waited)
    ensures waited <= LongestWait(Committed(run, requested, last)) <= 8750
    ensures end.Unresolved? ==> Accounts(run, |requested| + 1, end)
    ensures end.Unresolved? && end.reason == Exhausted ==> end.lastRefusal.Some?
    ensures end.Unresolved? && end.reason == Expired ==>
              (end.lastRefusal.Some? <==> requested != []) && run.restarts + |requested| > 0
  {
    var bundleMisses: nat := 0;
    var lastRefusal: Option<LastRefusal> := None;
    var accepted: seq<Device> := [];
    requested, last, waited := [], None, 0;
    while true
      invariant Running(run, requested, bundleMisses, waited, lastRefusal)
      invariant Collected(run, |requested|, accepted) && AllContinue(run, |requested|)
      decreases DEVICE_SET_RESTARTS_MAXIMUM - |requested|
    {
      var ended;
      ended, last, requested, bundleMisses, waited, lastRefusal, accepted :=
        Round(run, requested, bundleMisses, waited, lastRefusal, accepted);
      if ended.Some? {
        end := ended.value;
        WaitBound(run, Committed(run, requested, last));
        EndTells(run, requested, end);
        return;
      }
    }
  }

  lemma EndTells(run: PhaseRun, requested: seq<seq<AccountRepair>>, end: PhaseEnd)
    requires EndsWith(run, requested, end)
    ensures end.Unresolved? && end.reason == Exhausted ==> end.lastRefusal.Some?
    ensures end.Unresolved? && end.reason == Expired ==>
              (end.lastRefusal.Some? <==> requested != []) && run.restarts + |requested| > 0
  {
  }

  lemma {:induction false} WaitBound(run: PhaseRun, repairs: nat)
    requires repairs <= DEVICE_SET_RESTARTS_MAXIMUM
    ensures WaitedAfter(run, repairs) <= LongestWait(repairs) <= 8750
  {
    LongestWaitGrows(repairs, 10);
    LongestWaitOfTenRepairs();
    if repairs > 0 {
      WaitBound(run, repairs - 1);
    }
  }

  lemma AcceptedInOneMore(run: PhaseRun, passes: nat)
    ensures forall d :: AcceptedIn(run, passes + 1, d)
                        <==> AcceptedIn(run, passes, d) || AcceptedBy(run.pass(passes), d)
  {
  }

  // --- Crashes and resumes ---------------------------------------------------------------------

  /** The commit of a repair. The store takes it only from the run that read the stored count. */
  function CommitRepair(stored: nat, restarts: nat): Option<nat> {
    if restarts == stored + 1 then Some(restarts) else None
  }

  /** The stored restart count of a phase, and the count of each run of it that is alive. */
  datatype PhaseState = PhaseState(stored: nat, running: map<nat, nat>)

  /** A run starts from the stored count, or commits its next repair, or ends or crashes. */
  datatype PhaseEvent = Resume(id: nat) | Repair(id: nat) | End(id: nat)

  predicate CanHappen(s: PhaseState, e: PhaseEvent) {
    e.Repair? ==> e.id in s.running && s.running[e.id] < DEVICE_SET_RESTARTS_MAXIMUM
  }

  function AfterEvent(s: PhaseState, e: PhaseEvent): PhaseState
    requires CanHappen(s, e)
  {
    match e
    case Resume(id) => s.(running := s.running[id := s.stored])
    case End(id) => s.(running := s.running - {id})
    case Repair(id) =>
      var restarts := s.running[id] + 1;
      match CommitRepair(s.stored, restarts)
      case Some(count) => PhaseState(count, s.running[id := restarts])
      case None => s.(running := s.running - {id})
  }

  ghost predicate ValidEvents(s: PhaseState, events: seq<PhaseEvent>)
    decreases |events|
  {
    events == [] || (CanHappen(s, events[0]) && ValidEvents(AfterEvent(s, events[0]), events[1..]))
  }

  /** The number of repairs that the events commit. */
  function Commits(s: PhaseState, events: seq<PhaseEvent>): nat
    requires ValidEvents(s, events)
    decreases |events|
  {
    if events == [] then 0
    else
      (if AfterEvent(s, events[0]).stored != s.stored then 1 else 0)
      + Commits(AfterEvent(s, events[0]), events[1..])
  }

  function StoredAfter(s: PhaseState, events: seq<PhaseEvent>): nat
    requires ValidEvents(s, events)
    decreases |events|
  {
    if events == [] then s.stored else StoredAfter(AfterEvent(s, events[0]), events[1..])
  }

  /** A repair commits if and only if no other run committed one since this run read the count. */
  lemma RepairCommitsIff(s: PhaseState, id: nat)
    requires CanHappen(s, Repair(id))
    ensures var after := AfterEvent(s, Repair(id));
            if s.running[id] == s.stored then after.stored == s.stored + 1 && id in after.running
                                              && after.running[id] == s.stored + 1
            else after.stored == s.stored && id !in after.running
  {
  }

  /**
   * Over any sequence of crashes, resumes and interleaved runs, a phase
   * commits at most ten repairs, and the stored count is their number.
   */
  lemma {:induction false} AtMostTenRepairs(s: PhaseState, events: seq<PhaseEvent>)
    requires s.stored <= DEVICE_SET_RESTARTS_MAXIMUM && ValidEvents(s, events)
    ensures StoredAfter(s, events) == s.stored + Commits(s, events) <= DEVICE_SET_RESTARTS_MAXIMUM
    decreases |events|
  {
    if events != [] {
      AtMostTenRepairs(AfterEvent(s, events[0]), events[1..]);
    }
  }
}
