/**
 * The shared body of a group send (client/group-sealed-sender.ts): the members
 * whose account has a known identity, grouped by account.
 */
module GroupSealedSender {
  import opened Options
  import opened Sequences
  import opened Associations
  import opened DeviceSets
  import opened GroupIntents

  type Accounts = seq<Entry<string, seq<nat>>>

  // --- The devices of a body --------------------------------------------------------------

  function AccountDevices(account: Entry<string, seq<nat>>): seq<Device> {
    seq(|account.value|, i requires 0 <= i < |account.value| => Device(account.key, account.value[i]))
  }

  /** The devices that the accounts name, account by account. */
  function DevicesOf(accounts: Accounts): seq<Device> {
    if accounts == [] then []
    else DevicesOf(accounts[..|accounts| - 1]) + AccountDevices(accounts[|accounts| - 1])
  }

  predicate Names(body: Body, userId: string) {
    Find(body.accounts, userId).Some?
  }

  predicate InBody(body: Body, device: Device) {
    Names(body, device.userId) && device.deviceId in Find(body.accounts, device.userId).value
  }

  /** Each account once, and each of its devices once. */
  ghost predicate BodyOk(body: Body) {
    UniqueKeys(body.accounts) && forall i :: 0 <= i < |body.accounts| ==> Unique(body.accounts[i].value)
  }

  lemma {:induction false} DevicesOfMembers(accounts: Accounts, device: Device)
    ensures device in DevicesOf(accounts) <==>
            exists i :: 0 <= i < |accounts| && accounts[i].key == device.userId && device.deviceId in accounts[i].value
  {
    if accounts != [] {
      var n := |accounts| - 1;
      DevicesOfMembers(accounts[..n], device);
      AccountDevicesMembers(accounts[n], device);
    }
  }

  lemma AccountDevicesMembers(account: Entry<string, seq<nat>>, device: Device)
    ensures device in AccountDevices(account) <==> account.key == device.userId && device.deviceId in account.value
  {
    if account.key == device.userId && device.deviceId in account.value {
      var i :| 0 <= i < |account.value| && account.value[i] == device.deviceId;
      assert AccountDevices(account)[i] == device;
    }
  }

  lemma BodyDevicesMembers(body: Body, device: Device)
    requires BodyOk(body)
    ensures device in DevicesOf(body.accounts) <==> InBody(body, device)
  {
    DevicesOfMembers(body.accounts, device);
    if device in DevicesOf(body.accounts) {
      var i :| 0 <= i < |body.accounts| && body.accounts[i].key == device.userId
            && device.deviceId in body.accounts[i].value;
      FindAt(body.accounts, i);
    }
  }

  lemma {:induction false} BodyDevicesAreUnique(accounts: Accounts)
    requires BodyOk(Body(accounts))
    ensures Unique(DevicesOf(accounts))
  {
    if accounts != [] {
      var n := |accounts| - 1;
      var front, last := DevicesOf(accounts[..n]), AccountDevices(accounts[n]);
      BodyDevicesAreUnique(accounts[..n]);
      forall i, j | 0 <= i < |front| && 0 <= j < |last| ensures front[i] != last[j] {
        DevicesOfMembers(accounts[..n], front[i]);
      }
    }
  }

  // --- Grouping by account -----------------------------------------------------------------

  function AddRecipient(accounts: Accounts, device: Device): Accounts {
    Put(accounts, device.userId, Find(accounts, device.userId).GetOr([]) + [device.deviceId])
  }

  /** The devices grouped by account, in the order of the first device of each. */
  function Grouped(devices: seq<Device>): Accounts {
    if devices == [] then []
    else AddRecipient(Grouped(devices[..|devices| - 1]), devices[|devices| - 1])
  }

  lemma {:induction false} GroupedFinds(devices: seq<Device>, userId: string)
    ensures UniqueKeys(Grouped(devices))
    ensures Find(Grouped(devices), userId)
            == if IdsOf(devices, userId) == [] then None else Some(IdsOf(devices, userId))
  {
    if devices != [] {
      var front, last := devices[..|devices| - 1], devices[|devices| - 1];
      GroupedFinds(front, userId);
      GroupedFinds(front, last.userId);
      var ids := Find(Grouped(front), last.userId).GetOr([]) + [last.deviceId];
      PutUnique(Grouped(front), last.userId, ids);
      FindPut(Grouped(front), last.userId, ids, userId);
    }
  }

  lemma GroupedIsOk(devices: seq<Device>)
    requires Unique(devices)
    ensures BodyOk(Body(Grouped(devices)))
  {
    GroupedFinds(devices, "");
    var accounts := Grouped(devices);
    forall i | 0 <= i < |accounts| ensures Unique(accounts[i].value) {
      FindAt(accounts, i);
      GroupedFinds(devices, accounts[i].key);
      IdsOfUnique(devices, accounts[i].key);
    }
  }

  // --- The split of the members -----------------------------------------------------------------

  function Shared(members: seq<Device>, known: set<string>): seq<Device> {
    Filter(members, (device: Device) => device.userId in known)
  }

  /** The body of the members with a known identity, or none when no member has one. */
  function PreparedBody(members: seq<Device>, known: set<string>): Option<Body> {
    if Shared(members, known) == [] then None else Some(Body(Grouped(Shared(members, known))))
  }

  /** Every account is wholly in the body or wholly out of it, by its identity. */
  lemma PreparedBodyHoldsWholeAccounts(members: seq<Device>, known: set<string>, device: Device)
    requires Unique(members)
    ensures var body := PreparedBody(members, known);
            && (body.Some? ==> BodyOk(body.value))
            && (device in members && device.userId in known ==> body.Some? && Names(body.value, device.userId))
            && (body.Some? && Names(body.value, device.userId) ==>
                  && device.userId in known
                  && (InBody(body.value, device) <==> device in members))
  {
    var shared := Shared(members, known);
    var keep := (d: Device) => d.userId in known;
    FilterMembers(members, keep);
    FilterUnique(members, keep);
    SameFilter(members, keep, (d: Device) => d.userId in known);
    GroupedIsOk(shared);
    GroupedFinds(shared, device.userId);
    IdsOfMembers(shared, device.userId);
    if device in shared {
      assert device.deviceId in IdsOf(shared, device.userId);
    }
    var ids := IdsOf(shared, device.userId);
    if ids != [] {
      assert ids[0] in ids;
      assert Device(device.userId, ids[0]) in shared;
    }
  }

  // --- The operation -------------------------------------------------------------------------------

  /**
   * Split the members by the identity of their account, and group those of the
   * body by account. `contacts` are the accounts whose identity is stored.
   */
  method PrepareGroupSharedMessage(members: seq<Device>, contacts: set<string>)
    returns (body: Option<Body>, shared: seq<Device>, fallback: seq<Device>)
    ensures shared == Filter(members, (device: Device) => device.userId in contacts)
    ensures fallback == Filter(members, (device: Device) => device.userId !in contacts)
    ensures body == PreparedBody(members, contacts)
    ensures multiset(members) == multiset(shared) + multiset(fallback)
  {
    var identities: set<string> := {};
    for i := 0 to |members|
      invariant forall user :: user in identities <==> user in contacts && HasMember(members[..i], user)
    {
      HasMemberOneMore(members, i);
      if members[i].userId in contacts {
        identities := identities + {members[i].userId};
      }
    }
    assert members[..|members|] == members;
    SplitByIdentity(members, identities, contacts);
    shared := Filter(members, (device: Device) => device.userId in identities);
    fallback := Filter(members, (device: Device) => device.userId !in identities);
    SplitKeepsAll(members, contacts);
    if shared == [] {
      return None, shared, fallback;
    }
    var accounts: Accounts := [];
    for i := 0 to |shared|
      invariant accounts == Grouped(shared[..i])
    {
      assert shared[..i + 1][..i] == shared[..i];
      accounts := AddRecipient(accounts, shared[i]);
    }
    assert shared[..|shared|] == shared;
    body := Some(Body(accounts));
  }

  predicate HasMember(members: seq<Device>, userId: string) {
    exists i :: 0 <= i < |members| && members[i].userId == userId
  }

  lemma HasMemberOneMore(members: seq<Device>, i: nat)
    requires i < |members|
    ensures forall user :: HasMember(members[..i + 1], user) <==>
              HasMember(members[..i], user) || user == members[i].userId
  {
    forall user ensures HasMember(members[..i + 1], user) <==>
                        HasMember(members[..i], user) || user == members[i].userId {
      if HasMember(members[..i], user) {
        var k :| 0 <= k < i && members[..i][k].userId == user;
        assert members[..i + 1][k].userId == user;
      }
      if user == members[i].userId {
        assert members[..i + 1][i].userId == user;
      }
      if HasMember(members[..i + 1], user) && user != members[i].userId {
        var k :| 0 <= k < i + 1 && members[..i + 1][k].userId == user;
        assert members[..i][k].userId == user;
      }
    }
  }

  lemma SplitByIdentity(members: seq<Device>, identities: set<string>, contacts: set<string>)
    requires forall user :: user in identities <==> user in contacts && HasMember(members, user)
    ensures Filter(members, (device: Device) => device.userId in identities) == Shared(members, contacts)
    ensures Filter(members, (device: Device) => device.userId !in identities)
            == Filter(members, (device: Device) => device.userId !in contacts)
  {
    forall device | device in members ensures HasMember(members, device.userId) {
    }
    SameFilter(members, (device: Device) => device.userId in identities,
               (device: Device) => device.userId in contacts);
    SameFilter(members, (device: Device) => device.userId !in identities,
               (device: Device) => device.userId !in contacts);
  }

  lemma {:induction false} SplitKeepsAll(members: seq<Device>, contacts: set<string>)
    ensures multiset(members) == multiset(Shared(members, contacts))
                               + multiset(Filter(members, (device: Device) => device.userId !in contacts))
  {
    if members != [] {
      var front, last := members[..|members| - 1], members[|members| - 1];
      SplitKeepsAll(front, contacts);
      assert members == front + [last];
    }
  }
}
