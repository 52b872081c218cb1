/**
 * The call of a declared group send (client/group-outbox.ts) with the variables
 * that its passes and repairs reassign.
 */
module DeclaredGroupSending {
  import opened Options
  import opened Sequences
  import opened Associations
  import opened DeviceSets
  import opened GroupIntents
  import opened GroupSealedSender
  import opened DeclaredGroupSends
  import opened DeclaredSendRuns

  // --- Sorting the IDs of a declaration ------------------------------------------------

  function Insert(ids: seq<nat>, id: nat): seq<nat> {
    if ids == [] then [id]
    else if id <= ids[0] then [id] + ids
    else [ids[0]] + Insert(ids[1..], id)
  }

  function SortIds(ids: seq<nat>): seq<nat> {
    if ids == [] then [] else Insert(SortIds(ids[..|ids| - 1]), ids[|ids| - 1])
  }

  lemma {:induction false} InsertAscends(ids: seq<nat>, id: nat)
    requires Ascending(ids) && id !in ids
    ensures Ascending(Insert(ids, id))
    ensures forall other :: other in Insert(ids, id) <==> other in ids || other == id
  {
    if ids != [] && id > ids[0] {
      var rest := Insert(ids[1..], id);
      InsertAscends(ids[1..], id);
      assert ids == [ids[0]] + ids[1..];
      forall i | 0 <= i < |rest| ensures ids[0] < rest[i] {
        assert rest[i] in rest;
      }
    }
  }

  lemma {:induction false} SortIdsSorts(ids: seq<nat>)
    requires Unique(ids)
    ensures Ascending(SortIds(ids)) && forall id :: id in SortIds(ids) <==> id in ids
  {
    if ids != [] {
      var front, last := ids[..|ids| - 1], ids[|ids| - 1];
      SortIdsSorts(front);
      assert ids == front + [last] && last !in front;
      InsertAscends(SortIds(front), last);
    }
  }

  function SortValues(accounts: Accounts): (sorted: Accounts)
    ensures |sorted| == |accounts|
    ensures forall i :: 0 <= i < |accounts| ==> sorted[i] == Entry(accounts[i].key, SortIds(accounts[i].value))
  {
    seq(|accounts|, i requires 0 <= i < |accounts| => Entry(accounts[i].key, SortIds(accounts[i].value)))
  }

  /** The declaration of devices: their IDs by account, each ascending. */
  function Declared(devices: seq<Device>): Accounts {
    SortValues(Grouped(devices))
  }

  lemma {:induction false} FindSorted(accounts: Accounts, userId: string)
    ensures Find(SortValues(accounts), userId)
            == if Find(accounts, userId).Some? then Some(SortIds(Find(accounts, userId).value)) else None
  {
    if accounts != [] && accounts[0].key != userId {
      FindSorted(accounts[1..], userId);
      assert SortValues(accounts)[1..] == SortValues(accounts[1..]);
    }
  }

  /** A declaration names each account of its devices with all of its device IDs, ascending. */
  lemma DeclaredFinds(devices: seq<Device>, userId: string)
    requires Unique(devices)
    ensures Find(Declared(devices), userId)
            == if AccountIds(devices, userId) == {} then None else Some(DeclaredIds(devices, userId))
  {
    var ids := IdsOf(devices, userId);
    GroupedFinds(devices, userId);
    FindSorted(Grouped(devices), userId);
    IdsOfMembers(devices, userId);
    IdsOfUnique(devices, userId);
    SortIdsSorts(ids);
    forall id ensures id in ids <==> id in AccountIds(devices, userId) {
    }
    AscendingIsSorted(SortIds(ids), AccountIds(devices, userId));
    if ids != [] {
      assert ids[0] in AccountIds(devices, userId);
    }
  }

  // --- Device keys of a body ----------------------------------------------------------------

  function Keys(devices: seq<Device>): (keys: seq<string>)
    ensures |keys| == |devices|
    ensures forall i :: 0 <= i < |devices| ==> keys[i] == DeviceKey(devices[i])
  {
    seq(|devices|, i requires 0 <= i < |devices| => DeviceKey(devices[i]))
  }

  /** User IDs are service IDs and hold no NUL, which separates the parts of a key. */
  ghost predicate NoNul(devices: seq<Device>) {
    forall device :: device in devices ==> NUL !in device.userId
  }

  lemma KeyIsMember(devices: seq<Device>, device: Device)
    ensures DeviceKey(device) in Keys(devices) <==> device in devices
  {
    if DeviceKey(device) in Keys(devices) {
      var i :| 0 <= i < |devices| && Keys(devices)[i] == DeviceKey(device);
      DeviceKeyInjective(devices[i], device);
    }
    if device in devices {
      var i :| 0 <= i < |devices| && devices[i] == device;
      assert Keys(devices)[i] == DeviceKey(device);
    }
  }

  /** The declaration of the devices that keys name, read back from the keys. */
  method DeclareKeys(keys: seq<string>, ghost devices: seq<Device>) returns (declared: Accounts)
    requires keys == Keys(devices) && NoNul(devices)
    ensures declared == Declared(devices)
  {
    var accounts: Accounts := [];
    for i := 0 to |keys|
      invariant accounts == Grouped(devices[..i])
    {
      assert devices[i] in devices && keys[i] == DeviceKey(devices[i]);
      SplitKeyInvertsIff(devices[i]);
      assert devices[..i + 1][..i] == devices[..i];
      accounts := AddRecipient(accounts, SplitKey(keys[i]).value);
    }
    assert devices[..|devices|] == devices;
    declared := SortValues(accounts);
  }

  method DeclareMessages(messages: seq<Message>) returns (declared: Accounts)
    ensures declared == Declared(DevicesOfMessages(messages))
  {
    var accounts: Accounts := [];
    ghost var devices := DevicesOfMessages(messages);
    for i := 0 to |messages|
      invariant accounts == Grouped(devices[..i])
    {
      assert devices[..i + 1][..i] == devices[..i];
      accounts := AddRecipient(accounts, messages[i].device);
    }
    assert devices[..|devices|] == devices;
    declared := SortValues(accounts);
  }

  /** The messages of the devices that no key names. */
  method MessagesBeside(messages: seq<Message>, keys: seq<string>, ghost body: Option<Body>)
    returns (posts: seq<Message>)
    requires keys == Keys(BodyDevices(body)) && (body.Some? ==> BodyOk(body.value))
    ensures posts == DevicePosts(messages, body)
  {
    posts := [];
    BodyDevicesOf(body);
    for i := 0 to |messages|
      invariant posts == DevicePosts(messages[..i], body)
    {
      KeyIsMember(BodyDevices(body), messages[i].device);
      assert messages[..i + 1][..i] == messages[..i];
      if DeviceKey(messages[i].device) !in keys {
        posts := posts + [messages[i]];
      }
    }
    assert messages[..|messages|] == messages;
  }

  /** Post each message to its device, and declare the posted devices of its account. */
  method PostOwn(own: seq<Message>) returns (posts: seq<Post>)
    requires OnePerDevice(own)
    ensures posts == MessagePosts(own)
  {
    var declared := DeclareMessages(own);
    posts := [];
    for i := 0 to |own|
      invariant |posts| == i
      invariant forall k :: 0 <= k < i ==> posts[k] == MessagePosts(own)[k]
    {
      DeclaredOf(own, i);
      posts := posts + [OfDevice(own[i].device, Find(declared, own[i].device.userId).value)];
    }
  }

  // --- The call --------------------------------------------------------------------------------

  datatype BodyOutcome = Accepts | Refuses | AuthFails

  /** What the Relay can do and does in one pass. `required` tells that the body must go out sealed. */
  datatype Relay = Relay(sendsShared: bool, authorizes: bool, outcome: BodyOutcome, required: bool)

  datatype Post =
    | OfBody(device: Device, ok: bool)
    | OfDevice(device: Device, declared: seq<nat>)
    | OfNoSession(userId: string, missing: seq<nat>)

  /** What a repair of one account gives. */
  datatype Repaired = Repaired(userId: string, removed: seq<Device>, ready: seq<Device>, bundleMissing: seq<Device>)

  function UsersOfRepairs(repairs: seq<Repaired>): set<string> {
    set repaired | repaired in repairs :: repaired.userId
  }

  function RemovedOf(repairs: seq<Repaired>): seq<Device> {
    if repairs == [] then [] else RemovedOf(repairs[..|repairs| - 1]) + repairs[|repairs| - 1].removed
  }

  function ReadyOf(repairs: seq<Repaired>): seq<Device> {
    if repairs == [] then [] else ReadyOf(repairs[..|repairs| - 1]) + repairs[|repairs| - 1].ready
  }

  function BundleMissingOf(repairs: seq<Repaired>): seq<Device> {
    if repairs == [] then [] else BundleMissingOf(repairs[..|repairs| - 1]) + repairs[|repairs| - 1].bundleMissing
  }

  /** One device message for each device, sealed under its session. */
  function Prepared(devices: seq<Device>, prepare: Device -> Message): (messages: seq<Message>)
    ensures |messages| == |devices|
    ensures forall i :: 0 <= i < |devices| ==> messages[i] == prepare(devices[i])
  {
    seq(|devices|, i requires 0 <= i < |devices| => prepare(devices[i]))
  }

  /** The repair of the accounts as one step of a run. */
  function RepairEvent(
      repairs: seq<Repaired>, handoffs: seq<Message>, prepare: Device -> Message, sealing: Sealing): Event
  {
    RepairDevices(UsersOfRepairs(repairs), Elements(RemovedOf(repairs)), handoffs,
                  Prepared(ReadyOf(repairs), prepare), BundleMissingOf(repairs), sealing)
  }

  /** A call whose pass has to renew the refreshed devices. */
  function Pending(intent: Intent, accepted: bool, forced: bool, refreshed: set<Device>, touched: set<string>): Send {
    InCall(intent, accepted, forced, Renewing).(refreshed := refreshed, touched := touched)
  }

  function BodyPosts(devices: seq<Device>, ok: bool): (posts: seq<Post>)
    ensures |posts| == |devices|
    ensures forall i :: 0 <= i < |devices| ==> posts[i] == OfBody(devices[i], ok)
  {
    seq(|devices|, i requires 0 <= i < |devices| => OfBody(devices[i], ok))
  }

  function MessagePosts(messages: seq<Message>): (posts: seq<Post>)
    ensures |posts| == |messages|
    ensures forall i :: 0 <= i < |messages| ==>
              posts[i] == OfDevice(messages[i].device,
                                   DeclaredIds(DevicesOfMessages(messages), messages[i].device.userId))
  {
    seq(|messages|, i requires 0 <= i < |messages| =>
      OfDevice(messages[i].device, DeclaredIds(DevicesOfMessages(messages), messages[i].device.userId)))
  }

  /** The devices without a bundle of the accounts that a pass does not address. */
  function NotAddressed(unposted: seq<Device>, addressed: set<string>): seq<Device> {
    Filter(unposted, (device: Device) => device.userId !in addressed)
  }

  function NoSessionPosts(accounts: Accounts): (posts: seq<Post>)
    ensures |posts| == |accounts|
    ensures forall i :: 0 <= i < |accounts| ==> posts[i] == OfNoSession(accounts[i].key, accounts[i].value)
  {
    seq(|accounts|, i requires 0 <= i < |accounts| => OfNoSession(accounts[i].key, accounts[i].value))
  }

  /** The posts of a pass: the body, each device beside it, and a refusal of each account with no post. */
  function PassPosts(messages: seq<Message>, used: Option<Body>, ok: bool, unposted: seq<Device>): seq<Post> {
    var addressed := UsersOf(Elements(PostedDevices(messages, used)));
    BodyPosts(BodyDevices(used), ok) + MessagePosts(DevicePosts(messages, used))
    + NoSessionPosts(Grouped(NotAddressed(unposted, addressed)))
  }

  // --- What a pass posts, told by its messages and its body ----------------------------------

  ghost predicate Covers(used: Option<Body>, device: Device) {
    used.Some? && InBody(used.value, device)
  }

  /** The pass posts to the account, in the body or on its own. */
  ghost predicate Addresses(messages: seq<Message>, used: Option<Body>, userId: string) {
    exists device: Device :: device.userId == userId && (Covers(used, device) || device in Targets(messages))
  }

  lemma PostsByKind(messages: seq<Message>, used: Option<Body>, ok: bool, unposted: seq<Device>, post: Post)
    ensures var addressed := UsersOf(Elements(PostedDevices(messages, used)));
            post in PassPosts(messages, used, ok, unposted) <==>
            || post in BodyPosts(BodyDevices(used), ok)
            || post in MessagePosts(DevicePosts(messages, used))
            || post in NoSessionPosts(Grouped(NotAddressed(unposted, addressed)))
  {
  }

  /** The body is posted to exactly the devices that it names. */
  lemma BodyPostsIff(messages: seq<Message>, used: Option<Body>, ok: bool, unposted: seq<Device>, device: Device,
                     accepted: bool)
    requires Stored(messages, used)
    ensures OfBody(device, accepted) in PassPosts(messages, used, ok, unposted) <==>
            Covers(used, device) && accepted == ok
  {
    PostsByKind(messages, used, ok, unposted, OfBody(device, accepted));
    BodyDevicesOf(used);
    if Covers(used, device) {
      var i :| 0 <= i < |BodyDevices(used)| && BodyDevices(used)[i] == device;
      assert BodyPosts(BodyDevices(used), ok)[i] == OfBody(device, ok);
    }
  }

  lemma OwnDevices(messages: seq<Message>, used: Option<Body>, userId: string, id: nat)
    requires Stored(messages, used)
    ensures id in AccountIds(DevicesOfMessages(DevicePosts(messages, used)), userId) <==>
            Device(userId, id) in Targets(messages) && !Covers(used, Device(userId, id))
  {
    OwnPosts(messages, used, Device(userId, id));
  }

  /**
   * A device gets its own post if and only if it has a message and the body does
   * not cover it. The post declares, ascending, exactly the devices of its account
   * that get one.
   */
  lemma OwnPostsIff(messages: seq<Message>, used: Option<Body>, ok: bool, unposted: seq<Device>, device: Device,
                    declared: seq<nat>)
    requires Stored(messages, used)
    ensures OfDevice(device, declared) in PassPosts(messages, used, ok, unposted) <==>
            && device in Targets(messages) && !Covers(used, device) && Ascending(declared)
            && forall id :: id in declared <==>
                 Device(device.userId, id) in Targets(messages) && !Covers(used, Device(device.userId, id))
  {
    var own := DevicePosts(messages, used);
    var ids := AccountIds(DevicesOfMessages(own), device.userId);
    PostsByKind(messages, used, ok, unposted, OfDevice(device, declared));
    OwnPosts(messages, used, device);
    SortedIdsAscend(ids);
    forall id ensures id in ids <==>
                      Device(device.userId, id) in Targets(messages) && !Covers(used, Device(device.userId, id)) {
      OwnDevices(messages, used, device.userId, id);
    }
    if device in Targets(messages) && !Covers(used, device) {
      var i :| 0 <= i < |own| && DevicesOfMessages(own)[i] == device;
      assert MessagePosts(own)[i] == OfDevice(device, SortedIds(ids));
      if Ascending(declared) && forall id :: id in declared <==> id in ids {
        AscendingIsSorted(declared, ids);
      }
    }
  }

  lemma AddressedIff(messages: seq<Message>, used: Option<Body>, userId: string)
    requires Stored(messages, used)
    ensures userId in UsersOf(Elements(PostedDevices(messages, used))) <==> Addresses(messages, used, userId)
  {
    PostedOnce(messages, used);
    if Addresses(messages, used, userId) {
      var device: Device :| device.userId == userId && (Covers(used, device) || device in Targets(messages));
      assert device in Elements(PostedDevices(messages, used));
    }
  }

  lemma NotAddressedIds(unposted: seq<Device>, addressed: set<string>, userId: string)
    ensures IdsOf(NotAddressed(unposted, addressed), userId)
            == if userId in addressed then [] else IdsOf(unposted, userId)
  {
    NotAddressedIdsOf(unposted, addressed, userId, (device: Device) => device.userId !in addressed);
    SameFilter(unposted, (device: Device) => device.userId !in addressed,
               (device: Device) => device.userId !in addressed);
  }

  lemma {:induction false} NotAddressedIdsOf(
      unposted: seq<Device>, addressed: set<string>, userId: string, keep: Device -> bool)
    requires forall device: Device :: keep(device) <==> device.userId !in addressed
    ensures IdsOf(Filter(unposted, keep), userId) == if userId in addressed then [] else IdsOf(unposted, userId)
  {
    if unposted != [] {
      var front, last := unposted[..|unposted| - 1], unposted[|unposted| - 1];
      NotAddressedIdsOf(front, addressed, userId, keep);
      if keep(last) {
        assert (Filter(front, keep) + [last])[..|Filter(front, keep)|] == Filter(front, keep);
      }
    }
  }

  lemma EntriesFound(accounts: Accounts, userId: string, ids: seq<nat>)
    requires UniqueKeys(accounts)
    ensures OfNoSession(userId, ids) in NoSessionPosts(accounts) <==> Find(accounts, userId) == Some(ids)
  {
    var posts := NoSessionPosts(accounts);
    if OfNoSession(userId, ids) in posts {
      var i :| 0 <= i < |posts| && posts[i] == OfNoSession(userId, ids);
      FindAt(accounts, i);
    }
    if Find(accounts, userId) == Some(ids) {
      var i := FoundAt(accounts, userId);
      assert posts[i] == OfNoSession(userId, ids);
    }
  }

  lemma {:induction false} FoundAt(accounts: Accounts, userId: string) returns (i: nat)
    requires Find(accounts, userId).Some?
    ensures i < |accounts| && accounts[i] == Entry(userId, Find(accounts, userId).value)
  {
    if accounts[0].key == userId {
      i := 0;
    } else {
      i := FoundAt(accounts[1..], userId);
      i := i + 1;
    }
  }

  /**
   * An account is refused here if and only if it has devices without a bundle and
   * the pass posts to none of its devices. The refusal misses exactly those devices.
   */
  lemma NoSessionPostsIff(messages: seq<Message>, used: Option<Body>, ok: bool, unposted: seq<Device>, userId: string,
                          ids: seq<nat>)
    requires Stored(messages, used)
    ensures OfNoSession(userId, ids) in PassPosts(messages, used, ok, unposted) <==>
            !Addresses(messages, used, userId) && ids == IdsOf(unposted, userId) != []
    ensures forall id :: id in IdsOf(unposted, userId) <==> Device(userId, id) in unposted
  {
    var addressed := UsersOf(Elements(PostedDevices(messages, used)));
    PostsByKind(messages, used, ok, unposted, OfNoSession(userId, ids));
    AddressedIff(messages, used, userId);
    GroupedFinds(NotAddressed(unposted, addressed), userId);
    NotAddressedIds(unposted, addressed, userId);
    EntriesFound(Grouped(NotAddressed(unposted, addressed)), userId, ids);
    IdsOfMembers(unposted, userId);
  }

  lemma StaleIsFiltered(send: Send, keep: Message -> bool)
    requires forall message: Message :: keep(message) <==> message.device in send.refreshed
    ensures Filter(send.intent.deviceMessages, keep) == Stale(send)
  {
    SameFilter(send.intent.deviceMessages, keep, (message: Message) => message.device in send.refreshed);
  }

  class DeclaredGroupSend {
    var intent: Intent
    /** The Relay accepted the body in a pass. */
    var sharedReceipt: bool
    /** The body cannot go out sealed, so every device gets its own identified post. */
    var forceIdentified: bool
    /** The listed devices with no prekey bundle at the last repair. */
    var unposted: seq<Device>
    /** The accounts that the last pass refused here, because they had no post. */
    var unpostedAccounts: set<string>

    ghost function View(): Send
      reads this
    {
      InCall(intent, sharedReceipt, forceIdentified, Posting)
    }

    constructor (intent: Intent)
      ensures View() == InCall(intent, false, false, Posting) && unposted == intent.bundleMissing
    {
      this.intent, sharedReceipt, forceIdentified := intent, false, false;
      unposted, unpostedAccounts := intent.bundleMissing, {};
    }

    /**
     * Post the body, or reuse its receipt, or give it up, or throw when it must
     * go out sealed and cannot. `named` are the keys of the devices that the body
     * covers in this pass.
     */
    method PostBody(relay: Relay)
      returns (posts: seq<Post>, named: seq<string>, declared: Option<Accounts>, threw: bool)
      requires Stored(intent.deviceMessages, intent.body) && NoNul(BodyDevices(intent.body))
      modifies this`sharedReceipt, this`forceIdentified
      ensures threw <==>
                && relay.required && intent.body.Some?
                && (|| !relay.sendsShared
                    || (&& !old(sharedReceipt) && !old(forceIdentified)
                        && (!relay.authorizes || relay.outcome.AuthFails?)))
      ensures threw ==> sharedReceipt == old(sharedReceipt) && forceIdentified == old(forceIdentified)
      ensures !threw ==>
                var used := if forceIdentified then None else intent.body;
                named == Keys(BodyDevices(used)) && posts == BodyPosts(BodyDevices(used), sharedReceipt)
      ensures declared.Some? ==> declared.value == Declared(BodyDevices(intent.body))
      ensures !threw ==>
                (forceIdentified <==>
                   || old(forceIdentified)
                   || (intent.body.Some?
                       && (|| !relay.sendsShared
                           || (!old(sharedReceipt) && (!relay.authorizes || relay.outcome.AuthFails?)))))
      ensures sharedReceipt <==>
                || old(sharedReceipt)
                || (!threw && intent.body.Some? && !forceIdentified && relay.outcome.Accepts?)
      ensures declared.Some? && !threw && !forceIdentified <==>
                !threw && intent.body.Some? && !forceIdentified && !old(sharedReceipt)
    {
      posts, named, declared, threw := [], [], None, false;
      if intent.body.None? {
        return;
      }
      if !relay.sendsShared {
        if relay.required {
          threw := true;
          return;
        }
        forceIdentified := true;
      }
      if forceIdentified {
        return;
      }
      var devices := BodyDevices(intent.body);
      var keys := Keys(devices);
      if sharedReceipt {
        return BodyPosts(devices, true), keys, None, false;
      }
      if !relay.authorizes {
        if relay.required {
          threw := true;
          return;
        }
        forceIdentified := true;
        return;
      }
      var accounts := DeclareKeys(keys, devices);
      declared := Some(accounts);
      if relay.outcome.AuthFails? {
        if relay.required {
          threw := true;
          return;
        }
        forceIdentified := true;
        return;
      }
      sharedReceipt := relay.outcome.Accepts?;
      return BodyPosts(devices, sharedReceipt), keys, declared, false;
    }

    /**
     * One pass, after its pre-messages. It posts the body and each device that
     * the body does not name, and refuses the accounts that have no post.
     */
    method PostPass(relay: Relay) returns (posts: seq<Post>, declaredBody: Option<Accounts>, threw: bool)
      requires Stored(intent.deviceMessages, intent.body) && NoNul(BodyDevices(intent.body))
      modifies this`sharedReceipt, this`forceIdentified, this`unpostedAccounts
      ensures threw <==>
                && relay.required && intent.body.Some?
                && (|| !relay.sendsShared
                    || (&& !old(sharedReceipt) && !old(forceIdentified)
                        && (!relay.authorizes || relay.outcome.AuthFails?)))
      ensures !threw ==>
                var used := if forceIdentified then None else intent.body;
                && posts == PassPosts(intent.deviceMessages, used, sharedReceipt, unposted)
                && forall userId :: userId in unpostedAccounts <==>
                     exists ids :: OfNoSession(userId, ids) in posts
      ensures sharedReceipt <==>
                || old(sharedReceipt)
                || (!threw && intent.body.Some? && !forceIdentified && relay.outcome.Accepts?)
      ensures !threw && intent.body.Some? && !forceIdentified && !old(sharedReceipt) ==> declaredBody.Some?
      ensures declaredBody.Some? ==> declaredBody.value == Declared(BodyDevices(intent.body))
    {
      var named;
      posts, named, declaredBody, threw := PostBody(relay);
      if threw {
        return;
      }
      var used := if forceIdentified then None else intent.body;
      var refused;
      posts, refused := PostBeside(posts, named, used);
      unpostedAccounts := set i | 0 <= i < |refused| :: refused[i].key;
      RefusedAccounts(refused, posts, unpostedAccounts, intent.deviceMessages, used, sharedReceipt);
    }

    /** The posts beside those of the body: each other device, and a refusal of each account with no post. */
    method PostBeside(before: seq<Post>, named: seq<string>, used: Option<Body>)
      returns (posts: seq<Post>, refused: Accounts)
      requires Stored(intent.deviceMessages, used) && named == Keys(BodyDevices(used))
      requires before == BodyPosts(BodyDevices(used), sharedReceipt)
      ensures posts == PassPosts(intent.deviceMessages, used, sharedReceipt, unposted)
      ensures posts == before + MessagePosts(DevicePosts(intent.deviceMessages, used)) + NoSessionPosts(refused)
    {
      var own := MessagesBeside(intent.deviceMessages, named, used);
      DevicePostsMembers(intent.deviceMessages, used);
      var ownPosts := PostOwn(own);
      var addressed := UsersOf(Elements(BodyDevices(used) + DevicesOfMessages(own)));
      refused := RefuseUnposted(addressed);
      posts := before + ownPosts + NoSessionPosts(refused);
    }

    /**
     * Confirm the settled pre-messages, renew the refreshed devices, and seal the
     * body again when it names a touched account. The call can throw before the
     * second write, when a message cannot be prepared or sealed, or in it.
     */
    method SettlePreMessages(
        settled: set<string>, refreshed: set<Device>, removed: set<Device>,
        renew: Message -> Message, sealing: Sealing, throws: bool)
      returns (renewed: bool)
      modifies this`intent
      ensures var touched := UsersOf(refreshed) + UsersOf(removed);
              var pending := Pending(Confirm(old(intent), settled, removed), sharedReceipt, forceIdentified,
                                     refreshed, touched);
              var messages := Renewed(Stale(pending), renew);
              var next := Reconcile(pending.intent, RenewChange(pending, messages, sealing));
              && (renewed <==> !throws && next.Some?)
              && intent == if renewed then next.value else pending.intent
    {
      var touched := UsersOf(refreshed) + UsersOf(removed);
      intent := Confirm(intent, settled, removed);
      if throws {
        return false;
      }
      ghost var pending := Pending(intent, sharedReceipt, forceIdentified, refreshed, touched);
      var stale := Filter(intent.deviceMessages, (message: Message) => message.device in refreshed);
      StaleIsFiltered(pending, (message: Message) => message.device in refreshed);
      var messages: seq<Message> := [];
      for i := 0 to |stale|
        invariant messages == Renewed(stale[..i], renew)
      {
        assert stale[..i + 1][..i] == stale[..i];
        messages := messages + [renew(stale[i])];
      }
      assert stale[..|stale|] == stale;
      var body := KeepBody;
      if intent.body.Some? && !sharedReceipt && !forceIdentified && NamesAny(intent.body, touched) {
        body := Reseal(intent.body.value, Kept(intent.deviceMessages, refreshed) + messages, sealing);
      }
      var next := Reconcile(intent, Change(Targets(stale), [], messages, [], body));
      if next.None? {
        return false;
      }
      intent := next.value;
      return true;
    }

    /**
     * Repair the refused accounts in one write, with the body sealed again when
     * it is open and names one of them. The write can throw and change nothing.
     */
    method Repair(repairs: seq<Repaired>, handoffs: seq<Message>, prepare: Device -> Message, sealing: Sealing)
      returns (committed: bool)
      modifies this`intent, this`unposted
      ensures var event := RepairEvent(repairs, handoffs, prepare, sealing);
              var next := CommitRepair(old(intent), RepairChange(old(View()), event),
                                       old(intent).restarts + 1, event.bundleMissing);
              && (committed <==> next.Some?)
              && intent == (if next.Some? then next.value else old(intent))
              && unposted == (if next.Some? then event.bundleMissing else old(unposted))
    {
      var removed, ready, bundleMissing, refusedBody := [], [], [], false;
      for i := 0 to |repairs|
        invariant removed == RemovedOf(repairs[..i]) && ready == ReadyOf(repairs[..i])
        invariant bundleMissing == BundleMissingOf(repairs[..i])
        invariant refusedBody == NamesAny(intent.body, UsersOfRepairs(repairs[..i]))
        invariant intent == old(intent) && unposted == old(unposted)
      {
        assert repairs[..i + 1][..i] == repairs[..i];
        NamesOneMore(intent.body, repairs, i);
        removed, ready := removed + repairs[i].removed, ready + repairs[i].ready;
        bundleMissing := bundleMissing + repairs[i].bundleMissing;
        refusedBody := refusedBody || (intent.body.Some? && Names(intent.body.value, repairs[i].userId));
      }
      assert repairs[..|repairs|] == repairs;
      var added := Prepared(ready, prepare);
      var body := KeepBody;
      if intent.body.Some? && !sharedReceipt && !forceIdentified && refusedBody {
        body := Reseal(intent.body.value, Kept(intent.deviceMessages, Elements(removed)) + added, sealing);
      }
      var next := CommitRepair(intent, Change(Elements(removed), handoffs, added, [], body),
                               intent.restarts + 1, bundleMissing);
      if next.None? {
        return false;
      }
      intent, unposted := next.value, bundleMissing;
      return true;
    }

    method RefuseUnposted(addressed: set<string>) returns (refused: Accounts)
      ensures refused == Grouped(NotAddressed(unposted, addressed))
    {
      refused := [];
      for i := 0 to |unposted|
        invariant refused == Grouped(NotAddressed(unposted[..i], addressed))
      {
        assert unposted[..i + 1][..i] == unposted[..i];
        if unposted[i].userId !in addressed {
          refused := AddRecipient(refused, unposted[i]);
        }
      }
      assert unposted[..|unposted|] == unposted;
    }
  }

  lemma {:induction false} RepairedParts(repairs: seq<Repaired>, device: Device)
    ensures device in RemovedOf(repairs) <==> exists repaired :: repaired in repairs && device in repaired.removed
    ensures device in ReadyOf(repairs) <==> exists repaired :: repaired in repairs && device in repaired.ready
    ensures device in BundleMissingOf(repairs) <==>
            exists repaired :: repaired in repairs && device in repaired.bundleMissing
  {
    if repairs != [] {
      var front, last := repairs[..|repairs| - 1], repairs[|repairs| - 1];
      RepairedParts(front, device);
      assert repairs == front + [last];
    }
  }

  ghost predicate IsRemovedBy(repairs: seq<Repaired>, device: Device) {
    exists repaired :: repaired in repairs && device in repaired.removed
  }

  ghost predicate IsPreparedBy(repairs: seq<Repaired>, prepare: Device -> Message, message: Message) {
    exists repaired, device :: repaired in repairs && device in repaired.ready && message == prepare(device)
  }

  lemma PreparedMembers(repairs: seq<Repaired>, prepare: Device -> Message, message: Message)
    ensures message in Prepared(ReadyOf(repairs), prepare) <==> IsPreparedBy(repairs, prepare, message)
  {
    var ready, messages := ReadyOf(repairs), Prepared(ReadyOf(repairs), prepare);
    if message in messages {
      var i :| 0 <= i < |messages| && messages[i] == message;
      RepairedParts(repairs, ready[i]);
    }
    if IsPreparedBy(repairs, prepare, message) {
      var repaired, device :| repaired in repairs && device in repaired.ready && message == prepare(device);
      RepairedParts(repairs, device);
      var i :| 0 <= i < |ready| && ready[i] == device;
      assert messages[i] == message;
    }
  }

  /**
   * What a committed repair stores. The removed devices lose every message, each
   * ready device gets a new device message, the handoffs join the pre-messages, and
   * the count and the devices without a bundle are stored. The body stays unless it
   * is open and names a repaired account.
   */
  lemma RepairStores(
      send: Send, repairs: seq<Repaired>, handoffs: seq<Message>, prepare: Device -> Message, sealing: Sealing,
      message: Message, device: Device)
    requires var event := RepairEvent(repairs, handoffs, prepare, sealing);
             CommitRepair(send.intent, RepairChange(send, event), send.intent.restarts + 1, event.bundleMissing).Some?
    ensures var event, intent := RepairEvent(repairs, handoffs, prepare, sealing), send.intent;
            var after := CommitRepair(intent, RepairChange(send, event), intent.restarts + 1,
                                      event.bundleMissing).value;
            && (message in after.deviceMessages <==>
                  || (message in intent.deviceMessages && !IsRemovedBy(repairs, message.device))
                  || IsPreparedBy(repairs, prepare, message))
            && (message in after.preMessages <==>
                  || (message in intent.preMessages && !IsRemovedBy(repairs, message.device))
                  || message in handoffs)
            && (message in after.syncMessages <==>
                  message in intent.syncMessages && !IsRemovedBy(repairs, message.device))
            && after.restarts == intent.restarts + 1
            && (device in after.bundleMissing <==>
                  exists repaired :: repaired in repairs && device in repaired.bundleMissing)
            && (!(send.intent.body.Some? && !send.accepted && !send.forced
                  && exists repaired :: repaired in repairs && Names(intent.body.value, repaired.userId)) ==>
                  after.body == intent.body)
  {
    var event, intent := RepairEvent(repairs, handoffs, prepare, sealing), send.intent;
    var change := RepairChange(send, event);
    RepairCommitsOnce(intent, change, intent.restarts + 1, event.bundleMissing, change, []);
    ReconciledMessages(intent, change);
    RepairedParts(repairs, message.device);
    RepairedParts(repairs, device);
    PreparedMembers(repairs, prepare, message);
    if NamesAny(intent.body, event.accounts) {
      var userId :| userId in event.accounts && Names(intent.body.value, userId);
      var repaired :| repaired in repairs && repaired.userId == userId;
    }
  }

  /** A repair seals an open body that names a repaired account again, for the messages after the repair. */
  lemma RepairSealsAgain(
      send: Send, repairs: seq<Repaired>, handoffs: seq<Message>, prepare: Device -> Message, sealing: Sealing,
      repaired: Repaired, userId: string)
    requires send.intent.body.Some? && !send.accepted && !send.forced
    requires repaired in repairs && Names(send.intent.body.value, repaired.userId)
    requires var event, intent := RepairEvent(repairs, handoffs, prepare, sealing), send.intent;
             && CommitRepair(intent, RepairChange(send, event), intent.restarts + 1, event.bundleMissing).Some?
             && OnePerDevice(intent.deviceMessages) && OnePerDevice(event.added)
             && (Targets(intent.deviceMessages) - event.removed) !! Targets(event.added)
    ensures var event, intent := RepairEvent(repairs, handoffs, prepare, sealing), send.intent;
            var after := CommitRepair(intent, RepairChange(send, event), intent.restarts + 1,
                                      event.bundleMissing).value;
            && WholeAccounts(after.deviceMessages, after.body)
            && (after.body.Some? && Names(after.body.value, userId) <==>
                  && sealing.Seals? && userId in sealing.known && Names(intent.body.value, userId)
                  && exists device :: device in Targets(after.deviceMessages) && device.userId == userId)
  {
    var event, intent := RepairEvent(repairs, handoffs, prepare, sealing), send.intent;
    var change := RepairChange(send, event);
    var added := Kept(intent.deviceMessages, event.removed) + event.added;
    assert repaired.userId in event.accounts;
    RepairCommitsOnce(intent, change, intent.restarts + 1, event.bundleMissing, change, []);
    AppendedMessages(intent.deviceMessages, event.removed, event.added);
    AppendDisjointAfterKept(intent, event);
    ResealedIsWhole(intent.body.value, added, sealing);
    ResealedAccountsIff(intent.body.value, added, sealing, userId);
  }

  lemma AppendDisjointAfterKept(intent: Intent, event: Event)
    requires event.RepairDevices? && OnePerDevice(event.added)
    requires (Targets(intent.deviceMessages) - event.removed) !! Targets(event.added)
    ensures Append(Kept(intent.deviceMessages, event.removed), event.added)
            == Some(Kept(intent.deviceMessages, event.removed) + event.added)
  {
    KeptTargets(intent.deviceMessages, event.removed);
    AppendDisjoint(Kept(intent.deviceMessages, event.removed), event.added);
  }

  ghost predicate IsRenewedFrom(messages: seq<Message>, refreshed: set<Device>, removed: set<Device>,
                                renew: Message -> Message, message: Message)
  {
    exists stale :: stale in messages && stale.device in refreshed && stale.device !in removed
                    && message == renew(stale)
  }

  lemma {:induction false} RenewedMembers(stale: seq<Message>, renew: Message -> Message)
    ensures forall message :: message in Renewed(stale, renew) <==> exists one :: one in stale && message == renew(one)
  {
    if stale != [] {
      var front, last := stale[..|stale| - 1], stale[|stale| - 1];
      RenewedMembers(front, renew);
      assert stale == front + [last];
    }
  }

  /**
   * What the two writes after the pre-messages store. A pre-message stays if and
   * only if it is not settled and its device is neither removed nor renewed, a
   * device message of a refreshed device is renewed, and the other device messages
   * and the sync copies of devices that are not removed stay.
   */
  lemma SettleStores(
      intent: Intent, accepted: bool, forced: bool, settled: set<string>, refreshed: set<Device>,
      removed: set<Device>, renew: Message -> Message, sealing: Sealing, message: Message)
    requires var send := Pending(Confirm(intent, settled, removed), accepted, forced, refreshed,
                                 UsersOf(refreshed) + UsersOf(removed));
             Reconcile(send.intent, RenewChange(send, Renewed(Stale(send), renew), sealing)).Some?
    ensures var send := Pending(Confirm(intent, settled, removed), accepted, forced, refreshed,
                                UsersOf(refreshed) + UsersOf(removed));
            var after := Reconcile(send.intent, RenewChange(send, Renewed(Stale(send), renew), sealing)).value;
            var stale := Targets(intent.deviceMessages) * refreshed - removed;
            && (message in after.preMessages <==>
                  message in intent.preMessages && IsOpen(message, settled, removed) && message.device !in stale)
            && (message in after.deviceMessages <==>
                  || (message in intent.deviceMessages && message.device !in removed && message.device !in refreshed)
                  || IsRenewedFrom(intent.deviceMessages, refreshed, removed, renew, message))
            && (message in after.syncMessages <==>
                  message in intent.syncMessages && message.device !in removed && message.device !in stale)
            && after.restarts == intent.restarts && after.bundleMissing == intent.bundleMissing
            && (!(intent.body.Some? && !accepted && !forced
                  && exists device :: device in refreshed + removed && Names(intent.body.value, device.userId)) ==>
                  after.body == intent.body)
  {
    var confirmed := Confirm(intent, settled, removed);
    var send := Pending(confirmed, accepted, forced, refreshed, UsersOf(refreshed) + UsersOf(removed));
    var change := RenewChange(send, Renewed(Stale(send), renew), sealing);
    ConfirmKeepsTheOpenMessages(intent, settled, removed);
    KeptMembers(intent.deviceMessages, removed);
    KeptMembers(intent.syncMessages, removed);
    KeptTargets(intent.deviceMessages, removed);
    StaleTargets(send);
    FilterMembers(confirmed.deviceMessages, (m: Message) => m.device in refreshed);
    RenewedMembers(Stale(send), renew);
    ReconciledMessages(confirmed, change);
    if NamesAny(intent.body, send.touched) {
      var userId :| userId in send.touched && Names(intent.body.value, userId);
      var device :| device in refreshed + removed && device.userId == userId;
    }
  }

  /** A renewal seals an open body that names a touched account again, for the messages after it. */
  lemma RenewalSealsAgain(send: Send, renewed: seq<Message>, sealing: Sealing, userId: string)
    requires BodyOpen(send) && NamesAny(send.intent.body, send.touched) && OnePerDevice(send.intent.deviceMessages)
    requires OnePerDevice(renewed) && Targets(renewed) == Targets(Stale(send))
    requires Reconcile(send.intent, RenewChange(send, renewed, sealing)).Some?
    ensures var after := Reconcile(send.intent, RenewChange(send, renewed, sealing)).value;
            && Targets(after.deviceMessages) == Targets(send.intent.deviceMessages)
            && WholeAccounts(after.deviceMessages, after.body)
            && (after.body.Some? && Names(after.body.value, userId) <==>
                  && sealing.Seals? && userId in sealing.known && Names(send.intent.body.value, userId)
                  && exists device :: device in Targets(after.deviceMessages) && device.userId == userId)
  {
    var intent, change := send.intent, RenewChange(send, renewed, sealing);
    var more := Kept(intent.deviceMessages, send.refreshed) + renewed;
    var after := Reconcile(intent, change).value;
    ReconciledMessages(intent, change);
    StaleTargets(send);
    AppendedMessages(intent.deviceMessages, send.refreshed, renewed);
    KeptOnePerDevice(intent.deviceMessages, change.removed);
    KeptTargets(intent.deviceMessages, change.removed);
    AppendTargets(Kept(intent.deviceMessages, change.removed), renewed);
    ResealedIsWhole(intent.body.value, more, sealing);
    ResealedAccountsIff(intent.body.value, more, sealing, userId);
    WholeByTargets(more, after.deviceMessages, after.body);
  }

  lemma {:induction false} RenewedDevices(stale: seq<Message>, renew: Message -> Message)
    requires forall message :: renew(message).device == message.device
    ensures |Renewed(stale, renew)| == |stale|
    ensures forall i :: 0 <= i < |stale| ==> Renewed(stale, renew)[i].device == stale[i].device
  {
    if stale != [] {
      RenewedDevices(stale[..|stale| - 1], renew);
    }
  }

  lemma RenewedTargets(send: Send, renew: Message -> Message)
    requires OnePerDevice(send.intent.deviceMessages) && forall message :: renew(message).device == message.device
    ensures var renewed := Renewed(Stale(send), renew);
            OnePerDevice(renewed) && Targets(renewed) == Targets(Stale(send))
  {
    var stale := Stale(send);
    FilterKeepsOnePerDevice(send.intent.deviceMessages, (message: Message) => message.device in send.refreshed);
    RenewedDevices(stale, renew);
    forall i | 0 <= i < |stale|
      ensures stale[i].device in Targets(Renewed(stale, renew))
      ensures Renewed(stale, renew)[i].device in Targets(stale)
    {
      assert stale[i] in stale && Renewed(stale, renew)[i] in Renewed(stale, renew);
    }
  }

  /**
   * After the pre-messages, an open body that names an account of a refreshed or
   * removed device is sealed again, for the messages after the renewal.
   */
  lemma SettleSealsAgain(
      intent: Intent, accepted: bool, forced: bool, settled: set<string>, refreshed: set<Device>,
      removed: set<Device>, renew: Message -> Message, sealing: Sealing, device: Device, userId: string)
    requires intent.body.Some? && !accepted && !forced
    requires device in refreshed + removed && Names(intent.body.value, device.userId)
    requires OnePerDevice(intent.deviceMessages) && forall message :: renew(message).device == message.device
    requires var send := Pending(Confirm(intent, settled, removed), accepted, forced, refreshed,
                                 UsersOf(refreshed) + UsersOf(removed));
             Reconcile(send.intent, RenewChange(send, Renewed(Stale(send), renew), sealing)).Some?
    ensures var send := Pending(Confirm(intent, settled, removed), accepted, forced, refreshed,
                                UsersOf(refreshed) + UsersOf(removed));
            var after := Reconcile(send.intent, RenewChange(send, Renewed(Stale(send), renew), sealing)).value;
            && Targets(after.deviceMessages) == Targets(intent.deviceMessages) - removed
            && WholeAccounts(after.deviceMessages, after.body)
            && (after.body.Some? && Names(after.body.value, userId) <==>
                  && sealing.Seals? && userId in sealing.known && Names(intent.body.value, userId)
                  && exists other :: other in Targets(after.deviceMessages) && other.userId == userId)
  {
    var confirmed := Confirm(intent, settled, removed);
    var send := Pending(confirmed, accepted, forced, refreshed, UsersOf(refreshed) + UsersOf(removed));
    ConfirmKeepsTheOpenMessages(intent, settled, removed);
    KeptTargets(intent.deviceMessages, removed);
    KeptOnePerDevice(intent.deviceMessages, removed);
    RenewedTargets(send, renew);
    assert device.userId in send.touched;
    RenewalSealsAgain(send, Renewed(Stale(send), renew), sealing, userId);
  }

  lemma RefusedAccounts(refused: Accounts, posts: seq<Post>, users: set<string>, messages: seq<Message>,
                        used: Option<Body>, ok: bool)
    requires posts == BodyPosts(BodyDevices(used), ok) + MessagePosts(DevicePosts(messages, used))
                      + NoSessionPosts(refused)
    requires users == set i | 0 <= i < |refused| :: refused[i].key
    ensures forall userId :: userId in users <==> exists ids :: OfNoSession(userId, ids) in posts
  {
    var own := NoSessionPosts(refused);
    forall userId | userId in users ensures exists ids :: OfNoSession(userId, ids) in posts {
      var i :| 0 <= i < |refused| && refused[i].key == userId;
      assert own[i] in own && own[i] == OfNoSession(userId, refused[i].value);
    }
    forall userId, ids | OfNoSession(userId, ids) in posts ensures userId in users {
      assert OfNoSession(userId, ids) in own;
      var i :| 0 <= i < |own| && own[i] == OfNoSession(userId, ids);
    }
  }

  /** The renewed messages of devices whose session a pre-message refreshed. */
  function Renewed(stale: seq<Message>, renew: Message -> Message): seq<Message> {
    if stale == [] then [] else Renewed(stale[..|stale| - 1], renew) + [renew(stale[|stale| - 1])]
  }

  lemma NamesOneMore(body: Option<Body>, repairs: seq<Repaired>, i: nat)
    requires i < |repairs|
    ensures NamesAny(body, UsersOfRepairs(repairs[..i + 1])) <==>
            NamesAny(body, UsersOfRepairs(repairs[..i])) || (body.Some? && Names(body.value, repairs[i].userId))
  {
    assert repairs[..i + 1] == repairs[..i] + [repairs[i]];
    assert UsersOfRepairs(repairs[..i + 1]) == UsersOfRepairs(repairs[..i]) + {repairs[i].userId};
  }

  lemma DeclaredOf(own: seq<Message>, i: nat)
    requires OnePerDevice(own) && i < |own|
    ensures Find(Declared(DevicesOfMessages(own)), own[i].device.userId)
            == Some(DeclaredIds(DevicesOfMessages(own), own[i].device.userId))
  {
    var devices := DevicesOfMessages(own);
    OnePerDeviceDevices(own);
    DeclaredFinds(devices, own[i].device.userId);
    assert devices[i] in devices;
    assert own[i].device.deviceId in AccountIds(devices, own[i].device.userId);
  }

  /** The body of a right pass declares exactly the stored devices of each of its accounts. */
  lemma BodyDeclaresTheStoredDevices(messages: seq<Message>, body: Option<Body>, userId: string)
    requires Stored(messages, body) && RightPass(messages, body)
    requires BodyNames(body, userId) && AccountIds(BodyDevices(body), userId) != {}
    ensures Find(Declared(BodyDevices(body)), userId) == Some(DeclaredIds(DevicesOfMessages(messages), userId))
  {
    BodyDevicesOf(body);
    DeclaredFinds(BodyDevices(body), userId);
  }

  /** So does the post of each device that the body does not name. */
  lemma DevicePostsDeclareTheStoredDevices(messages: seq<Message>, body: Option<Body>, i: nat)
    requires Stored(messages, body) && RightPass(messages, body) && i < |DevicePosts(messages, body)|
    ensures var own := DevicePosts(messages, body);
            MessagePosts(own)[i]
            == OfDevice(own[i].device, DeclaredIds(DevicesOfMessages(messages), own[i].device.userId))
  {
    var own := DevicePosts(messages, body);
    assert own[i] in own;
    assert HasDevicePost(messages, body, own[i].device.userId);
  }
}
