/**
 * A declared group send (client/group-outbox.ts): each pass posts the shared
 * body and one message to each device outside it, and declares the devices of
 * each account. An account is wholly in the body or wholly in the device posts.
 */
module DeclaredGroupSends {
  import opened Options
  import opened Sequences
  import opened Associations
  import opened DeviceSets
  import opened GroupIntents
  import opened GroupSealedSender

  // --- What a pass posts ------------------------------------------------------------------

  /** The device posts beside the body, or all of them when the pass uses no body. */
  function DevicePosts(messages: seq<Message>, body: Option<Body>): seq<Message> {
    Filter(messages, (message: Message) => body.None? || !InBody(body.value, message.device))
  }

  function DevicesOfMessages(messages: seq<Message>): (devices: seq<Device>)
    ensures |devices| == |messages|
    ensures forall i :: 0 <= i < |messages| ==> devices[i] == messages[i].device
  {
    seq(|messages|, i requires 0 <= i < |messages| => messages[i].device)
  }

  function BodyDevices(body: Option<Body>): seq<Device> {
    if body.Some? then DevicesOf(body.value.accounts) else []
  }

  /** The devices that a pass reports an outcome for, in the order of its posts. */
  function PostedDevices(messages: seq<Message>, body: Option<Body>): seq<Device> {
    BodyDevices(body) + DevicesOfMessages(DevicePosts(messages, body))
  }

  function AccountIds(devices: seq<Device>, userId: string): set<nat> {
    set device | device in devices && device.userId == userId :: device.deviceId
  }

  /** The device IDs that the post of an account declares: ascending, of the devices posted with it. */
  function DeclaredIds(devices: seq<Device>, userId: string): seq<nat> {
    SortedIds(AccountIds(devices, userId))
  }

  ghost predicate BodyNames(body: Option<Body>, userId: string) {
    body.Some? && Names(body.value, userId)
  }

  ghost predicate HasDevicePost(messages: seq<Message>, body: Option<Body>, userId: string) {
    exists message :: message in DevicePosts(messages, body) && message.device.userId == userId
  }

  /**
   * A right pass: each device with a stored message is posted exactly once, no
   * account is split between the body and the device posts, and each account
   * declares exactly its stored devices.
   */
  ghost predicate RightPass(messages: seq<Message>, body: Option<Body>) {
    && Unique(PostedDevices(messages, body))
    && (forall device :: device in PostedDevices(messages, body) <==> device in Targets(messages))
    && (forall userId :: !(BodyNames(body, userId) && HasDevicePost(messages, body, userId)))
    && (forall userId :: BodyNames(body, userId) ==>
          DeclaredIds(BodyDevices(body), userId) == DeclaredIds(DevicesOfMessages(messages), userId))
    && (forall userId :: HasDevicePost(messages, body, userId) ==>
          DeclaredIds(DevicesOfMessages(DevicePosts(messages, body)), userId)
          == DeclaredIds(DevicesOfMessages(messages), userId))
  }

  /** The body names exactly the stored devices of each of its accounts. */
  ghost predicate WholeAccounts(messages: seq<Message>, body: Option<Body>) {
    body.Some? ==> forall device: Device :: Names(body.value, device.userId) ==>
                     (InBody(body.value, device) <==> device in Targets(messages))
  }

  ghost predicate Stored(messages: seq<Message>, body: Option<Body>) {
    OnePerDevice(messages) && (body.Some? ==> BodyOk(body.value))
  }

  // --- A pass is right exactly when the body holds whole accounts ------------------------------

  lemma DevicePostsMembers(messages: seq<Message>, body: Option<Body>)
    requires Stored(messages, body)
    ensures OnePerDevice(DevicePosts(messages, body))
    ensures forall m :: m in DevicePosts(messages, body) <==>
              m in messages && (body.None? || !InBody(body.value, m.device))
  {
    FilterMembers(messages, (message: Message) => body.None? || !InBody(body.value, message.device));
    FilterKeepsOnePerDevice(messages, (message: Message) => body.None? || !InBody(body.value, message.device));
  }

  lemma DevicesOfMessagesMembers(messages: seq<Message>)
    ensures forall device :: device in DevicesOfMessages(messages) <==> device in Targets(messages)
  {
    var devices := DevicesOfMessages(messages);
    forall device | device in Targets(messages) ensures device in devices {
      var message :| message in messages && message.device == device;
      var i :| 0 <= i < |messages| && messages[i] == message;
      assert devices[i] == device;
    }
    forall device | device in devices ensures device in Targets(messages) {
      var i :| 0 <= i < |devices| && devices[i] == device;
      assert messages[i] in messages;
    }
  }

  lemma BodyDevicesOf(body: Option<Body>)
    requires body.Some? ==> BodyOk(body.value)
    ensures Unique(BodyDevices(body))
    ensures forall device :: device in BodyDevices(body) <==> body.Some? && InBody(body.value, device)
  {
    if body.Some? {
      BodyDevicesAreUnique(body.value.accounts);
      forall device ensures device in BodyDevices(body) <==> InBody(body.value, device) {
        BodyDevicesMembers(body.value, device);
      }
    }
  }

  /** A device gets its own post exactly when it has a message and the body does not name it. */
  lemma OwnPosts(messages: seq<Message>, body: Option<Body>, device: Device)
    requires Stored(messages, body)
    ensures device in DevicesOfMessages(DevicePosts(messages, body)) <==>
            device in Targets(messages) && (body.None? || !InBody(body.value, device))
  {
    DevicePostsMembers(messages, body);
    DevicesOfMessagesMembers(DevicePosts(messages, body));
    if device in Targets(messages) && (body.None? || !InBody(body.value, device)) {
      var message :| message in messages && message.device == device;
      assert message in DevicePosts(messages, body);
    }
  }

  lemma PostedOnce(messages: seq<Message>, body: Option<Body>)
    requires Stored(messages, body)
    ensures Unique(PostedDevices(messages, body))
    ensures forall device :: device in PostedDevices(messages, body) <==>
              (body.Some? && InBody(body.value, device)) || device in Targets(messages)
  {
    var first, second := BodyDevices(body), DevicesOfMessages(DevicePosts(messages, body));
    BodyDevicesOf(body);
    DevicePostsMembers(messages, body);
    forall device
      ensures device in second <==> device in Targets(messages) && (body.None? || !InBody(body.value, device))
    {
      OwnPosts(messages, body, device);
    }
    UniqueBoth(first, second);
  }

  lemma UniqueBoth(first: seq<Device>, second: seq<Device>)
    requires Unique(first) && Unique(second) && forall device :: device in first ==> device !in second
    ensures Unique(first + second)
  {
    forall i, j | 0 <= i < |first| && 0 <= j < |second| ensures first[i] != second[j] {
      assert first[i] in first && second[j] in second;
    }
  }

  predicate OutsideBody(body: Option<Body>, device: Device, userId: string) {
    device.userId == userId && (body.None? || !InBody(body.value, device))
  }

  lemma SplitAccount(messages: seq<Message>, body: Option<Body>, userId: string)
    requires Stored(messages, body)
    ensures HasDevicePost(messages, body, userId) <==>
            exists device :: device in Targets(messages) && OutsideBody(body, device, userId)
  {
    DevicePostsMembers(messages, body);
    if message :| message in DevicePosts(messages, body) && message.device.userId == userId {
      assert message.device in Targets(messages) && OutsideBody(body, message.device, userId);
    }
    if device :| device in Targets(messages) && OutsideBody(body, device, userId) {
      var message :| message in messages && message.device == device;
      assert message in DevicePosts(messages, body);
    }
  }

  lemma SameIds(one: seq<Device>, other: seq<Device>, userId: string)
    requires forall device: Device :: device.userId == userId ==> (device in one <==> device in other)
    ensures DeclaredIds(one, userId) == DeclaredIds(other, userId)
  {
    assert AccountIds(one, userId) == AccountIds(other, userId);
  }

  lemma WholeAccountsDeclare(messages: seq<Message>, body: Option<Body>, userId: string)
    requires Stored(messages, body) && WholeAccounts(messages, body)
    ensures BodyNames(body, userId) ==>
              DeclaredIds(BodyDevices(body), userId) == DeclaredIds(DevicesOfMessages(messages), userId)
    ensures !BodyNames(body, userId) ==>
              DeclaredIds(DevicesOfMessages(DevicePosts(messages, body)), userId)
              == DeclaredIds(DevicesOfMessages(messages), userId)
  {
    BodyDevicesOf(body);
    DevicesOfMessagesMembers(messages);
    if BodyNames(body, userId) {
      SameIds(BodyDevices(body), DevicesOfMessages(messages), userId);
    } else {
      forall device: Device | device.userId == userId
        ensures device in DevicesOfMessages(DevicePosts(messages, body)) <==> device in DevicesOfMessages(messages)
      {
        OwnPosts(messages, body, device);
      }
      SameIds(DevicesOfMessages(DevicePosts(messages, body)), DevicesOfMessages(messages), userId);
    }
  }

  lemma WholeAccountsAreNotSplit(messages: seq<Message>, body: Option<Body>, userId: string)
    requires Stored(messages, body) && WholeAccounts(messages, body)
    ensures !(BodyNames(body, userId) && HasDevicePost(messages, body, userId))
  {
    SplitAccount(messages, body, userId);
  }

  /** A pass over stored messages is right if and only if its body holds whole accounts. */
  lemma PassIsRightIff(messages: seq<Message>, body: Option<Body>)
    requires Stored(messages, body)
    ensures RightPass(messages, body) <==> WholeAccounts(messages, body)
  {
    PostedOnce(messages, body);
    if WholeAccounts(messages, body) {
      forall userId
        ensures !(BodyNames(body, userId) && HasDevicePost(messages, body, userId))
        ensures BodyNames(body, userId) ==>
                  DeclaredIds(BodyDevices(body), userId) == DeclaredIds(DevicesOfMessages(messages), userId)
        ensures HasDevicePost(messages, body, userId) ==>
                  DeclaredIds(DevicesOfMessages(DevicePosts(messages, body)), userId)
                  == DeclaredIds(DevicesOfMessages(messages), userId)
      {
        WholeAccountsAreNotSplit(messages, body, userId);
        WholeAccountsDeclare(messages, body, userId);
      }
    } else {
      RightPassesAreWhole(messages, body);
    }
  }

  lemma RightPassesAreWhole(messages: seq<Message>, body: Option<Body>)
    requires Stored(messages, body)
    ensures RightPass(messages, body) ==> WholeAccounts(messages, body)
  {
    if RightPass(messages, body) && body.Some? {
      PostedOnce(messages, body);
      forall device: Device | Names(body.value, device.userId)
        ensures InBody(body.value, device) <==> device in Targets(messages)
      {
        SplitAccount(messages, body, device.userId);
        assert InBody(body.value, device) ==> device in PostedDevices(messages, body);
      }
    }
  }
}
