/** The devices of a declared send and the keys that name them. */
module DeviceSets {
  import opened Options
  import opened Sequences
  import Decimal

  const NUL: char := '\0'

  /** An account and one of its devices. */
  datatype Device = Device(userId: string, deviceId: nat)

  function DeviceKey(device: Device): string {
    device.userId + [NUL] + Decimal.Print(device.deviceId)
  }

  /** The index of the first NUL at or after `from`, or the length of the text. */
  function NulFrom(text: string, from: nat): (index: nat)
    requires from <= |text|
    ensures from <= index <= |text|
    ensures index < |text| ==> text[index] == NUL
    ensures forall i :: from <= i < index ==> text[i] != NUL
    decreases |text| - from
  {
    if from == |text| || text[from] == NUL then from else NulFrom(text, from + 1)
  }

  /**
   * The device that a pass reads back from a key: the part before the first
   * NUL, and the number in the part after it. None when that part is no number.
   */
  function SplitKey(key: string): Option<Device> {
    var first := NulFrom(key, 0);
    if first == |key| then None
    else
      var digits := key[first + 1..NulFrom(key, first + 1)];
      if Decimal.AllDigits(digits) then Some(Device(key[..first], Decimal.Value(digits))) else None
  }

  lemma LastNulOfKey(device: Device)
    ensures var key := DeviceKey(device);
            && |key| > |device.userId| && key[|device.userId|] == NUL
            && forall i :: |device.userId| < i < |key| ==> key[i] != NUL
  {
  }

  /** Two devices with one key are one device, also when a user ID contains a NUL. */
  lemma DeviceKeyInjective(one: Device, other: Device)
    requires DeviceKey(one) == DeviceKey(other)
    ensures one == other
  {
    LastNulOfKey(one);
    LastNulOfKey(other);
    var key := DeviceKey(one);
    assert |one.userId| == |other.userId|;
    assert key[..|one.userId|] == one.userId && key[..|other.userId|] == other.userId;
    assert key[|one.userId| + 1..] == Decimal.Print(one.deviceId);
    assert key[|other.userId| + 1..] == Decimal.Print(other.deviceId);
    Decimal.PrintInjective(one.deviceId, other.deviceId);
  }

  /** Splitting a key gives its device back if and only if the user ID contains no NUL. */
  lemma SplitKeyInvertsIff(device: Device)
    ensures SplitKey(DeviceKey(device)) == Some(device) <==> NUL !in device.userId
  {
    var key := DeviceKey(device);
    var first := NulFrom(key, 0);
    LastNulOfKey(device);
    assert forall i :: 0 <= i < |device.userId| ==> key[i] == device.userId[i];
    if NUL in device.userId {
      assert first < |device.userId|;
      assert |key[..first]| < |device.userId|;
    } else {
      assert first == |device.userId|;
      assert NulFrom(key, first + 1) == |key|;
      assert key[..first] == device.userId && key[first + 1..] == Decimal.Print(device.deviceId);
      assert key[first + 1..|key|] == key[first + 1..];
      Decimal.ValueOfPrint(device.deviceId);
    }
  }

  /** Set the device under its key. A key that is present keeps its place. */
  function PutDevice(devices: seq<Device>, device: Device): seq<Device> {
    if exists i :: 0 <= i < |devices| && DeviceKey(devices[i]) == DeviceKey(device) then devices
    else devices + [device]
  }

  predicate HasDevice(devices: seq<Device>, device: Device) {
    exists i :: 0 <= i < |devices| && DeviceKey(devices[i]) == DeviceKey(device)
  }

  lemma HasDeviceIsMembership(devices: seq<Device>, device: Device)
    ensures HasDevice(devices, device) <==> device in devices
  {
    if HasDevice(devices, device) {
      var i :| 0 <= i < |devices| && DeviceKey(devices[i]) == DeviceKey(device);
      DeviceKeyInjective(devices[i], device);
    }
  }

  lemma PutDeviceAdds(devices: seq<Device>, device: Device)
    requires Unique(devices)
    ensures Unique(PutDevice(devices, device))
    ensures forall d :: d in PutDevice(devices, device) <==> d in devices || d == device
  {
    HasDeviceIsMembership(devices, device);
  }

  // --- The accounts of devices ------------------------------------------------

  function UsersOf(devices: set<Device>): set<string> {
    set device | device in devices :: device.userId
  }

  /** The accounts in the order of their first device, each once. */
  function UserList(devices: seq<Device>): seq<string> {
    if devices == [] then []
    else
      var front, last := UserList(devices[..|devices| - 1]), devices[|devices| - 1].userId;
      if last in front then front else front + [last]
  }

  /** The device IDs of one account, in order. */
  function IdsOf(devices: seq<Device>, userId: string): seq<nat> {
    if devices == [] then []
    else
      var front, last := IdsOf(devices[..|devices| - 1], userId), devices[|devices| - 1];
      if last.userId == userId then front + [last.deviceId] else front
  }

  lemma {:induction false} IdsOfMembers(devices: seq<Device>, userId: string)
    ensures forall id :: id in IdsOf(devices, userId) <==> Device(userId, id) in devices
  {
    if devices != [] {
      var front, last := devices[..|devices| - 1], devices[|devices| - 1];
      IdsOfMembers(front, userId);
      assert devices == front + [last];
    }
  }

  lemma {:induction false} IdsOfUnique(devices: seq<Device>, userId: string)
    requires Unique(devices)
    ensures Unique(IdsOf(devices, userId))
  {
    if devices != [] {
      var front, last := devices[..|devices| - 1], devices[|devices| - 1];
      IdsOfUnique(front, userId);
      IdsOfMembers(front, userId);
      assert last !in front;
    }
  }

  lemma {:induction false} UserListMembers(devices: seq<Device>)
    ensures Unique(UserList(devices))
    ensures forall userId :: userId in UserList(devices) <==>
              exists device :: device in devices && device.userId == userId
  {
    if devices != [] {
      var front, last := devices[..|devices| - 1], devices[|devices| - 1];
      UserListMembers(front);
      assert devices == front + [last];
    }
  }

  // --- Ascending device IDs --------------------------------------------------

  predicate Ascending(ids: seq<nat>) {
    forall i, j :: 0 <= i < j < |ids| ==> ids[i] < ids[j]
  }

  predicate IsLeast(ids: set<nat>, least: nat) {
    least in ids && forall id :: id in ids ==> least <= id
  }

  lemma {:induction false} HasLeast(ids: set<nat>)
    requires ids != {}
    ensures exists least :: IsLeast(ids, least)
  {
    var some :| some in ids;
    if ids == {some} {
      assert IsLeast(ids, some);
    } else {
      var rest := ids - {some};
      assert ids == rest + {some};
      HasLeast(rest);
      var least :| IsLeast(rest, least);
      assert IsLeast(ids, if some < least then some else least);
    }
  }

  function Least(ids: set<nat>): (least: nat)
    requires ids != {}
    ensures IsLeast(ids, least)
  {
    HasLeast(ids);
    var least :| least in ids && IsLeast(ids, least);
    least
  }

  /** The IDs of a set in ascending order. */
  function SortedIds(ids: set<nat>): seq<nat> {
    if ids == {} then [] else [Least(ids)] + SortedIds(ids - {Least(ids)})
  }

  lemma {:induction false} SortedIdsAscend(ids: set<nat>)
    ensures Ascending(SortedIds(ids))
    ensures forall id :: id in SortedIds(ids) <==> id in ids
  {
    if ids != {} {
      var least, rest := Least(ids), SortedIds(ids - {Least(ids)});
      SortedIdsAscend(ids - {least});
      forall i | 0 <= i < |rest| ensures least < rest[i] {
        assert rest[i] in ids - {least};
      }
    }
  }

  /** An ascending list is the sorted list of its set. */
  lemma {:induction false} AscendingIsSorted(list: seq<nat>, ids: set<nat>)
    requires Ascending(list) && forall id :: id in list <==> id in ids
    ensures list == SortedIds(ids)
    decreases |list|
  {
    if list == [] {
      assert ids == {};
    } else {
      FirstIsLeast(list, ids);
      AscendingIsSorted(list[1..], ids - {list[0]});
    }
  }

  lemma FirstIsLeast(list: seq<nat>, ids: set<nat>)
    requires list != [] && Ascending(list) && forall id :: id in list <==> id in ids
    ensures ids != {} && Least(ids) == list[0]
    ensures Ascending(list[1..]) && forall id :: id in list[1..] <==> id in ids - {list[0]}
  {
    assert list[0] in ids && Least(ids) in list;
    assert list == [list[0]] + list[1..];
  }
}
