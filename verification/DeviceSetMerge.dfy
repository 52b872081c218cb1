/**
 * The merge of the refusals of one pass by account
 * (client/device-set-reconciliation.ts, mergeDeviceSetRefusals and
 * lastRefusalOf).
 */
module DeviceSetMerge {
  import opened Options
  import opened Sequences
  import opened DeviceSets

  datatype MismatchAccount = MismatchAccount(userId: string, missingDeviceIds: seq<nat>, extraDeviceIds: seq<nat>)

  datatype StaleAccount = StaleAccount(userId: string, staleDeviceIds: seq<nat>)

  /** A refusal of a whole declared post. */
  datatype Refusal =
    | Mismatch(mismatched: seq<MismatchAccount>)
    | Stale(outdated: seq<StaleAccount>)

  /** The repairs of one account that the refusals of a pass name. */
  datatype AccountRepair = AccountRepair(
    userId: string,
    missingDeviceIds: seq<nat>,
    extraDeviceIds: seq<nat>,
    staleDeviceIds: seq<nat>)

  datatype RefusalCode = DeviceSetMismatch | StaleDevice | BundleNotFound

  datatype LastRefusal = LastRefusal(code: RefusalCode, accounts: seq<AccountRepair>)

  /** What one refusal says about one account. */
  datatype Finding = Finding(userId: string, missing: set<nat>, extra: set<nat>, stale: set<nat>)

  function IdSet(ids: seq<nat>): set<nat> {
    set id | id in ids
  }

  function FindingsOf(refusal: Refusal): seq<Finding> {
    match refusal
    case Mismatch(accounts) =>
      seq(|accounts|, i requires 0 <= i < |accounts| =>
        Finding(accounts[i].userId, IdSet(accounts[i].missingDeviceIds), IdSet(accounts[i].extraDeviceIds), {}))
    case Stale(accounts) =>
      seq(|accounts|, i requires 0 <= i < |accounts| =>
        Finding(accounts[i].userId, {}, {}, IdSet(accounts[i].staleDeviceIds)))
  }

  function Findings(refusals: seq<Refusal>): seq<Finding> {
    if refusals == [] then []
    else Findings(refusals[..|refusals| - 1]) + FindingsOf(refusals[|refusals| - 1])
  }

  // --- The merge as unions ----------------------------------------------------

  datatype Part = MissingPart | ExtraPart | StalePart

  function PartOf(finding: Finding, part: Part): set<nat> {
    match part
    case MissingPart => finding.missing
    case ExtraPart => finding.extra
    case StalePart => finding.stale
  }

  /** The device IDs that any finding names for the account in one part. */
  function UnionOf(findings: seq<Finding>, userId: string, part: Part): set<nat> {
    set f, id | f in findings && f.userId == userId && id in PartOf(f, part) :: id
  }

  ghost predicate Names(findings: seq<Finding>, userId: string) {
    exists f :: f in findings && f.userId == userId
  }

  /** The accounts in the order in which the findings first name them. */
  function AccountsOf(findings: seq<Finding>): seq<string> {
    if findings == [] then []
    else
      var front, last := AccountsOf(findings[..|findings| - 1]), findings[|findings| - 1].userId;
      if last in front then front else front + [last]
  }

  function RepairOf(findings: seq<Finding>, userId: string): AccountRepair {
    var extra := UnionOf(findings, userId, ExtraPart);
    AccountRepair(
      userId,
      SortedIds(UnionOf(findings, userId, MissingPart) - extra),
      SortedIds(extra),
      SortedIds(UnionOf(findings, userId, StalePart) - extra))
  }

  function Merged(refusals: seq<Refusal>): seq<AccountRepair> {
    var findings := Findings(refusals);
    var accounts := AccountsOf(findings);
    seq(|accounts|, i requires 0 <= i < |accounts| => RepairOf(findings, accounts[i]))
  }

  lemma {:induction false} AccountsOfMembers(findings: seq<Finding>)
    ensures Unique(AccountsOf(findings))
    ensures forall userId :: userId in AccountsOf(findings) <==> Names(findings, userId)
  {
    if findings != [] {
      var front, last := findings[..|findings| - 1], findings[|findings| - 1];
      AccountsOfMembers(front);
      assert findings == front + [last];
      forall userId
        ensures userId in AccountsOf(findings) <==> Names(findings, userId)
      {
        if userId == last.userId {
          assert last in findings;
        } else if Names(findings, userId) {
          var f :| f in findings && f.userId == userId;
          assert f in front;
        }
      }
    }
  }

  lemma {:induction false} FindingsMembers(refusals: seq<Refusal>)
    ensures forall f :: f in Findings(refusals) <==> exists r :: r in refusals && f in FindingsOf(r)
  {
    if refusals != [] {
      var front, last := refusals[..|refusals| - 1], refusals[|refusals| - 1];
      FindingsMembers(front);
      assert refusals == front + [last];
      forall f ensures f in Findings(refusals) <==> exists r :: r in refusals && f in FindingsOf(r) {
        if exists r :: r in refusals && f in FindingsOf(r) {
          var r :| r in refusals && f in FindingsOf(r);
          assert r in front || r == last;
        }
        if f in FindingsOf(last) {
          assert last in refusals;
        }
      }
    }
  }

  /**
   * The repair of an account holds the union of all extra devices, and the
   * unions of all missing and all stale devices without them. Each list ascends
   * strictly.
   */
  lemma RepairIsTheUnions(findings: seq<Finding>, userId: string)
    ensures var r, extra := RepairOf(findings, userId), UnionOf(findings, userId, ExtraPart);
            && Ascending(r.missingDeviceIds) && Ascending(r.extraDeviceIds) && Ascending(r.staleDeviceIds)
            && IdSet(r.extraDeviceIds) == extra
            && IdSet(r.missingDeviceIds) == UnionOf(findings, userId, MissingPart) - extra
            && IdSet(r.staleDeviceIds) == UnionOf(findings, userId, StalePart) - extra
  {
    var extra := UnionOf(findings, userId, ExtraPart);
    SortedIdsAscend(extra);
    SortedIdsAscend(UnionOf(findings, userId, MissingPart) - extra);
    SortedIdsAscend(UnionOf(findings, userId, StalePart) - extra);
  }

  /** The merge gives exactly one repair for each account that a refusal names. */
  lemma MergeRepairsEachAccountOnce(refusals: seq<Refusal>)
    ensures var merged, findings := Merged(refusals), Findings(refusals);
            && (forall i, j :: 0 <= i < j < |merged| ==> merged[i].userId != merged[j].userId)
            && (forall r :: r in merged <==> Names(findings, r.userId) && r == RepairOf(findings, r.userId))
  {
    MergedElements(refusals);
    AccountsOfMembers(Findings(refusals));
  }

  /** Permuting the refusals changes at most the order of the accounts. */
  lemma PermutingRefusalsKeepsRepairs(one: seq<Refusal>, other: seq<Refusal>)
    requires multiset(one) == multiset(other)
    ensures multiset(Merged(one)) == multiset(Merged(other))
  {
    forall r ensures r in one <==> r in other {
      assert r in one <==> r in multiset(one);
      assert r in other <==> r in multiset(other);
    }
    FindingsMembers(one);
    FindingsMembers(other);
    SameFindingsSameRepairs(Findings(one), Findings(other));
    MergedElements(one);
    MergedElements(other);
    SameElements(Merged(one), Merged(other));
  }

  lemma MergedElements(refusals: seq<Refusal>)
    ensures Unique(Merged(refusals))
    ensures forall r :: r in Merged(refusals)
                        <==> r.userId in AccountsOf(Findings(refusals)) && r == RepairOf(Findings(refusals), r.userId)
  {
    var accounts, merged := AccountsOf(Findings(refusals)), Merged(refusals);
    AccountsOfMembers(Findings(refusals));
    forall r: AccountRepair | r.userId in accounts && r == RepairOf(Findings(refusals), r.userId) ensures r in merged {
      var i :| 0 <= i < |accounts| && accounts[i] == r.userId;
      assert merged[i] == r;
    }
  }

  lemma SameFindingsSameRepairs(one: seq<Finding>, other: seq<Finding>)
    requires forall f :: f in one <==> f in other
    ensures forall userId :: userId in AccountsOf(one) <==> userId in AccountsOf(other)
    ensures forall userId :: RepairOf(one, userId) == RepairOf(other, userId)
  {
    AccountsOfMembers(one);
    AccountsOfMembers(other);
    forall userId ensures RepairOf(one, userId) == RepairOf(other, userId) {
      assert UnionOf(one, userId, MissingPart) == UnionOf(other, userId, MissingPart);
      assert UnionOf(one, userId, ExtraPart) == UnionOf(other, userId, ExtraPart);
      assert UnionOf(one, userId, StalePart) == UnionOf(other, userId, StalePart);
    }
  }

  lemma {:induction false} SameElements<T>(one: seq<T>, other: seq<T>)
    requires Unique(one) && Unique(other) && forall x :: x in one <==> x in other
    ensures multiset(one) == multiset(other)
  {
    forall x ensures multiset(one)[x] == multiset(other)[x] {
      OccursOnce(one, x);
      OccursOnce(other, x);
    }
  }

  lemma {:induction false} OccursOnce<T>(s: seq<T>, x: T)
    requires Unique(s)
    ensures multiset(s)[x] == if x in s then 1 else 0
  {
    if s != [] {
      assert s == s[..|s| - 1] + [s[|s| - 1]];
      OccursOnce(s[..|s| - 1], x);
    }
  }

  // --- The merge in terms of the refusals ------------------------------------------------

  /** A refusal names the account, with the device in one part of what it says. */
  ghost predicate SaysPart(refusal: Refusal, userId: string, part: Part, id: nat) {
    match part
    case MissingPart =>
      refusal.Mismatch? && exists a :: a in refusal.mismatched && a.userId == userId && id in a.missingDeviceIds
    case ExtraPart =>
      refusal.Mismatch? && exists a :: a in refusal.mismatched && a.userId == userId && id in a.extraDeviceIds
    case StalePart =>
      refusal.Stale? && exists a :: a in refusal.outdated && a.userId == userId && id in a.staleDeviceIds
  }

  ghost predicate SaysAccount(refusal: Refusal, userId: string) {
    match refusal
    case Mismatch(accounts) => exists a :: a in accounts && a.userId == userId
    case Stale(accounts) => exists a :: a in accounts && a.userId == userId
  }

  ghost predicate Says(refusals: seq<Refusal>, userId: string, part: Part, id: nat) {
    exists refusal :: refusal in refusals && SaysPart(refusal, userId, part, id)
  }

  lemma FindingsSay(refusal: Refusal, userId: string, part: Part, id: nat)
    ensures SaysPart(refusal, userId, part, id) <==>
            exists f :: f in FindingsOf(refusal) && f.userId == userId && id in PartOf(f, part)
  {
    var findings := FindingsOf(refusal);
    match refusal
    case Mismatch(accounts) =>
      if a :| a in accounts && a.userId == userId && id in (if part.ExtraPart? then a.extraDeviceIds
                                                              else if part.MissingPart? then a.missingDeviceIds else [])
      {
        var i :| 0 <= i < |accounts| && accounts[i] == a;
        assert findings[i] in findings && id in PartOf(findings[i], part);
      }
      if f :| f in findings && f.userId == userId && id in PartOf(f, part) {
        var i :| 0 <= i < |findings| && findings[i] == f;
        assert accounts[i] in accounts;
      }
    case Stale(accounts) =>
      if a :| a in accounts && a.userId == userId && id in (if part.StalePart? then a.staleDeviceIds else []) {
        var i :| 0 <= i < |accounts| && accounts[i] == a;
        assert findings[i] in findings && id in PartOf(findings[i], part);
      }
      if f :| f in findings && f.userId == userId && id in PartOf(f, part) {
        var i :| 0 <= i < |findings| && findings[i] == f;
        assert accounts[i] in accounts;
      }
  }

  lemma FindingsSayAccount(refusal: Refusal, userId: string)
    ensures SaysAccount(refusal, userId) <==> Names(FindingsOf(refusal), userId)
  {
    var findings := FindingsOf(refusal);
    match refusal
    case Mismatch(accounts) =>
      assert forall i :: 0 <= i < |findings| ==> findings[i].userId == accounts[i].userId && findings[i] in findings;
      if Names(findings, userId) {
        var f :| f in findings && f.userId == userId;
        var i :| 0 <= i < |findings| && findings[i] == f;
        assert accounts[i] in accounts;
      }
    case Stale(accounts) =>
      assert forall i :: 0 <= i < |findings| ==> findings[i].userId == accounts[i].userId && findings[i] in findings;
      if Names(findings, userId) {
        var f :| f in findings && f.userId == userId;
        var i :| 0 <= i < |findings| && findings[i] == f;
        assert accounts[i] in accounts;
      }
  }

  lemma UnionIff(refusals: seq<Refusal>, userId: string, part: Part, id: nat)
    ensures id in UnionOf(Findings(refusals), userId, part) <==> Says(refusals, userId, part, id)
  {
    FindingsMembers(refusals);
    if id in UnionOf(Findings(refusals), userId, part) {
      var f :| f in Findings(refusals) && f.userId == userId && id in PartOf(f, part);
      var refusal :| refusal in refusals && f in FindingsOf(refusal);
      FindingsSay(refusal, userId, part, id);
    }
    if Says(refusals, userId, part, id) {
      var refusal :| refusal in refusals && SaysPart(refusal, userId, part, id);
      FindingsSay(refusal, userId, part, id);
      var f :| f in FindingsOf(refusal) && f.userId == userId && id in PartOf(f, part);
      assert f in Findings(refusals);
    }
  }

  /** A merge repairs exactly the accounts that a refusal names. */
  lemma RepairedAccountsIff(refusals: seq<Refusal>, userId: string)
    ensures (exists repair :: repair in Merged(refusals) && repair.userId == userId)
            <==> exists refusal :: refusal in refusals && SaysAccount(refusal, userId)
  {
    var findings := Findings(refusals);
    MergeRepairsEachAccountOnce(refusals);
    FindingsMembers(refusals);
    if exists refusal :: refusal in refusals && SaysAccount(refusal, userId) {
      var refusal :| refusal in refusals && SaysAccount(refusal, userId);
      FindingsSayAccount(refusal, userId);
      var f :| f in FindingsOf(refusal) && f.userId == userId;
      assert f in findings;
      assert RepairOf(findings, userId) in Merged(refusals);
    }
    if Names(findings, userId) {
      var f :| f in findings && f.userId == userId;
      var refusal :| refusal in refusals && f in FindingsOf(refusal);
      FindingsSayAccount(refusal, userId);
    }
  }

  /**
   * A repair names exactly the devices that the refusals name for its account: all
   * extra devices, and the missing and the stale ones that no refusal calls extra.
   */
  lemma RepairNamesTheRefused(refusals: seq<Refusal>, repair: AccountRepair, id: nat)
    requires repair in Merged(refusals)
    ensures id in repair.extraDeviceIds <==> Says(refusals, repair.userId, ExtraPart, id)
    ensures id in repair.missingDeviceIds <==>
            Says(refusals, repair.userId, MissingPart, id) && !Says(refusals, repair.userId, ExtraPart, id)
    ensures id in repair.staleDeviceIds <==>
            Says(refusals, repair.userId, StalePart, id) && !Says(refusals, repair.userId, ExtraPart, id)
  {
    MergeRepairsEachAccountOnce(refusals);
    RepairIsTheUnions(Findings(refusals), repair.userId);
    UnionIff(refusals, repair.userId, MissingPart, id);
    UnionIff(refusals, repair.userId, ExtraPart, id);
    UnionIff(refusals, repair.userId, StalePart, id);
    assert id in repair.extraDeviceIds <==> id in IdSet(repair.extraDeviceIds);
    assert id in repair.missingDeviceIds <==> id in IdSet(repair.missingDeviceIds);
    assert id in repair.staleDeviceIds <==> id in IdSet(repair.staleDeviceIds);
  }

  lemma {:induction false} AccountsGrow(findings: seq<Finding>, more: seq<Finding>)
    ensures AccountsOf(findings) <= AccountsOf(findings + more)
  {
    if more == [] {
      assert findings + more == findings;
    } else {
      var front := more[..|more| - 1];
      AccountsGrow(findings, front);
      assert (findings + more)[..|findings + more| - 1] == findings + front;
    }
  }

  /** The accounts come in the order of their first refusal. */
  lemma RepairsKeepTheOrder(refusals: seq<Refusal>, last: Refusal)
    ensures |Merged(refusals)| <= |Merged(refusals + [last])|
    ensures forall i :: 0 <= i < |Merged(refusals)| ==>
              Merged(refusals + [last])[i].userId == Merged(refusals)[i].userId
  {
    assert (refusals + [last])[..|refusals|] == refusals;
    AccountsGrow(Findings(refusals), FindingsOf(last));
  }

  // --- The merge as loops --------------------------------------------------------

  /** The device IDs that the merge collected for an account. */
  datatype Entry = Entry(missing: set<nat>, extra: set<nat>, stale: set<nat>)

  function EntryOf(findings: seq<Finding>, userId: string): Entry {
    Entry(UnionOf(findings, userId, MissingPart), UnionOf(findings, userId, ExtraPart),
          UnionOf(findings, userId, StalePart))
  }

  /** The sorted lists of an entry: an extra device is neither missing nor stale. */
  function RepairOfEntry(userId: string, entry: Entry): AccountRepair {
    AccountRepair(userId, SortedIds(entry.missing - entry.extra), SortedIds(entry.extra),
                  SortedIds(entry.stale - entry.extra))
  }

  lemma EntryRepairs(findings: seq<Finding>, userId: string)
    ensures RepairOfEntry(userId, EntryOf(findings, userId)) == RepairOf(findings, userId)
  {
  }

  ghost predicate Collects(order: seq<string>, entries: map<string, Entry>, findings: seq<Finding>) {
    && order == AccountsOf(findings)
    && (forall userId :: userId in entries <==> userId in order)
    && forall userId :: userId in entries ==> entries[userId] == EntryOf(findings, userId)
  }

  lemma UnionGrows(findings: seq<Finding>, finding: Finding, userId: string, part: Part)
    ensures UnionOf(findings + [finding], userId, part)
         == UnionOf(findings, userId, part) + (if userId == finding.userId then PartOf(finding, part) else {})
  {
    assert forall f :: f in findings + [finding] <==> f in findings || f == finding;
  }

  lemma EntryGrows(findings: seq<Finding>, finding: Finding, userId: string)
    ensures EntryOf(findings + [finding], userId)
         == if userId == finding.userId then Added(EntryOf(findings, userId), finding) else EntryOf(findings, userId)
  {
    UnionGrows(findings, finding, userId, MissingPart);
    UnionGrows(findings, finding, userId, ExtraPart);
    UnionGrows(findings, finding, userId, StalePart);
  }

  lemma UnnamedEntryIsEmpty(findings: seq<Finding>, userId: string)
    requires !Names(findings, userId)
    ensures EntryOf(findings, userId) == Entry({}, {}, {})
  {
  }

  function Added(entry: Entry, finding: Finding): Entry {
    Entry(entry.missing + finding.missing, entry.extra + finding.extra, entry.stale + finding.stale)
  }

  lemma CollectsOneMore(order: seq<string>, entries: map<string, Entry>, findings: seq<Finding>, finding: Finding)
    requires Collects(order, entries, findings)
    ensures var userId := finding.userId;
            var entry := if userId in entries then entries[userId] else Entry({}, {}, {});
            Collects(if userId in entries then order else order + [userId], entries[userId := Added(entry, finding)],
                     findings + [finding])
  {
    var more := findings + [finding];
    assert more[..|more| - 1] == findings;
    AccountsOfMembers(findings);
    if finding.userId !in entries {
      UnnamedEntryIsEmpty(findings, finding.userId);
    }
    forall userId
      ensures EntryOf(more, userId)
           == if userId == finding.userId then Added(EntryOf(findings, userId), finding) else EntryOf(findings, userId)
    {
      EntryGrows(findings, finding, userId);
    }
  }

  /** Collect the findings of one refusal. */
  method CollectRefusal(refusal: Refusal, order: seq<string>, entries: map<string, Entry>,
                        ghost before: seq<Finding>)
    returns (order': seq<string>, entries': map<string, Entry>)
    requires Collects(order, entries, before)
    ensures Collects(order', entries', before + FindingsOf(refusal))
  {
    order', entries' := order, entries;
    var named := FindingsOf(refusal);
    assert before + named[..0] == before;
    for j := 0 to |named|
      invariant Collects(order', entries', before + named[..j])
    {
      var finding := named[j];
      CollectsOneMore(order', entries', before + named[..j], finding);
      assert (before + named[..j]) + [finding] == before + named[..j + 1];
      var entry := Entry({}, {}, {});
      if finding.userId in entries' {
        entry := entries'[finding.userId];
      } else {
        order' := order' + [finding.userId];
      }
      entries' := entries'[finding.userId := Added(entry, finding)];
    }
    assert named[..|named|] == named;
  }

  method CollectRefusals(refusals: seq<Refusal>) returns (order: seq<string>, entries: map<string, Entry>)
    ensures Collects(order, entries, Findings(refusals))
  {
    order, entries := [], map[];
    for i := 0 to |refusals|
      invariant Collects(order, entries, Findings(refusals[..i]))
    {
      assert refusals[..i + 1][..i] == refusals[..i];
      order, entries := CollectRefusal(refusals[i], order, entries, Findings(refusals[..i]));
    }
    assert refusals[..|refusals|] == refusals;
  }

  /** Merge the refusals of one pass by account. */
  method MergeDeviceSetRefusals(refusals: seq<Refusal>) returns (repairs: seq<AccountRepair>)
    ensures repairs == Merged(refusals)
  {
    var order, entries := CollectRefusals(refusals);
    repairs := [];
    for i := 0 to |order|
      invariant repairs == Merged(refusals)[..i]
    {
      EntryRepairs(Findings(refusals), order[i]);
      PrefixGrows(Merged(refusals), i);
      repairs := repairs + [RepairOfEntry(order[i], entries[order[i]])];
    }
    assert Merged(refusals)[..|order|] == Merged(refusals);
  }

  /** The refusal that a phase reports when it ends after this pass. */
  function LastRefusalOf(refusals: seq<Refusal>, repairs: seq<AccountRepair>): LastRefusal {
    LastRefusal(if exists i :: 0 <= i < |refusals| && refusals[i].Mismatch? then DeviceSetMismatch else StaleDevice,
                repairs)
  }
}
