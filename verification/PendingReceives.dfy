/**
 * The paged listing of pending receives (client/client.ts) over the ordered
 * receive records of the store (local/store/receive-work.ts), and its printed
 * cursor.
 */
module PendingReceives {
  import opened Options
  import opened Sequences
  import Decimal

  datatype Stage = Decrypted | ReceiptDue | AwaitingCompletion

  datatype Cursor = Cursor(arrivalSeq: int, workId: string)

  datatype Record = Record(arrivalSeq: int, workId: string, stage: Stage)

  /** What a store accepts: a safe integer, which can be negative, and a work ID that is not empty. */
  predicate Accepted(cursor: Cursor) {
    -Decimal.MAX_SAFE_INTEGER <= cursor.arrivalSeq <= Decimal.MAX_SAFE_INTEGER && cursor.workId != ""
  }

  function CursorOf(record: Record): Cursor {
    Cursor(record.arrivalSeq, record.workId)
  }

  // --- The printed cursor ----------------------------------------------------------------

  function PrintCursor(cursor: Cursor): string {
    Decimal.PrintInt(cursor.arrivalSeq) + ":" + cursor.workId
  }

  /** The number of digits at the start of a text from an index. */
  function DigitsFrom(text: string, from: nat): (to: nat)
    requires from <= |text|
    ensures from <= to <= |text|
    ensures forall i :: from <= i < to ==> Decimal.IsDigit(text[i])
    ensures to < |text| ==> !Decimal.IsDigit(text[to])
    decreases |text| - from
  {
    if from < |text| && Decimal.IsDigit(text[from]) then DigitsFrom(text, from + 1) else from
  }

  /** Digits, a colon, and a rest that is not empty and can hold anything. */
  function ParseCursor(text: string): Option<Cursor> {
    var digits := DigitsFrom(text, 0);
    if digits == 0 || digits + 1 >= |text| || text[digits] != ':' then None
    else
      var arrivalSeq := Decimal.Value(text[..digits]);
      if arrivalSeq <= Decimal.MAX_SAFE_INTEGER then Some(Cursor(arrivalSeq, text[digits + 1..])) else None
  }

  lemma DigitsOf(digits: string, rest: string)
    requires Decimal.AllDigits(digits) && rest != "" && !Decimal.IsDigit(rest[0])
    ensures DigitsFrom(digits + rest, 0) == |digits|
  {
    var text := digits + rest;
    assert forall i :: 0 <= i < |digits| ==> text[i] == digits[i];
    assert text[|digits|] == rest[0];
  }

  lemma ParsesItsPrint(cursor: Cursor)
    requires Accepted(cursor) && cursor.arrivalSeq >= 0
    ensures ParseCursor(PrintCursor(cursor)) == Some(cursor)
  {
    var digits, rest := Decimal.Print(cursor.arrivalSeq), ":" + cursor.workId;
    assert PrintCursor(cursor) == digits + rest;
    DigitsOf(digits, rest);
    SplitOf(digits, rest);
    Decimal.ValueOfPrint(cursor.arrivalSeq);
    assert rest[1..] == cursor.workId;
  }

  lemma SplitOf(digits: string, rest: string)
    requires rest != ""
    ensures (digits + rest)[..|digits|] == digits
    ensures (digits + rest)[|digits|] == rest[0] && (digits + rest)[|digits| + 1..] == rest[1..]
  {
  }

  /**
   * The cursor of an accepted record parses back, also when its work ID holds a
   * colon, if and only if its arrival number is not negative.
   */
  lemma CursorParsesBackIff(cursor: Cursor)
    requires Accepted(cursor)
    ensures ParseCursor(PrintCursor(cursor)) == Some(cursor) <==> cursor.arrivalSeq >= 0
    ensures cursor.arrivalSeq < 0 ==> ParseCursor(PrintCursor(cursor)) == None
  {
    if cursor.arrivalSeq >= 0 {
      ParsesItsPrint(cursor);
    } else {
      assert PrintCursor(cursor)[0] == '-';
    }
  }

  // --- The order of the store ----------------------------------------------------------------

  /** The order of texts by their code units. */
  predicate TextBefore(one: string, other: string) {
    if other == "" then false
    else if one == "" then true
    else one[0] < other[0] || (one[0] == other[0] && TextBefore(one[1..], other[1..]))
  }

  predicate Before(one: Cursor, other: Cursor) {
    || one.arrivalSeq < other.arrivalSeq
    || (one.arrivalSeq == other.arrivalSeq && TextBefore(one.workId, other.workId))
  }

  lemma {:induction false} TextBeforeIsAsymmetric(one: string, other: string)
    requires TextBefore(one, other)
    ensures !TextBefore(other, one)
  {
    if one != "" && one[0] == other[0] {
      TextBeforeIsAsymmetric(one[1..], other[1..]);
    }
  }

  lemma {:induction false} TextBeforeIsTransitive(one: string, two: string, three: string)
    requires TextBefore(one, two) && TextBefore(two, three)
    ensures TextBefore(one, three)
  {
    if one != "" && one[0] == two[0] == three[0] {
      TextBeforeIsTransitive(one[1..], two[1..], three[1..]);
    }
  }

  lemma BeforeIsTransitive(one: Cursor, two: Cursor, three: Cursor)
    requires Before(one, two) && Before(two, three)
    ensures Before(one, three)
  {
    if one.arrivalSeq == three.arrivalSeq {
      TextBeforeIsTransitive(one.workId, two.workId, three.workId);
    }
  }

  lemma BeforeIsAsymmetric(one: Cursor, other: Cursor)
    requires Before(one, other)
    ensures !Before(other, one)
  {
    if one.arrivalSeq == other.arrivalSeq {
      TextBeforeIsAsymmetric(one.workId, other.workId);
    }
  }

  lemma {:induction false} NothingIsBeforeItself(text: string)
    ensures !TextBefore(text, text)
  {
    if text != "" {
      NothingIsBeforeItself(text[1..]);
    }
  }

  /** The records of a store in its listing order, which a store that scans sorts them into. */
  ghost predicate Listed(records: seq<Record>) {
    forall i, j :: 0 <= i < j < |records| ==> Before(CursorOf(records[i]), CursorOf(records[j]))
  }

  predicate Matches(record: Record, ready: bool, after: Option<Cursor>) {
    && (ready ==> record.stage == AwaitingCompletion)
    && (after.Some? ==> Before(after.value, CursorOf(record)))
  }

  /** The records of a query, before the page limit. */
  function Matching(records: seq<Record>, ready: bool, after: Option<Cursor>): seq<Record> {
    Filter(records, record => Matches(record, ready, after))
  }

  function ListReceiveWork(records: seq<Record>, ready: bool, after: Option<Cursor>, limit: nat): seq<Record> {
    var matching := Matching(records, ready, after);
    if |matching| <= limit then matching else matching[..limit]
  }

  // --- A cursor splits the listing ---------------------------------------------------------------

  lemma {:induction false} FilterListed(records: seq<Record>, keep: Record -> bool)
    requires Listed(records)
    ensures Listed(Filter(records, keep))
  {
    if records != [] {
      var front, last := records[..|records| - 1], records[|records| - 1];
      FilterListed(front, keep);
      FilterMembers(front, keep);
      forall r | r in front ensures Before(CursorOf(r), CursorOf(last)) {
      }
    }
  }

  /** Behind any cursor, a listing holds exactly its records from some place on. */
  lemma {:induction false} CursorSplits(listing: seq<Record>, cursor: Cursor, keep: Record -> bool) returns (place: nat)
    requires Listed(listing) && forall r :: keep(r) == Before(cursor, CursorOf(r))
    ensures place <= |listing| && Filter(listing, keep) == listing[place..]
  {
    if listing == [] {
      return 0;
    }
    var n := |listing| - 1;
    place := CursorSplits(listing[..n], cursor, keep);
    assert listing[..n + 1] == listing;
    if place < n {
      LaterAreBehind(listing, cursor, keep, place, n);
    } else {
      assert listing[..n][place..] == [] && listing[n..] == [listing[n]];
      assert Filter(listing, keep) == if keep(listing[n]) then [listing[n]] else [];
      if !keep(listing[n]) {
        place := |listing|;
      }
    }
  }

  lemma LaterAreBehind(listing: seq<Record>, cursor: Cursor, keep: Record -> bool, place: nat, n: nat)
    requires Listed(listing) && forall r :: keep(r) == Before(cursor, CursorOf(r))
    requires place < n < |listing| && Filter(listing[..n], keep) == listing[..n][place..]
    ensures keep(listing[n]) && listing[..n][place..] + [listing[n]] == listing[..n + 1][place..]
  {
    FilterMembers(listing[..n], keep);
    assert listing[..n][place..][0] == listing[place];
    assert listing[place] in Filter(listing[..n], keep);
    BeforeIsTransitive(cursor, CursorOf(listing[place]), CursorOf(listing[n]));
  }

  /** Behind the record at one place, it holds exactly the records after that place. */
  lemma MatchingAfter(listing: seq<Record>, k: nat, keep: Record -> bool)
    requires Listed(listing) && k < |listing|
    requires forall r :: keep(r) == Before(CursorOf(listing[k]), CursorOf(r))
    ensures Filter(listing, keep) == listing[k + 1..]
  {
    var front, back := listing[..k + 1], listing[k + 1..];
    assert listing == front + back;
    forall i | 0 <= i <= k ensures !keep(front[i]) {
      NotBehind(listing, i, k);
    }
    FilterNone(front, keep);
    forall i | 0 <= i < |back| ensures keep(back[i]) {
      assert back[i] == listing[k + 1 + i];
    }
    FilterAll(back, keep);
    FilterAppend(front, back, keep);
  }

  lemma NotBehind(listing: seq<Record>, i: nat, k: nat)
    requires Listed(listing) && i <= k < |listing|
    ensures !Before(CursorOf(listing[k]), CursorOf(listing[i]))
  {
    if i < k {
      BeforeIsAsymmetric(CursorOf(listing[i]), CursorOf(listing[k]));
    } else {
      NothingIsBeforeItself(listing[k].workId);
    }
  }

  /** The listing of a query with no cursor. */
  function Listing(records: seq<Record>, ready: bool): seq<Record> {
    Matching(records, ready, None)
  }

  lemma MatchingWithCursor(records: seq<Record>, ready: bool, cursor: Cursor, keep: Record -> bool)
    requires Listed(records) && forall r :: keep(r) == Before(cursor, CursorOf(r))
    ensures Listed(Listing(records, ready))
    ensures Matching(records, ready, Some(cursor)) == Filter(Listing(records, ready), keep)
  {
    FilterListed(records, r => Matches(r, ready, None));
    FilterTwice(records, r => Matches(r, ready, None), keep, r => Matches(r, ready, Some(cursor)));
  }

  /** What a query finds is the end of the listing. */
  lemma MatchingIsTheEnd(records: seq<Record>, ready: bool, after: Option<Cursor>) returns (place: nat)
    requires Listed(records)
    ensures place <= |Listing(records, ready)|
    ensures Matching(records, ready, after) == Listing(records, ready)[place..]
  {
    place := 0;
    if after.Some? {
      var keep := (r: Record) => Before(after.value, CursorOf(r));
      MatchingWithCursor(records, ready, after.value, keep);
      place := CursorSplits(Listing(records, ready), after.value, keep);
    }
  }

  /** The cursor of a record that a query found continues right behind it. */
  lemma MatchingContinues(records: seq<Record>, ready: bool, after: Option<Cursor>, k: nat)
    requires Listed(records) && k < |Matching(records, ready, after)|
    ensures var rest := Matching(records, ready, after);
            Matching(records, ready, Some(CursorOf(rest[k]))) == rest[k + 1..]
  {
    var listing, rest := Listing(records, ready), Matching(records, ready, after);
    var place := MatchingIsTheEnd(records, ready, after);
    assert rest[k] == listing[place + k] && rest[k + 1..] == listing[place + k + 1..];
    var cursor := CursorOf(rest[k]);
    var keep := (r: Record) => Before(cursor, CursorOf(r));
    MatchingWithCursor(records, ready, cursor, keep);
    MatchingAfter(listing, place + k, keep);
  }

  // --- The pages -----------------------------------------------------------------------------------

  predicate IsPending(record: Record) {
    record.stage != ReceiptDue
  }

  /** The pending records of a query, without pages. */
  function AllPending(records: seq<Record>, ready: bool): seq<Record> {
    Filter(Listing(records, ready), IsPending)
  }

  /**
   * The pending records of a query are exactly those that are not due a receipt
   * only, and that wait for their completion when the query asks for ready ones.
   */
  lemma AllPendingIff(records: seq<Record>, ready: bool, record: Record)
    ensures record in AllPending(records, ready) <==>
            record in records && record.stage != ReceiptDue && (ready ==> record.stage == AwaitingCompletion)
  {
    FilterMembers(records, r => Matches(r, ready, None));
    FilterMembers(Listing(records, ready), IsPending);
  }

  /** A query behind a cursor finds exactly the records that come later, by arrival and then by work ID. */
  lemma MatchingIff(records: seq<Record>, ready: bool, after: Option<Cursor>, record: Record)
    ensures record in Matching(records, ready, after) <==>
            && record in records && (ready ==> record.stage == AwaitingCompletion)
            && (after.None?
                || after.value.arrivalSeq < record.arrivalSeq
                || (after.value.arrivalSeq == record.arrivalSeq && TextBefore(after.value.workId, record.workId)))
  {
    FilterMembers(records, r => Matches(r, ready, after));
  }

  datatype Page = Page(items: seq<Record>, next: Option<string>)

  datatype Error = LimitNotPositive | NotACursor

  lemma FilterOneMore(rest: seq<Record>, to: nat)
    requires to < |rest|
    ensures Filter(rest[..to + 1], IsPending)
            == Filter(rest[..to], IsPending) + if IsPending(rest[to]) then [rest[to]] else []
  {
    assert rest[..to + 1][..to] == rest[..to];
  }

  /**
   * The pending ones among the first `count` records, and the last of them when
   * the page is full.
   */
  ghost predicate Collected(rest: seq<Record>, count: nat, limit: nat, items: seq<Record>, last: Option<Record>) {
    && count <= |rest|
    && items == Filter(rest[..count], IsPending)
    && (last.None? ==> |items| < limit)
    && (last.Some? ==> |items| == limit && count > 0 && last.value == rest[count - 1] && IsPending(last.value))
  }

  /** Push the pending records of one store page, up to the limit. */
  method CollectFrom(page: seq<Record>, limit: nat, before: seq<Record>, ghost rest: seq<Record>, ghost from: nat)
    returns (items: seq<Record>, last: Option<Record>, ghost count: nat)
    requires Collected(rest, from, limit, before, None)
    requires from + |page| <= |rest| && page == rest[from..from + |page|]
    ensures Collected(rest, count, limit, items, last)
    ensures last.None? ==> count == from + |page|
  {
    items, count := before, from;
    for i := 0 to |page|
      invariant count == from + i
      invariant Collected(rest, count, limit, items, None)
    {
      assert page[i] == rest[count];
      FilterOneMore(rest, count);
      count := count + 1;
      if IsPending(page[i]) {
        items := items + [page[i]];
        if |items| == limit {
          return items, Some(page[i]), count;
        }
      }
    }
    return items, None, count;
  }

  /** The first pending records behind a cursor, up to the limit. */
  function FirstPending(records: seq<Record>, ready: bool, after: Option<Cursor>, limit: nat): seq<Record> {
    var pending := Filter(Matching(records, ready, after), IsPending);
    if |pending| <= limit then pending else pending[..limit]
  }

  lemma StorePage(records: seq<Record>, ready: bool, after: Option<Cursor>, limit: nat, rest: seq<Record>, count: nat)
    requires count <= |rest| && Matching(records, ready, after) == rest[count..]
    ensures var page := ListReceiveWork(records, ready, after, limit);
            && count + |page| <= |rest| && page == rest[count..count + |page|]
            && (|page| < limit ==> count + |page| == |rest|) && |page| <= limit
  {
  }

  lemma NextCursor(records: seq<Record>, ready: bool, after: Option<Cursor>, page: seq<Record>, from: nat)
    requires Listed(records) && page != [] && from + |page| <= |Matching(records, ready, after)|
    requires page == Matching(records, ready, after)[from..from + |page|]
    ensures Matching(records, ready, Some(CursorOf(page[|page| - 1])))
            == Matching(records, ready, after)[from + |page|..]
  {
    MatchingContinues(records, ready, after, from + |page| - 1);
  }

  /** Read store pages behind a cursor until the page is full or the listing ends. */
  method CollectPage(records: seq<Record>, ready: bool, after: Option<Cursor>, limit: nat)
    returns (items: seq<Record>, last: Option<Record>, ghost count: nat)
    requires Listed(records) && limit > 0
    ensures Collected(Matching(records, ready, after), count, limit, items, last)
    ensures last.None? ==> count == |Matching(records, ready, after)|
    ensures items == FirstPending(records, ready, after, limit)
  {
    ghost var rest := Matching(records, ready, after);
    var cursor := after;
    items, last, count := [], None, 0;
    while true
      invariant Collected(rest, count, limit, items, None)
      invariant Matching(records, ready, cursor) == rest[count..]
      decreases |rest| - count
    {
      var page := ListReceiveWork(records, ready, cursor, limit);
      StorePage(records, ready, cursor, limit, rest, count);
      ghost var from := count;
      items, last, count := CollectFrom(page, limit, items, rest, from);
      if last.Some? || |page| < limit {
        PendingSplits(rest, count);
        return;
      }
      cursor := Some(CursorOf(page[|page| - 1]));
      NextCursor(records, ready, after, page, from);
    }
  }

  function AfterOf(after: Option<string>): Option<Cursor> {
    if after.Some? then ParseCursor(after.value) else None
  }

  /** The page holds the first pending records behind the cursor, which are those of `count` found records. */
  ghost predicate IsPage(
      records: seq<Record>, ready: bool, cursor: Option<Cursor>, limit: nat, page: Page, count: nat)
  {
    var rest := Matching(records, ready, cursor);
    && page.items == FirstPending(records, ready, cursor, limit)
    && count <= |rest|
    && page.items == Filter(rest[..count], IsPending)
    && (page.next.Some? <==> |page.items| == limit)
    && (page.next.None? ==> count == |rest|)
    && (page.next.Some? ==>
          && count > 0 && IsPending(rest[count - 1])
          && page.next.value == PrintCursor(CursorOf(rest[count - 1])))
  }

  /**
   * One page: the first pending records behind the cursor, up to the limit. It
   * has a next cursor, that of its last record, exactly when it is full, and
   * else it ends the listing.
   */
  method ListPendingReceives(records: seq<Record>, ready: bool, after: Option<string>, limit: int)
    returns (result: Result<Page, Error>, ghost count: nat)
    requires Listed(records)
    ensures result == Err(LimitNotPositive) <==> limit < 1
    ensures result == Err(NotACursor) <==> limit >= 1 && after.Some? && ParseCursor(after.value).None?
    ensures result.Ok? <==> limit >= 1 && (after.None? || ParseCursor(after.value).Some?)
    ensures result.Ok? ==> IsPage(records, ready, AfterOf(after), limit, result.value, count)
  {
    if limit < 1 {
      return Err(LimitNotPositive), 0;
    }
    var cursor: Option<Cursor> := None;
    if after.Some? {
      cursor := ParseCursor(after.value);
      if cursor.None? {
        return Err(NotACursor), 0;
      }
    }
    var items, last;
    items, last, count := CollectPage(records, ready, cursor, limit);
    if last.Some? {
      return Ok(Page(items, Some(PrintCursor(CursorOf(last.value))))), count;
    }
    return Ok(Page(items, None)), count;
  }

  lemma FoundIsRecord(records: seq<Record>, ready: bool, after: Option<Cursor>, k: nat)
    requires k < |Matching(records, ready, after)|
    ensures Matching(records, ready, after)[k] in records
  {
    FilterMembers(records, r => Matches(r, ready, after));
    assert Matching(records, ready, after)[k] in Matching(records, ready, after);
  }

  lemma PendingSplits(rest: seq<Record>, count: nat)
    requires count <= |rest|
    ensures Filter(rest, IsPending) == Filter(rest[..count], IsPending) + Filter(rest[count..], IsPending)
  {
    assert rest == rest[..count] + rest[count..];
    FilterAppend(rest[..count], rest[count..], IsPending);
  }

  /** The cursor that an application holds: none, or the printed cursor of a record that it got. */
  ghost predicate Follows(next: Option<string>, cursor: Option<Cursor>) {
    if next.Some? then cursor.Some? && Accepted(cursor.value) && next.value == PrintCursor(cursor.value)
    else cursor.None?
  }

  /**
   * One page of an application that follows `next`: its items and what is left
   * behind them. A cursor with a negative arrival number is refused.
   */
  method FollowOne(records: seq<Record>, ready: bool, limit: int, next: Option<string>, ghost cursor: Option<Cursor>)
    returns (result: Result<Page, Error>, ghost cursor': Option<Cursor>)
    requires Listed(records) && limit >= 1
    requires forall r :: r in records ==> Accepted(CursorOf(r))
    requires Follows(next, cursor)
    ensures result.Ok? <==> cursor.None? || cursor.value.arrivalSeq >= 0
    ensures result.Err? ==> result.error == NotACursor
    ensures result.Ok? ==>
              && Follows(result.value.next, cursor')
              && (result.value.next.None? ==>
                    && result.value.items == Filter(Matching(records, ready, cursor), IsPending)
                    && |result.value.items| < limit)
              && (result.value.next.Some? ==>
                    && |result.value.items| == limit
                    && CursorOf(result.value.items[limit - 1]) == cursor'.value
                    && |Matching(records, ready, cursor')| < |Matching(records, ready, cursor)|
                    && result.value.items + Filter(Matching(records, ready, cursor'), IsPending)
                       == Filter(Matching(records, ready, cursor), IsPending))
  {
    ghost var rest := Matching(records, ready, cursor);
    if cursor.Some? {
      CursorParsesBackIff(cursor.value);
    }
    ghost var count;
    result, count := ListPendingReceives(records, ready, next, limit);
    cursor' := None;
    if result.Ok? {
      PendingSplits(rest, count);
      if result.value.next.Some? {
        cursor' := Some(CursorOf(rest[count - 1]));
        FoundIsRecord(records, ready, cursor, count - 1);
        MatchingContinues(records, ready, cursor, count - 1);
        LastOfPage(rest, count, limit);
      } else {
        assert rest[count..] == [];
      }
    }
  }

  /** What an application has after some pages, and what is left behind its cursor. */
  ghost predicate Followed(
      records: seq<Record>, ready: bool, limit: nat, all: seq<Record>, cursor: Option<Cursor>)
  {
    && all + Filter(Matching(records, ready, cursor), IsPending) == AllPending(records, ready)
    && (cursor.None? ==> all == [])
    && (cursor.Some? ==> |all| >= limit > 0 && CursorOf(all[|all| - 1]) == cursor.value)
    && (|all| > limit > 0 ==> all[limit - 1].arrivalSeq >= 0)
  }

  /** The last record of the first page has a negative arrival number. */
  predicate EndsNegative(all: seq<Record>, limit: nat) {
    |all| >= limit > 0 && all[limit - 1].arrivalSeq < 0
  }

  /** A refused cursor is that of the first page. */
  lemma RefusedIsNegative(records: seq<Record>, ready: bool, limit: nat, all: seq<Record>, cursor: Option<Cursor>)
    requires Listed(records) && Followed(records, ready, limit, all, cursor) && cursor.Some?
    ensures EndsNegative(AllPending(records, ready), limit) <==> cursor.value.arrivalSeq < 0
    ensures all[limit - 1].arrivalSeq >= 0 <==> cursor.value.arrivalSeq >= 0
  {
    PendingIsListed(records, ready);
    LaterArrivals(all, Filter(Matching(records, ready, cursor), IsPending), AllPending(records, ready), limit);
  }

  /** The page that ends the listing gives the rest. */
  lemma LastPage(records: seq<Record>, ready: bool, limit: nat, all: seq<Record>, cursor: Option<Cursor>)
    requires Listed(records) && Followed(records, ready, limit, all, cursor) && limit > 0
    requires cursor.None? || cursor.value.arrivalSeq >= 0
    requires |Filter(Matching(records, ready, cursor), IsPending)| < limit
    ensures !EndsNegative(AllPending(records, ready), limit)
  {
    if cursor.Some? {
      RefusedIsNegative(records, ready, limit, all, cursor);
    }
  }

  /** A full page keeps what is known. */
  lemma FullPage(
      records: seq<Record>, ready: bool, limit: nat, all: seq<Record>, cursor: Option<Cursor>,
      items: seq<Record>, next: Option<Cursor>)
    requires Listed(records) && Followed(records, ready, limit, all, cursor) && limit > 0
    requires cursor.None? || cursor.value.arrivalSeq >= 0
    requires |items| == limit && next == Some(CursorOf(items[limit - 1]))
    requires items + Filter(Matching(records, ready, next), IsPending)
             == Filter(Matching(records, ready, cursor), IsPending)
    ensures Followed(records, ready, limit, all + items, next)
  {
    ConcatIsAssociative(all, items, Filter(Matching(records, ready, next), IsPending));
    if cursor.Some? {
      RefusedIsNegative(records, ready, limit, all, cursor);
      assert (all + items)[limit - 1] == all[limit - 1];
    }
  }

  /**
   * An application that follows `next` from the first page to the end, over a
   * store that does not change, gets every pending record exactly once and in
   * order, for every limit from 1 and every pattern of skipped records, if and
   * only if the first page is not full or does not end with a record whose arrival
   * number is negative. Its second page is refused otherwise.
   */
  method FollowAllPages(records: seq<Record>, ready: bool, limit: int) returns (result: Result<seq<Record>, Error>)
    requires Listed(records)
    requires forall r :: r in records ==> Accepted(CursorOf(r))
    ensures result == Err(LimitNotPositive) <==> limit < 1
    ensures limit >= 1 ==>
              var all := AllPending(records, ready);
              if EndsNegative(all, limit) then result == Err(NotACursor)
              else result == Ok(all) && Unique(all) && Listed(all)
  {
    if limit < 1 {
      return Err(LimitNotPositive);
    }
    ghost var cursor: Option<Cursor> := None;
    var next, all := None, [];
    PendingIsListed(records, ready);
    while true
      invariant Follows(next, cursor) && Followed(records, ready, limit, all, cursor)
      decreases |Matching(records, ready, cursor)|
    {
      ghost var was := cursor;
      var page;
      page, cursor := FollowOne(records, ready, limit, next, cursor);
      if page.Err? {
        RefusedIsNegative(records, ready, limit, all, was);
        return Err(NotACursor);
      }
      next := page.value.next;
      if next.None? {
        LastPage(records, ready, limit, all, was);
        return Ok(all + page.value.items);
      }
      FullPage(records, ready, limit, all, was, page.value.items, cursor);
      all := all + page.value.items;
    }
  }

  /** Arrival numbers do not fall along the listing. */
  lemma LaterArrivals(front: seq<Record>, rest: seq<Record>, all: seq<Record>, limit: nat)
    requires Listed(all) && front + rest == all && 1 <= limit <= |front|
    ensures all[limit - 1] == front[limit - 1]
    ensures front[limit - 1].arrivalSeq <= front[|front| - 1].arrivalSeq
  {
    assert all[limit - 1] == front[limit - 1] && all[|front| - 1] == front[|front| - 1];
  }

  lemma LastOfPage(rest: seq<Record>, count: nat, limit: nat)
    requires 0 < count <= |rest| && limit > 0 && IsPending(rest[count - 1])
    requires |Filter(rest[..count], IsPending)| == limit
    ensures Filter(rest[..count], IsPending)[limit - 1] == rest[count - 1]
  {
    FilterOneMore(rest, count - 1);
  }

  lemma PendingIsListed(records: seq<Record>, ready: bool)
    requires Listed(records)
    ensures Listed(AllPending(records, ready)) && Unique(AllPending(records, ready))
  {
    FilterListed(records, r => Matches(r, ready, None));
    FilterListed(Listing(records, ready), IsPending);
    var all := AllPending(records, ready);
    forall i, j | 0 <= i < j < |all| ensures all[i] != all[j] {
      NothingIsBeforeItself(all[i].workId);
    }
  }
}
