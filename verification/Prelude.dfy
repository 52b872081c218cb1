/** Values that can be absent, and results that can be errors. */
module Options {

  datatype Result<+T, +E> = Ok(value: T) | Err(error: E)

  datatype Option<+T> = None | Some(value: T) {

    function GetOr(default: T): T {
      match this
      case Some(v) => v
      case None => default
    }
  }
}

/** Sequences with unique elements, and the filter that keeps their order. */
module Sequences {

  ghost predicate Unique<T>(s: seq<T>) {
    forall i, j :: 0 <= i < j < |s| ==> s[i] != s[j]
  }

  function Elements<T(==)>(s: seq<T>): set<T> {
    set x | x in s
  }

  function Filter<T>(s: seq<T>, keep: T -> bool): seq<T> {
    if s == [] then []
    else
      var front := Filter(s[..|s| - 1], keep);
      if keep(s[|s| - 1]) then front + [s[|s| - 1]] else front
  }

  lemma {:induction false} FilterMembers<T>(s: seq<T>, keep: T -> bool)
    ensures forall x :: x in Filter(s, keep) <==> x in s && keep(x)
  {
    if s != [] {
      FilterMembers(s[..|s| - 1], keep);
      assert s == s[..|s| - 1] + [s[|s| - 1]];
    }
  }

  lemma {:induction false} FilterUnique<T>(s: seq<T>, keep: T -> bool)
    requires Unique(s)
    ensures Unique(Filter(s, keep))
  {
    if s != [] {
      FilterUnique(s[..|s| - 1], keep);
      FilterMembers(s[..|s| - 1], keep);
    }
  }

  lemma {:induction false} FilterAppend<T>(s: seq<T>, t: seq<T>, keep: T -> bool)
    ensures Filter(s + t, keep) == Filter(s, keep) + Filter(t, keep)
  {
    if t == [] {
      assert s + t == s;
    } else {
      var front := t[..|t| - 1];
      assert (s + t)[..|s + t| - 1] == s + front;
      FilterAppend(s, front, keep);
    }
  }

  /** A filter that keeps every element changes nothing. */
  lemma {:induction false} FilterAll<T>(s: seq<T>, keep: T -> bool)
    requires forall x :: x in s ==> keep(x)
    ensures Filter(s, keep) == s
  {
    if s != [] {
      assert forall x :: x in s[..|s| - 1] ==> x in s;
      FilterAll(s[..|s| - 1], keep);
      assert s[|s| - 1] in s;
    }
  }

  lemma {:induction false} FilterNone<T>(s: seq<T>, keep: T -> bool)
    requires forall x :: x in s ==> !keep(x)
    ensures Filter(s, keep) == []
  {
    if s != [] {
      assert forall x :: x in s[..|s| - 1] ==> x in s;
      FilterNone(s[..|s| - 1], keep);
      assert s[|s| - 1] in s;
    }
  }

  lemma {:induction false} SameFilter<T>(s: seq<T>, one: T -> bool, other: T -> bool)
    requires forall x :: x in s ==> one(x) == other(x)
    ensures Filter(s, one) == Filter(s, other)
  {
    if s != [] {
      assert forall x :: x in s[..|s| - 1] ==> x in s;
      assert s[|s| - 1] in s;
      SameFilter(s[..|s| - 1], one, other);
    }
  }

  lemma {:induction false} FilterTwice<T>(s: seq<T>, first: T -> bool, second: T -> bool, both: T -> bool)
    requires forall x :: both(x) <==> first(x) && second(x)
    ensures Filter(Filter(s, first), second) == Filter(s, both)
  {
    if s != [] {
      var front, last := s[..|s| - 1], s[|s| - 1];
      FilterTwice(front, first, second, both);
      if first(last) {
        assert Filter(s, first)[..|Filter(s, first)| - 1] == Filter(front, first);
      }
    }
  }

  lemma PrefixGrows<T>(s: seq<T>, i: nat)
    requires i < |s|
    ensures s[..i + 1] == s[..i] + [s[i]]
  {
  }

  lemma FirstIsInside<T>(s: seq<T>)
    ensures s == [] || s[0] in s
  {
  }

  lemma ConcatIsAssociative<T>(a: seq<T>, b: seq<T>, c: seq<T>)
    ensures (a + b) + c == a + (b + c)
  {
  }

  lemma UniqueCons<T>(first: T, rest: seq<T>)
    requires Unique(rest) && first !in rest
    ensures Unique([first] + rest)
  {
  }

  /** A sequence of unique elements has as many elements as its set. */
  lemma {:induction false} UniqueSize<T>(s: seq<T>, elements: set<T>)
    requires Unique(s)
    requires forall x :: x in s <==> x in elements
    ensures |s| == |elements|
  {
    if s == [] {
      assert elements == {};
    } else {
      var last := s[|s| - 1];
      var front := s[..|s| - 1];
      assert s == front + [last];
      assert last !in front;
      UniqueSize(front, elements - {last});
    }
  }
}

/** JavaScript objects and maps as entries in insertion order. */
module Associations {
  import opened Options

  datatype Entry<K, V> = Entry(key: K, value: V)

  ghost predicate UniqueKeys<K, V>(entries: seq<Entry<K, V>>) {
    forall i, j :: 0 <= i < j < |entries| ==> entries[i].key != entries[j].key
  }

  function Find<K(==), V>(entries: seq<Entry<K, V>>, key: K): (value: Option<V>)
    ensures value.Some? ==> exists i :: 0 <= i < |entries| && entries[i] == Entry(key, value.value)
    ensures value.None? ==> forall i :: 0 <= i < |entries| ==> entries[i].key != key
  {
    if entries == [] then None
    else if entries[0].key == key then Some(entries[0].value)
    else
      var rest := entries[1..];
      assert forall i :: 1 <= i < |entries| ==> entries[i] == rest[i - 1];
      Find(rest, key)
  }

  /** Setting a key. A key that is present keeps its place, and a new key comes last. */
  function Put<K(==), V>(entries: seq<Entry<K, V>>, key: K, value: V): seq<Entry<K, V>> {
    if entries == [] then [Entry(key, value)]
    else if entries[0].key == key then [Entry(key, value)] + entries[1..]
    else [entries[0]] + Put(entries[1..], key, value)
  }

  lemma {:induction false} FindPut<K, V>(entries: seq<Entry<K, V>>, key: K, value: V, other: K)
    ensures Find(Put(entries, key, value), other) == if other == key then Some(value) else Find(entries, other)
  {
    if entries == [] {
      assert Put(entries, key, value)[1..] == [];
    } else if entries[0].key == key {
      assert Put(entries, key, value)[1..] == entries[1..];
    } else {
      FindPut(entries[1..], key, value, other);
      assert Put(entries, key, value)[1..] == Put(entries[1..], key, value);
    }
  }

  lemma {:induction false} PutKeys<K, V>(entries: seq<Entry<K, V>>, key: K, value: V)
    ensures |Put(entries, key, value)| >= |entries|
    ensures forall i :: 0 <= i < |entries| ==> Put(entries, key, value)[i].key == entries[i].key
    ensures forall i :: 0 <= i < |Put(entries, key, value)| ==>
              || Put(entries, key, value)[i] == Entry(key, value)
              || (i < |entries| && Put(entries, key, value)[i] == entries[i])
    ensures |Put(entries, key, value)| == if Find(entries, key).Some? then |entries| else |entries| + 1
  {
    if entries != [] && entries[0].key != key {
      PutKeys(entries[1..], key, value);
    }
  }

  lemma PutUnique<K, V>(entries: seq<Entry<K, V>>, key: K, value: V)
    requires UniqueKeys(entries)
    ensures UniqueKeys(Put(entries, key, value))
  {
    PutKeys(entries, key, value);
  }

  lemma {:induction false} FindAt<K, V>(entries: seq<Entry<K, V>>, i: nat)
    requires UniqueKeys(entries) && i < |entries|
    ensures Find(entries, entries[i].key) == Some(entries[i].value)
  {
    if i > 0 {
      var rest := entries[1..];
      assert entries[i] == rest[i - 1] && entries[0].key != entries[i].key;
      assert UniqueKeys(rest);
      FindAt(rest, i - 1);
    }
  }
}

/** The decimal text of a natural number. */
module Decimal {

  const MAX_SAFE_INTEGER := 0x1F_FFFF_FFFF_FFFF

  predicate IsDigit(c: char) {
    '0' <= c <= '9'
  }

  predicate AllDigits(s: string) {
    forall i :: 0 <= i < |s| ==> IsDigit(s[i])
  }

  function Print(n: nat): (s: string)
    ensures s != [] && AllDigits(s)
  {
    var digit := '0' + (n % 10) as char;
    if n < 10 then [digit] else Print(n / 10) + [digit]
  }

  function Value(s: string): nat
    requires AllDigits(s)
  {
    if s == [] then 0
    else Value(s[..|s| - 1]) * 10 + (s[|s| - 1] - '0') as nat
  }

  lemma {:induction false} ValueOfPrint(n: nat)
    ensures Value(Print(n)) == n
  {
    if n >= 10 {
      ValueOfPrint(n / 10);
      assert Print(n)[..|Print(n)| - 1] == Print(n / 10);
    }
  }

  lemma PrintInjective(m: nat, n: nat)
    requires Print(m) == Print(n)
    ensures m == n
  {
    ValueOfPrint(m);
    ValueOfPrint(n);
  }

  /** The decimal text of an integer. */
  function PrintInt(n: int): string {
    if n < 0 then "-" + Print(-n) else Print(n)
  }

  lemma SignOfPrint(n: int)
    ensures PrintInt(n)[0] == '-' <==> n < 0
  {
    if n >= 0 {
      assert IsDigit(Print(n)[0]);
    }
  }

  lemma PrintIntInjective(m: int, n: int)
    requires PrintInt(m) == PrintInt(n)
    ensures m == n
  {
    SignOfPrint(m);
    SignOfPrint(n);
    if m < 0 && n < 0 {
      assert PrintInt(m)[1..] == Print(-m) && PrintInt(n)[1..] == Print(-n);
      PrintInjective(-m, -n);
    } else if m >= 0 && n >= 0 {
      PrintInjective(m, n);
    }
  }
}
