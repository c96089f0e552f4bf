/**
 * The key under which a paywall configuration's data is cached: setConfig and getCacheKey
 * of paywall/src/data-iframe/Mailbox.ts, with paywall/src/utils/normalizeAddresses.ts.
 */
module CacheKey {
  import opened Prelude

  /** An object indexed by address, in the order in which its properties were added. */
  type Entries<V> = seq<(string, V)>

  function Keys<V>(entries: Entries<V>): (r: seq<string>)
    ensures |r| == |entries| && forall i :: 0 <= i < |r| ==> r[i] == entries[i].0
  {
    seq(|entries|, i requires 0 <= i < |entries| => entries[i].0)
  }

  ghost predicate NoRepeats(s: seq<string>) {
    forall i, j :: 0 <= i < j < |s| ==> s[i] != s[j]
  }

  /** The properties of an object have different names. */
  ghost predicate IsObject<V>(entries: Entries<V>) {
    NoRepeats(Keys(entries))
  }

  /** Assigning a property: in place if it exists, at the end otherwise. */
  function Assign<V>(entries: Entries<V>, key: string, value: V): (r: Entries<V>)
    ensures forall k :: k in Keys(r) <==> k in Keys(entries) || k == key
  {
    if entries == [] then
      assert Keys([(key, value)])[0] == key;
      [(key, value)]
    else if entries[0].0 == key then
      assert Keys([(key, value)] + entries[1..])[0] == key;
      assert Keys([(key, value)] + entries[1..]) == Keys(entries);
      [(key, value)] + entries[1..]
    else
      var rest := Assign(entries[1..], key, value);
      assert Keys([entries[0]] + rest) == [entries[0].0] + Keys(rest);
      assert Keys(entries) == [entries[0].0] + Keys(entries[1..]);
      [entries[0]] + rest
  }

  lemma {:induction false} AssignStaysObject<V>(entries: Entries<V>, key: string, value: V)
    requires IsObject(entries)
    ensures IsObject(Assign(entries, key, value))
  {
    if entries != [] && entries[0].0 != key {
      var rest := Assign(entries[1..], key, value);
      assert Keys(entries[1..]) == Keys(entries)[1..];
      AssignStaysObject(entries[1..], key, value);
      var r := [entries[0]] + rest;
      assert Keys(r) == [entries[0].0] + Keys(rest);
      forall j | 0 <= j < |Keys(rest)|
        ensures Keys(rest)[j] != entries[0].0
      {
        assert Keys(rest)[j] in Keys(rest);
      }
    } else if entries != [] {
      assert Keys(Assign(entries, key, value)) == Keys(entries);
    }
  }

  lemma KeysOfMore<V>(entry: (string, V), rest: Entries<V>)
    ensures Keys([entry] + rest) == [entry.0] + Keys(rest)
  {
  }

  /** Properties stay in the order in which they were added. */
  lemma {:induction false} AssignKeepsOrder<V>(entries: Entries<V>, key: string, value: V)
    ensures Keys(Assign(entries, key, value)) == if key in Keys(entries) then Keys(entries) else Keys(entries) + [key]
  {
    hide Keys;
    if entries == [] {
      KeysOfMore((key, value), entries);
      assert [(key, value)] + entries == [(key, value)];
    } else {
      var rest := entries[1..];
      assert entries == [entries[0]] + rest;
      KeysOfMore(entries[0], rest);
      AssignKeepsOrder(rest, key, value);
      KeysOfMore(entries[0], Assign(rest, key, value));
      KeysOfMore((key, value), rest);
    }
  }

  /** The value under a key. */
  function Lookup<V>(entries: Entries<V>, key: string): Option<V> {
    if entries == [] then None else if entries[0].0 == key then Some(entries[0].1) else Lookup(entries[1..], key)
  }

  lemma {:induction false} LookupAssigned<V>(entries: Entries<V>, key: string, value: V, k: string)
    ensures Lookup(Assign(entries, key, value), k) == if k == key then Some(value) else Lookup(entries, k)
  {
    if entries != [] && entries[0].0 != key {
      LookupAssigned(entries[1..], key, value, k);
    }
  }

  // ---------------------------------------------------------------- normalising the keys

  /** The addresses of an object, case-folded. */
  ghost function Folded<V>(entries: Entries<V>): set<string> {
    set k | k in Keys(entries) :: Lower(k)
  }

  /** The value of the last property whose name folds to key. */
  function LastFolded<V>(entries: Entries<V>, key: string): Option<V> {
    if entries == [] then None
    else
      var last := |entries| - 1;
      if Lower(entries[last].0) == key then Some(entries[last].1) else LastFolded(entries[..last], key)
  }

  /** The object with every key case-folded. */
  function Normalized<V>(entries: Entries<V>): Entries<V> {
    if entries == [] then []
    else
      var last := |entries| - 1;
      Assign(Normalized(entries[..last]), Lower(entries[last].0), entries[last].1)
  }

  /** The accumulating loop of normalizeAddressKeys. */
  method NormalizeAddressKeys<V>(original: Entries<V>) returns (newObject: Entries<V>)
    ensures newObject == Normalized(original)
  {
    newObject := [];
    var i := 0;
    while i < |original|
      invariant 0 <= i <= |original|
      invariant newObject == Normalized(original[..i])
    {
      assert original[..i + 1][..i] == original[..i];
      newObject := Assign(newObject, Lower(original[i].0), original[i].1);
      i := i + 1;
    }
    assert original[..i] == original;
  }

  /** The keys of the normal form are the folded keys, each once; the last value of a key wins. */
  lemma {:induction false} NormalizedIs<V>(entries: Entries<V>)
    ensures IsObject(Normalized(entries))
    ensures (set k | k in Keys(Normalized(entries))) == Folded(entries)
    ensures forall k :: Lookup(Normalized(entries), k) == LastFolded(entries, k)
  {
    if entries != [] {
      var last := |entries| - 1;
      var before, key, value := entries[..last], Lower(entries[last].0), entries[last].1;
      NormalizedIs(before);
      AssignStaysObject(Normalized(before), key, value);
      forall k
        ensures Lookup(Normalized(entries), k) == LastFolded(entries, k)
      {
        LookupAssigned(Normalized(before), key, value, k);
      }
      assert Keys(entries) == Keys(before) + [entries[last].0];
      var keys := set k | k in Keys(Normalized(entries));
      forall k
        ensures k in keys <==> k in Folded(entries)
      {
        assert k in Keys(Normalized(before)) <==> k in Folded(before);
        assert k == key ==> entries[last].0 in Keys(entries);
      }
    }
  }

  // ---------------------------------------------------------------- sorting

  /** The default order of JavaScript's sort on strings: by character codes. */
  predicate Less(a: string, b: string) {
    b != [] && (a == [] || a[0] < b[0] || (a[0] == b[0] && Less(a[1..], b[1..])))
  }

  lemma {:induction false} LessIsStrict(a: string)
    ensures !Less(a, a)
  {
    if a != [] {
      LessIsStrict(a[1..]);
    }
  }

  lemma {:induction false} LessIsTotal(a: string, b: string)
    ensures Less(a, b) || a == b || Less(b, a)
  {
    if a != [] && b != [] && a[0] == b[0] {
      LessIsTotal(a[1..], b[1..]);
      assert a == [a[0]] + a[1..] && b == [b[0]] + b[1..];
    }
  }

  lemma {:induction false} LessIsTransitive(a: string, b: string, c: string)
    requires Less(a, b) && Less(b, c)
    ensures Less(a, c)
  {
    if a != [] && a[0] == b[0] && b[0] == c[0] {
      LessIsTransitive(a[1..], b[1..], c[1..]);
    }
  }

  /** The strings differ first at index i, and a is the smaller there. */
  predicate SmallerAt(a: string, b: string, i: nat) {
    i < |a| && i < |b| && a[..i] == b[..i] && a[i] < b[i]
  }

  lemma SmallerAtMoves(a: string, b: string, i: nat)
    requires a != [] && b != []
    ensures SmallerAt(a, b, i + 1) <==> a[0] == b[0] && SmallerAt(a[1..], b[1..], i)
  {
    if i + 1 <= |a| && i + 1 <= |b| {
      assert a[..i + 1] == [a[0]] + a[1..][..i] && b[..i + 1] == [b[0]] + b[1..][..i];
      assert a[..i + 1] == b[..i + 1] ==> a[..i + 1][0] == b[..i + 1][0] && a[..i + 1][1..] == b[..i + 1][1..];
    }
  }

  /** One string comes before the other if it is a proper prefix, or smaller where they first differ. */
  lemma {:induction false} LessIsLexicographic(a: string, b: string)
    ensures Less(a, b) <==> a < b || exists i: nat :: SmallerAt(a, b, i)
  {
    hide SmallerAt;
    if a == [] || b == [] {
      NothingIsSmaller(a, b);
    } else {
      LessIsLexicographic(a[1..], b[1..]);
      SmallerAtStart(a, b);
      assert a[0] == b[0] ==> (a < b <==> a[1..] < b[1..]);
      if i: nat :| SmallerAt(a, b, i) {
        if i > 0 {
          SmallerAtMoves(a, b, i - 1);
        }
      }
      if i: nat :| SmallerAt(a[1..], b[1..], i) {
        SmallerAtMoves(a, b, i);
      }
    }
  }

  lemma NothingIsSmaller(a: string, b: string)
    requires a == [] || b == []
    ensures !exists i: nat :: SmallerAt(a, b, i)
  {
  }

  lemma SmallerAtStart(a: string, b: string)
    requires a != [] && b != []
    ensures SmallerAt(a, b, 0) <==> a[0] < b[0]
  {
    assert a[..0] == b[..0];
  }

  ghost predicate Ascending(s: seq<string>) {
    forall i, j :: 0 <= i < j < |s| ==> Less(s[i], s[j])
  }

  function Insert(s: seq<string>, x: string): seq<string> {
    if s == [] || !Less(s[0], x) then [x] + s else [s[0]] + Insert(s[1..], x)
  }

  function Sort(s: seq<string>): seq<string> {
    if s == [] then [] else Insert(Sort(s[1..]), s[0])
  }

  lemma {:induction false} InsertAscending(s: seq<string>, x: string)
    requires Ascending(s) && x !in s
    ensures Ascending(Insert(s, x))
    ensures forall y :: y in Insert(s, x) <==> y in s || y == x
  {
    if s != [] && Less(s[0], x) {
      assert s == [s[0]] + s[1..];
      InsertAscending(s[1..], x);
      var r := Insert(s[1..], x);
      forall j | 0 <= j < |r|
        ensures Less(s[0], r[j])
      {
        assert r[j] in r;
      }
    } else if s != [] {
      LessIsTotal(s[0], x);
      forall j | 0 <= j < |s|
        ensures Less(x, s[j])
      {
        if j > 0 {
          LessIsTransitive(x, s[0], s[j]);
        }
      }
    }
  }

  /** Sorting different names gives the same names in strictly ascending order. */
  lemma {:induction false} SortAscending(s: seq<string>)
    requires NoRepeats(s)
    ensures Ascending(Sort(s))
    ensures forall y :: y in Sort(s) <==> y in s
  {
    if s != [] {
      SortAscending(s[1..]);
      assert s == [s[0]] + s[1..];
      assert forall j :: 0 <= j < |s[1..]| ==> s[1..][j] == s[j + 1];
      InsertAscending(Sort(s[1..]), s[0]);
    }
  }

  /** There is only one ascending sequence of given names, whichever way it was sorted. */
  lemma {:induction false} AscendingIsUnique(a: seq<string>, b: seq<string>)
    requires Ascending(a) && Ascending(b)
    requires forall y :: y in a <==> y in b
    ensures a == b
  {
    assert (a != [] ==> a[0] in a) && (b != [] ==> b[0] in b);
    if a != [] && b != [] {
      assert a[0] in b && b[0] in a;
      SameHead(a, b);
      assert a == [a[0]] + a[1..] && b == [b[0]] + b[1..];
      LessIsStrict(a[0]);
      forall y
        ensures y in a[1..] <==> y in b[1..]
      {
        assert y in a[1..] ==> y in a && y != a[0];
        assert y in b[1..] ==> y in b && y != b[0];
      }
      AscendingIsUnique(a[1..], b[1..]);
    }
  }

  lemma SameHead(a: seq<string>, b: seq<string>)
    requires Ascending(a) && Ascending(b) && a != [] && b != [] && a[0] in b && b[0] in a
    ensures a[0] == b[0]
  {
    var i :| 0 <= i < |b| && b[i] == a[0];
    var j :| 0 <= j < |a| && a[j] == b[0];
    if i > 0 && j > 0 {
      LessIsTransitive(a[0], b[0], a[0]);
      LessIsStrict(a[0]);
    }
  }

  // ---------------------------------------------------------------- the key

  predicate HexDigit(c: char) {
    '0' <= c <= '9' || 'a' <= c <= 'f' || 'A' <= c <= 'F'
  }

  /** What the account pattern matches; JSON escapes none of these characters. */
  predicate IsAddress(s: string) {
    |s| == 42 && s[0] == '0' && s[1] == 'x' && forall i :: 2 <= i < 42 ==> HexDigit(s[i])
  }

  lemma FoldedAddress(s: string)
    requires IsAddress(s)
    ensures IsAddress(Lower(s)) && Lower(Lower(s)) == Lower(s)
  {
    LowerIdempotent(s);
  }

  function Quote(s: string): string {
    "\"" + s + "\""
  }

  function Items(list: seq<string>): string {
    if list == [] then "" else if |list| == 1 then Quote(list[0]) else Quote(list[0]) + "," + Items(list[1..])
  }

  /** JSON.stringify on an array of addresses. */
  function Json(list: seq<string>): string {
    "[" + Items(list) + "]"
  }

  const PREFIX := "__unlockProtocol.cache"

  function KeyFor<V>(locks: Entries<V>): string {
    PREFIX + Lower(Json(Sort(Keys(locks))))
  }

  ghost predicate AllFolded(list: seq<string>) {
    forall i :: 0 <= i < |list| ==> IsAddress(list[i]) && Lower(list[i]) == list[i]
  }

  lemma LowerConcat(a: string, b: string)
    ensures Lower(a + b) == Lower(a) + Lower(b)
  {
  }

  /** Folding the serialised list changes nothing when its addresses are folded. */
  lemma {:induction false} ItemsAreFolded(list: seq<string>)
    requires AllFolded(list)
    ensures Lower(Items(list)) == Items(list)
  {
    if list != [] {
      LowerConcat("\"", list[0]);
      LowerConcat("\"" + list[0], "\"");
      if |list| > 1 {
        ItemsAreFolded(list[1..]);
        LowerConcat(Quote(list[0]), ",");
        LowerConcat(Quote(list[0]) + ",", Items(list[1..]));
      }
    }
  }

  /** Addresses have one width, so the serialised list determines the list. */
  lemma {:induction false} ItemsAreInjective(a: seq<string>, b: seq<string>)
    requires AllFolded(a) && AllFolded(b) && Items(a) == Items(b)
    ensures a == b
  {
    if a != [] && b != [] {
      assert Items(a)[1..43] == a[0];
      assert Items(b)[1..43] == b[0];
      if |a| > 1 && |b| > 1 {
        assert Items(a)[45..] == Items(a[1..]);
        assert Items(b)[45..] == Items(b[1..]);
        ItemsAreInjective(a[1..], b[1..]);
      } else {
        assert |a| > 1 ==> |Items(a)| > 44;
        assert |b| > 1 ==> |Items(b)| > 44;
      }
    } else {
      assert a != [] ==> |Items(a)| >= 44;
      assert b != [] ==> |Items(b)| >= 44;
    }
  }

  /** The lock part of a valid paywall configuration. */
  ghost predicate ValidLocks<V>(locks: Entries<V>) {
    locks != [] && IsObject(locks) && forall k :: k in Keys(locks) ==> IsAddress(k)
  }

  /** The sorted keys of a normalised configuration. */
  lemma SortedKeys<V>(locks: Entries<V>) returns (list: seq<string>)
    requires ValidLocks(locks)
    ensures list == Sort(Keys(Normalized(locks))) && Ascending(list) && AllFolded(list)
    ensures forall k :: k in list <==> k in Folded(locks)
    ensures KeyFor(Normalized(locks)) == PREFIX + Json(list)
  {
    NormalizedIs(locks);
    var keys := Keys(Normalized(locks));
    list := Sort(keys);
    SortAscending(keys);
    forall k
      ensures k in keys <==> k in Folded(locks)
    {
      assert k in keys <==> k in (set x | x in keys);
    }
    forall i | 0 <= i < |list|
      ensures IsAddress(list[i]) && Lower(list[i]) == list[i]
    {
      assert list[i] in list && list[i] in Folded(locks);
      var k :| k in Keys(locks) && Lower(k) == list[i];
      FoldedAddress(k);
    }
    ItemsAreFolded(list);
    LowerConcat("[", Items(list));
    LowerConcat("[" + Items(list), "]");
  }

  lemma Unwrap(prefix: string, a: string, b: string)
    requires prefix + a == prefix + b
    ensures a == b
  {
    assert (prefix + a)[|prefix|..] == a && (prefix + b)[|prefix|..] == b;
  }

  lemma UnwrapBrackets(a: string, b: string)
    requires "[" + a + "]" == "[" + b + "]"
    ensures a == b
  {
    assert ("[" + a + "]")[1..|a| + 1] == a && ("[" + b + "]")[1..|b| + 1] == b;
  }

  /** Each lock of the first configuration is one of the second, in whatever case. */
  ghost predicate NamedIn<V>(locks: Entries<V>, others: Entries<V>) {
    forall a :: a in Keys(locks) ==> exists b :: b in Keys(others) && SameButCase(a, b)
  }

  /** The two configurations name the same locks, in whatever case and order. */
  ghost predicate SameLocks<V>(locks: Entries<V>, others: Entries<V>) {
    NamedIn(locks, others) && NamedIn(others, locks)
  }

  lemma FoldedWithin<V>(locks: Entries<V>, others: Entries<V>)
    ensures Folded(locks) <= Folded(others) <==> NamedIn(locks, others)
  {
    hide Lower, SameButCase;
    forall a, b {
      LowerFoldsCase(a, b);
    }
    if Folded(locks) <= Folded(others) {
      forall a | a in Keys(locks)
        ensures exists b :: b in Keys(others) && SameButCase(a, b)
      {
        assert Lower(a) in Folded(others);
        var b :| b in Keys(others) && Lower(b) == Lower(a);
      }
    }
    if NamedIn(locks, others) {
      forall k | k in Folded(locks)
        ensures k in Folded(others)
      {
        var a :| a in Keys(locks) && Lower(a) == k;
        var b :| b in Keys(others) && SameButCase(a, b);
      }
    }
  }

  /**
   * Two valid configurations share a cache key if and only if they name the same locks but
   * for letter case, whatever the order in which the addresses are listed.
   */
  lemma SameKeyExactlyForSameLocks<V>(locks: Entries<V>, others: Entries<V>)
    requires ValidLocks(locks) && ValidLocks(others)
    ensures KeyFor(Normalized(locks)) == KeyFor(Normalized(others)) <==> SameLocks(locks, others)
  {
    FoldedWithin(locks, others);
    FoldedWithin(others, locks);
    var a := SortedKeys(locks);
    var b := SortedKeys(others);
    if Folded(locks) == Folded(others) {
      AscendingIsUnique(a, b);
    }
    if PREFIX + Json(a) == PREFIX + Json(b) {
      Unwrap(PREFIX, "[" + Items(a) + "]", "[" + Items(b) + "]");
      UnwrapBrackets(Items(a), Items(b));
      ItemsAreInjective(a, b);
    }
  }

  /** A quoted address stands at an index. */
  predicate ItemAt(items: string, at: nat, address: string) {
    at + 44 <= |items| && items[at] == '"' && items[at + 1..at + 43] == address && items[at + 43] == '"'
  }

  /** The items are the quoted addresses at a distance of 45 characters, with commas between them. */
  ghost predicate ReadAs(items: string, list: seq<string>) {
    && |items| == (if list == [] then 0 else 45 * |list| - 1)
    && (forall i :: 0 <= i < |list| ==> ItemAt(items, 45 * i, list[i]))
    && (forall i :: 0 < i < |list| ==> items[45 * i - 1] == ',')
  }

  lemma ItemMoves(first: string, rest: string, at: nat, address: string)
    requires |first| == 45 && ItemAt(rest, at, address)
    ensures ItemAt(first + rest, at + 45, address)
  {
    assert (first + rest)[at + 45 + 1..at + 45 + 43] == rest[at + 1..at + 43];
  }

  /** One more item in front of others. */
  lemma ItemsMove(x: string, rest: string, list: seq<string>)
    requires |x| == 42 && list != [] && ReadAs(rest, list)
    ensures ReadAs(Quote(x) + "," + rest, [x] + list)
  {
    hide ItemAt;
    var first := Quote(x) + ",";
    FirstItem(x, "," + rest);
    Regroup(Quote(x), ",", rest);
    forall i | 0 < i <= |list|
      ensures ItemAt(first + rest, 45 * i, ([x] + list)[i]) && (first + rest)[45 * i - 1] == ','
    {
      assert ItemAt(rest, 45 * (i - 1), list[i - 1]);
      ItemMoves(first, rest, 45 * (i - 1), list[i - 1]);
      assert i > 1 ==> (first + rest)[45 * i - 1] == rest[45 * (i - 1) - 1];
    }
  }

  lemma FirstItem(x: string, more: string)
    requires |x| == 42
    ensures ItemAt(Quote(x) + more, 0, x)
  {
    assert (Quote(x) + more)[1..43] == x;
  }

  lemma {:induction false} ItemsReadAs(list: seq<string>)
    requires AllFolded(list)
    ensures ReadAs(Items(list), list)
  {
    hide ItemAt;
    if list != [] {
      ItemsReadAs(list[1..]);
      FirstItem(list[0], "");
      assert Quote(list[0]) + "" == Quote(list[0]);
      if |list| > 1 {
        ItemsMove(list[0], Items(list[1..]), list[1..]);
        assert [list[0]] + list[1..] == list;
      }
    }
  }

  /** The key is the prefix and the JSON array of the folded addresses in ascending order. */
  lemma KeyReads<V>(locks: Entries<V>) returns (items: string, list: seq<string>)
    requires ValidLocks(locks)
    ensures KeyFor(Normalized(locks)) == "__unlockProtocol.cache[" + items + "]" && ReadAs(items, list)
    ensures Ascending(list) && forall k :: k in list <==> k in Folded(locks)
  {
    list := SortedKeys(locks);
    items := Items(list);
    ItemsReadAs(list);
    Regroup(PREFIX, "[", items + "]");
    Regroup("[", items, "]");
    Regroup(PREFIX + "[", items, "]");
  }

  // ---------------------------------------------------------------- the configuration

  /** The mailbox's configuration, as far as the cache key depends on it. */
  class Configuration<V(!new)> {
    var locks: Option<Entries<V>>
    var errors: seq<string>

    /** The stored locks are those of a valid configuration. */
    ghost predicate Holds(config: Entries<V>)
      reads this
    {
      ValidLocks(config) && locks == Some(Normalized(config))
    }

    constructor ()
      ensures locks == None && errors == []
    {
      locks, errors := None, [];
    }

    /** valid is the verdict of the configuration's validator. */
    method SetConfig(config: Entries<V>, valid: bool)
      modifies this
      ensures valid ==> locks == Some(Normalized(config)) && errors == old(errors)
      ensures valid && ValidLocks(config) ==> Holds(config)
      ensures !valid ==> locks == old(locks) && |errors| == |old(errors)| + 1
    {
      if !valid {
        errors := errors + ["Invalid paywall configuration, cannot continue"];
        return;
      }
      var normalized := NormalizeAddressKeys(config);
      locks := Some(normalized);
    }

    /** None stands for the internal error that is thrown without a configuration. */
    method GetCacheKey() returns (key: Option<string>)
      ensures key == if locks.None? then None else Some(KeyFor(locks.value))
      ensures forall config, others: Entries<V> :: Holds(config) && ValidLocks(others) ==>
        (key == Some(KeyFor(Normalized(others))) <==> SameLocks(config, others))
    {
      if locks.None? {
        return None;
      }
      forall config, others: Entries<V> | Holds(config) && ValidLocks(others)
        ensures KeyFor(locks.value) == KeyFor(Normalized(others)) <==> SameLocks(config, others)
      {
        SameKeyExactlyForSameLocks(config, others);
      }
      return Some(PREFIX + Lower(Json(Sort(Keys(locks.value)))));
    }
  }
}
