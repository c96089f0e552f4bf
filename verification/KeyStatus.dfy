/** The status of a key: paywall/src/selectors/keys.ts. */
module KeyStatus {
  import opened Prelude
  import opened KeyStore

  datatype Status = NoStatus | Of(status: TxStatus) | Confirming | Valid | Expired

  /** Number.MAX_SAFE_INTEGER, the block number given to a transaction that is in no block. */
  const UNMINED: int := 9007199254740991

  /** The largest integer up to which every integer is a double of its own: all 53 bits are set. */
  lemma UnminedIsTheLargestSafeInteger()
    ensures UNMINED == 0x1F_FFFF_FFFF_FFFF
  {
  }

  /** a.blockNumber > b.blockNumber, which is false when either is missing. */
  predicate Newer(a: Tx, b: Tx) {
    a.blockNumber.Some? && b.blockNumber.Some? && a.blockNumber.value > b.blockNumber.value
  }

  /** The comparator handed to the sort. */
  function Compare(a: Tx, b: Tx): int {
    if Newer(a, b) then -1 else 1
  }

  /** Swapping the arguments swaps the verdict exactly when the block numbers differ. */
  lemma ComparatorIsConsistent(a: Tx, b: Tx)
    requires a.blockNumber.Some? && b.blockNumber.Some?
    ensures Compare(a, b) == -Compare(b, a) <==> a.blockNumber != b.blockNumber
  {
  }

  predicate ExpiresBefore(key: Key, nowMs: int) {
    key.expiration.Some? && key.expiration.value * 1000 < nowMs
  }

  predicate ExpiresAfter(key: Key, nowMs: int) {
    key.expiration.Some? && key.expiration.value * 1000 > nowMs
  }

  /** The status that the transaction tx gives to its key. */
  function Decision(tx: Tx, key: Key, nowMs: int, required: int): Status {
    if tx.status == Some(Mined) then
      if tx.confirmations.Some? && tx.confirmations.value < required then Confirming
      else if ExpiresBefore(key, nowMs) then Expired
      else Valid
    else if tx.status.Some? then Of(tx.status.value)
    else NoStatus
  }

  ghost predicate Numbered(txs: seq<Tx>) {
    forall i :: 0 <= i < |txs| ==> txs[i].blockNumber.Some?
  }

  ghost predicate Descending(txs: seq<Tx>) {
    forall i, j :: 0 <= i < j < |txs| ==> !Newer(txs[j], txs[i])
  }

  ghost predicate LatestIn(txs: seq<Tx>, tx: Tx) {
    tx in txs && forall x :: x in txs ==> !Newer(x, tx)
  }

  // ---------------------------------------------------------------- the selector

  method SwapWithPrevious(a: array<Tx>, k: nat)
    requires 0 < k < a.Length
    modifies a
    ensures a[..] == old(a[..])[k - 1 := old(a[k])][k := old(a[k - 1])]
    ensures Permutation(a[..], old(a[..]))
  {
    a[k - 1], a[k] := a[k], a[k - 1];
  }

  /** s is in order except that the element at k may belong further to the front. */
  ghost predicate OrderedBut(s: seq<Tx>, n: nat, k: nat)
    requires k <= n < |s|
  {
    forall i, j :: 0 <= i < j <= n && j != k ==> !Newer(s[j], s[i])
  }

  lemma StepForward(s: seq<Tx>, n: nat, k: nat)
    requires 0 < k <= n < |s| && OrderedBut(s, n, k) && !Newer(s[k - 1], s[k])
    ensures OrderedBut(s[k - 1 := s[k]][k := s[k - 1]], n, k - 1)
  {
  }

  lemma InPlace(s: seq<Tx>, n: nat, k: nat)
    requires k <= n < |s| && OrderedBut(s, n, k) && Numbered(s)
    requires k == 0 || Newer(s[k - 1], s[k])
    ensures Descending(s[..n + 1])
  {
    forall i | 0 <= i < k
      ensures !Newer(s[k], s[i])
    {
      assert i == k - 1 || !Newer(s[k - 1], s[i]);
    }
  }

  /** The array's own sort, by insertion. */
  method SortByBlock(a: array<Tx>)
    modifies a
    ensures Permutation(a[..], old(a[..]))
    ensures Numbered(old(a[..])) ==> Descending(a[..])
  {
    var n := 0;
    while n < a.Length
      invariant 0 <= n <= a.Length
      invariant Permutation(a[..], old(a[..]))
      invariant Numbered(old(a[..])) ==> Descending(a[..n])
    {
      var k := n;
      while k > 0 && Compare(a[k - 1], a[k]) > 0
        invariant 0 <= k <= n
        invariant Permutation(a[..], old(a[..]))
        invariant Numbered(old(a[..])) ==> OrderedBut(a[..], n, k)
      {
        if Numbered(old(a[..])) {
          StepForward(a[..], n, k);
        }
        SwapWithPrevious(a, k);
        k := k - 1;
      }
      if Numbered(old(a[..])) {
        PermutationMembers(a[..], old(a[..]));
        assert forall i :: 0 <= i < a.Length ==> a[..][i] in a[..];
        InPlace(a[..], n, k);
      }
      n := n + 1;
    }
    assert a[..] == a[..a.Length];
  }

  /** The transactions of a map, in some order of its keys. */
  ghost predicate Enumerates(values: seq<Tx>, txs: map<string, Tx>) {
    && (forall x :: x in values ==> exists h :: h in txs && txs[h] == x)
    && (forall h :: h in txs ==> txs[h] in values)
  }

  /**
   * A transaction that the sort can put first: one than which none is newer. Where a block
   * number is missing the comparator is inconsistent, and the sort may leave any order.
   */
  ghost predicate MayLead(txs: map<string, Tx>, h: string) {
    h in txs && (AllNumbered(txs) ==> forall g :: g in txs ==> !Newer(txs[g], txs[h]))
  }

  ghost predicate AllNumbered(txs: map<string, Tx>) {
    forall h :: h in txs ==> txs[h].blockNumber.Some?
  }

  /** A status that the selector can report, for some order of the key's transactions. */
  ghost predicate Reports(key: Key, nowMs: int, required: int, status: Status) {
    if key.transactions.None? then status == if ExpiresAfter(key, nowMs) then Valid else NoStatus
    else
      exists h :: MayLead(key.transactions.value, h)
        && status == Decision(key.transactions.value[h], key, nowMs, required)
  }

  lemma NumberedAlike(values: seq<Tx>, txs: map<string, Tx>)
    requires Enumerates(values, txs)
    ensures AllNumbered(txs) ==> Numbered(values)
  {
    assert forall i :: 0 <= i < |values| ==> values[i] in values;
  }

  /**
   * The selector on one key. values is the fresh array of the key's transactions; with no
   * transaction in it the selector reads a property of undefined and throws.
   */
  method KeyStatus(key: Option<Key>, values: array<Tx>, nowMs: int, required: int) returns (status: Option<Status>)
    requires key.Some? && key.value.transactions.Some? ==> Enumerates(values[..], key.value.transactions.value)
    modifies values
    ensures key.None? ==> status == Some(NoStatus)
    ensures status == None <==> key.Some? && key.value.transactions == Some(map[])
    ensures key.Some? && status.Some? ==> Reports(key.value, nowMs, required, status.value)
  {
    if key.None? {
      return Some(NoStatus);
    }
    if key.value.transactions.None? {
      return Some(if ExpiresAfter(key.value, nowMs) then Valid else NoStatus);
    }
    ghost var was := values[..];
    SortByBlock(values);
    PermutationMembers(values[..], was);
    if values.Length == 0 {
      return None;
    }
    var last := values[0];
    assert last in values[..];
    if Numbered(was) {
      HeadIsLatest(was, values[..]);
    }
    ghost var txs := key.value.transactions.value;
    ghost var h :| h in txs && txs[h] == last;
    NumberedAlike(was, txs);
    assert MayLead(txs, h);
    return Some(Decision(last, key.value, nowMs, required));
  }

  // ---------------------------------------------------------------- what a status says

  /**
   * For any key with transactions, the status reported says of a transaction that may lead
   * whether it was mined, whether its confirmations suffice, and whether the key's time is
   * over; and any other status of that transaction is reported as it is.
   */
  lemma StatusSpeaksOfALeader(key: Key, nowMs: int, required: int, status: Status) returns (h: string)
    requires key.transactions.Some? && Reports(key, nowMs, required, status)
    ensures MayLead(key.transactions.value, h)
    ensures var tx := key.transactions.value[h];
      && (status in {Confirming, Valid, Expired} <==> tx.status == Some(Mined))
      && (status == Confirming ==> tx.confirmations.Some? && tx.confirmations.value < required)
      && (status in {Valid, Expired} ==> tx.confirmations.None? || required <= tx.confirmations.value)
      && (status == Expired ==> key.expiration.Some? && key.expiration.value * 1000 < nowMs)
      && (status == Valid ==> key.expiration.None? || nowMs <= key.expiration.value * 1000)
      && (status.Of? ==> tx.status == Some(status.status))
      && (status == NoStatus ==> tx.status.None?)
  {
    h :| MayLead(key.transactions.value, h) && status == Decision(key.transactions.value[h], key, nowMs, required);
  }

  /** Every transaction that may lead has its say: a failed one, for instance, is reported as failed. */
  lemma LeadersAreReported(key: Key, h: string, nowMs: int, required: int, txStatus: TxStatus)
    requires key.transactions.Some? && MayLead(key.transactions.value, h)
    requires key.transactions.value[h].status == Some(txStatus)
    ensures txStatus.Mined? ==>
      exists status :: status in {Confirming, Valid, Expired} && Reports(key, nowMs, required, status)
    ensures !txStatus.Mined? ==> Reports(key, nowMs, required, Of(txStatus))
  {
    assert Reports(key, nowMs, required, Decision(key.transactions.value[h], key, nowMs, required));
  }

  /** A key without transactions is valid until it expires, and otherwise has no status. */
  lemma KeysWithoutTransactions(key: Key, nowMs: int, required: int, status: Status)
    requires key.transactions.None?
    ensures Reports(key, nowMs, required, status) <==>
      if key.expiration.Some? && nowMs < key.expiration.value * 1000 then status == Valid else status == NoStatus
  {
  }

  // ---------------------------------------------------------------- order does not matter

  ghost predicate Sorting(p: seq<Tx>, txs: seq<Tx>) {
    p != [] && Permutation(p, txs) && Descending(p)
  }

  /** Every sort of the transactions gives the same status. */
  ghost predicate OrderIrrelevant(txs: seq<Tx>, key: Key, nowMs: int, required: int) {
    forall p, q :: Sorting(p, txs) && Sorting(q, txs) ==>
      Decision(p[0], key, nowMs, required) == Decision(q[0], key, nowMs, required)
  }

  lemma HeadIsLatest(txs: seq<Tx>, p: seq<Tx>)
    requires txs != [] && Permutation(p, txs) && Descending(p)
    ensures p != [] && LatestIn(txs, p[0])
  {
    PermutationMembers(p, txs);
    assert p[0] in p;
    forall x | x in txs
      ensures !Newer(x, p[0])
    {
      var i :| 0 <= i < |p| && p[i] == x;
    }
  }

  lemma InsertKeepsOrder(q: seq<Tx>, x: Tx, i: nat)
    requires i <= |q| && Numbered(q + [x]) && Descending(q)
    requires forall j :: 0 <= j < i ==> Newer(q[j], x)
    requires i == |q| || !Newer(q[i], x)
    ensures Descending(q[..i] + [x] + q[i..])
  {
    assert forall k :: 0 <= k < |q| ==> (q + [x])[k] == q[k];
    assert (q + [x])[|q|] == x;
    forall k | i <= k < |q|
      ensures !Newer(q[k], x)
    {
      assert k == i || !Newer(q[k], q[i]);
    }
  }

  /** Where x goes: after the elements that are newer. */
  function Position(q: seq<Tx>, x: Tx): (i: nat)
    ensures i <= |q| && (forall j :: 0 <= j < i ==> Newer(q[j], x)) && (i == |q| || !Newer(q[i], x))
  {
    if q == [] || !Newer(q[0], x) then 0 else 1 + Position(q[1..], x)
  }

  lemma NumberedPermutation(p: seq<Tx>, txs: seq<Tx>)
    requires Permutation(p, txs) && Numbered(txs)
    ensures Numbered(p)
  {
    PermutationMembers(p, txs);
    assert forall k :: 0 <= k < |p| ==> p[k] in p;
  }

  lemma InsertPermutes(q: seq<Tx>, txs: seq<Tx>, i: nat)
    requires i <= |q| && txs != [] && Permutation(q, txs[1..])
    ensures Permutation(q[..i] + [txs[0]] + q[i..], txs)
  {
    assert q == q[..i] + q[i..];
    assert txs == [txs[0]] + txs[1..];
  }

  /** Any transactions can be put in descending order. */
  lemma {:induction false} Sortable(txs: seq<Tx>) returns (p: seq<Tx>)
    requires Numbered(txs)
    ensures Permutation(p, txs) && Descending(p)
  {
    if txs == [] {
      return [];
    }
    var q := Sortable(txs[1..]);
    NumberedPermutation(q, txs[1..]);
    var x, i := txs[0], Position(q, txs[0]);
    p := q[..i] + [x] + q[i..];
    InsertPermutes(q, txs, i);
    InsertKeepsOrder(q, x, i);
  }

  /** A latest transaction can come out of the sort first. */
  lemma LatestCanLead(txs: seq<Tx>, tx: Tx) returns (p: seq<Tx>)
    requires Numbered(txs) && LatestIn(txs, tx)
    ensures Permutation(p, txs) && Descending(p) && p != [] && p[0] == tx
  {
    var i :| 0 <= i < |txs| && txs[i] == tx;
    var rest := Sortable(Without(txs, i));
    PermutationMembers(rest, Without(txs, i));
    p := [tx] + rest;
    assert txs == txs[..i] + [tx] + txs[i + 1..];
    forall j | 0 <= j < |rest|
      ensures !Newer(rest[j], tx)
    {
      assert rest[j] in rest;
    }
  }

  /**
   * The status does not depend on the order in which the transactions are enumerated and
   * ties are broken if and only if those with the greatest block number all decide alike.
   */
  lemma OrderIrrelevantExactlyWhenTopsAgree(txs: seq<Tx>, key: Key, nowMs: int, required: int)
    requires txs != [] && Numbered(txs)
    ensures OrderIrrelevant(txs, key, nowMs, required) <==>
      forall a, b :: LatestIn(txs, a) && LatestIn(txs, b) ==>
        Decision(a, key, nowMs, required) == Decision(b, key, nowMs, required)
  {
    if OrderIrrelevant(txs, key, nowMs, required) {
      forall a, b | LatestIn(txs, a) && LatestIn(txs, b)
        ensures Decision(a, key, nowMs, required) == Decision(b, key, nowMs, required)
      {
        var p := LatestCanLead(txs, a);
        var q := LatestCanLead(txs, b);
      }
    } else {
      var p, q :| Sorting(p, txs) && Sorting(q, txs)
        && Decision(p[0], key, nowMs, required) != Decision(q[0], key, nowMs, required);
      HeadIsLatest(txs, p);
      HeadIsLatest(txs, q);
    }
  }

  /** Distinct block numbers are enough, and the greatest one decides. */
  lemma DistinctBlocksDecide(txs: seq<Tx>, tx: Tx, key: Key, nowMs: int, required: int, p: seq<Tx>)
    requires Numbered(txs) && LatestIn(txs, tx) && Permutation(p, txs) && Descending(p)
    requires forall i, j :: 0 <= i < j < |txs| ==> txs[i].blockNumber != txs[j].blockNumber
    ensures p != [] && p[0] == tx
    ensures OrderIrrelevant(txs, key, nowMs, required)
  {
    HeadIsLatest(txs, p);
    forall a, b | LatestIn(txs, a) && LatestIn(txs, b)
      ensures a == b
    {
      var i :| 0 <= i < |txs| && txs[i] == a;
      var j :| 0 <= j < |txs| && txs[j] == b;
    }
    OrderIrrelevantExactlyWhenTopsAgree(txs, key, nowMs, required);
  }

  /** One transaction that is in no block yet decides over any number of mined ones. */
  lemma UnminedDecides(key: Key, h: string, nowMs: int, required: int, status: Status)
    requires key.transactions.Some? && h in key.transactions.value
    requires key.transactions.value[h].blockNumber == Some(UNMINED)
    requires key.transactions.value[h].status in {Some(Submitted), Some(Pending)}
    requires forall g :: g in key.transactions.value && g != h ==>
      key.transactions.value[g].blockNumber.Some? && key.transactions.value[g].blockNumber.value < UNMINED
    ensures Reports(key, nowMs, required, status) <==> status == Of(key.transactions.value[h].status.value)
  {
    var txs := key.transactions.value;
    assert forall g :: g in txs && g != h ==> Newer(txs[h], txs[g]);
    assert Decision(txs[h], key, nowMs, required) == Of(txs[h].status.value);
    assert MayLead(txs, h);
  }
}
