/** Key owners by page: getKeysForLockOnPage of unlock-js/src/web3Service.js. */
module OwnerPages {
  import opened Prelude

  datatype KeyInfo = KeyInfo(id: string, lock: string, owner: string, expiration: int)

  /** The lock contract's owners by index, and each owner's expiration; a lookup may fail. */
  datatype Contract = Contract(owners: nat -> Option<string>, expirations: string -> int)

  function Package(lock: string, c: Contract, owner: string): KeyInfo {
    KeyInfo(lock + "-" + owner, lock, owner, c.expirations(owner))
  }

  /** One lookup, or null when it fails. */
  function KeyAt(lock: string, c: Contract, index: nat): Option<KeyInfo> {
    var owner := c.owners(index);
    if owner.None? then None else Some(Package(lock, c, owner.value))
  }

  /** The results for the indices of a page. */
  function Iterative(lock: string, c: Contract, page: nat, byPage: nat): seq<Option<KeyInfo>> {
    var startIndex := page * byPage;
    seq(byPage, n requires 0 <= n => KeyAt(lock, c, n + startIndex))
  }

  /** The results that are not null. */
  function NonNull(keys: seq<Option<KeyInfo>>): seq<KeyInfo> {
    if keys == [] then []
    else (if keys[0].Some? then [keys[0].value] else []) + NonNull(keys[1..])
  }

  function PackageAll(lock: string, c: Contract, owners: seq<string>): (r: seq<Option<KeyInfo>>)
    ensures |r| == |owners| && forall i :: 0 <= i < |r| ==> r[i] == Some(Package(lock, c, owners[i]))
  {
    seq(|owners|, i requires 0 <= i < |owners| => Some(Package(lock, c, owners[i])))
  }

  /** The emitted page; direct is the contract's own answer for the page, if it did not fail. */
  function KeysOnPage(lock: string, c: Contract, direct: Option<seq<string>>, page: nat, byPage: nat): seq<KeyInfo> {
    if direct.None? || direct.value == [] then NonNull(Iterative(lock, c, page, byPage))
    else NonNull(PackageAll(lock, c, direct.value))
  }

  // ---------------------------------------------------------------- pages and the whole list

  /** The results for the indices from a to b. */
  function Between(lock: string, c: Contract, a: nat, b: nat): seq<Option<KeyInfo>>
    requires a <= b
  {
    seq(b - a, n requires 0 <= n => KeyAt(lock, c, n + a))
  }

  lemma {:induction false} NonNullConcat(a: seq<Option<KeyInfo>>, b: seq<Option<KeyInfo>>)
    ensures NonNull(a + b) == NonNull(a) + NonNull(b)
  {
    if a == [] {
      assert a + b == b;
    } else {
      assert (a + b)[1..] == a[1..] + b;
      NonNullConcat(a[1..], b);
      Regroup(if a[0].Some? then [a[0].value] else [], NonNull(a[1..]), NonNull(b));
    }
  }

  function Pages(lock: string, c: Contract, count: nat, byPage: nat): seq<KeyInfo> {
    if count == 0 then []
    else Pages(lock, c, count - 1, byPage) + NonNull(Iterative(lock, c, count - 1, byPage))
  }

  /**
   * Whatever lookups fail, the pages put together are the successful lookups of all
   * indices up to the last page's end, each once and in order.
   */
  lemma {:induction false} PagesCoverEachIndexOnce(lock: string, c: Contract, count: nat, byPage: nat)
    ensures Pages(lock, c, count, byPage) == NonNull(Between(lock, c, 0, count * byPage))
  {
    if count > 0 {
      PagesCoverEachIndexOnce(lock, c, count - 1, byPage);
      var middle := (count - 1) * byPage;
      assert count * byPage == middle + byPage;
      assert Iterative(lock, c, count - 1, byPage) == Between(lock, c, middle, middle + byPage);
      assert Between(lock, c, 0, middle + byPage) ==
        Between(lock, c, 0, middle) + Between(lock, c, middle, middle + byPage);
      NonNullConcat(Between(lock, c, 0, middle), Between(lock, c, middle, middle + byPage));
    }
  }

  /** Lookups fail exactly past the end of the owner list. */
  ghost predicate Holds(c: Contract, owners: seq<string>) {
    forall i: nat :: c.owners(i) == if i < |owners| then Some(owners[i]) else None
  }

  function Keys(lock: string, c: Contract, owners: seq<string>): seq<KeyInfo> {
    seq(|owners|, i requires 0 <= i < |owners| => Package(lock, c, owners[i]))
  }

  function Min(a: nat, b: nat): nat {
    if a < b then a else b
  }

  lemma {:induction false} NonNullOfAll(lock: string, c: Contract, owners: seq<string>)
    ensures NonNull(PackageAll(lock, c, owners)) == Keys(lock, c, owners)
  {
    if owners != [] {
      assert PackageAll(lock, c, owners)[1..] == PackageAll(lock, c, owners[1..]);
      NonNullOfAll(lock, c, owners[1..]);
      assert Keys(lock, c, owners) == [Package(lock, c, owners[0])] + Keys(lock, c, owners[1..]);
    }
  }

  lemma {:induction false} NonNullOfNone(keys: seq<Option<KeyInfo>>)
    requires forall i :: 0 <= i < |keys| ==> keys[i].None?
    ensures NonNull(keys) == []
  {
    if keys != [] {
      NonNullOfNone(keys[1..]);
    }
  }

  lemma BetweenIs(lock: string, c: Contract, owners: seq<string>, a: nat, b: nat)
    requires Holds(c, owners) && a <= b
    ensures NonNull(Between(lock, c, a, b)) == Keys(lock, c, owners[Min(a, |owners|)..Min(b, |owners|)])
  {
    var part := owners[Min(a, |owners|)..Min(b, |owners|)];
    var all := Between(lock, c, a, b);
    var found, missing := all[..|part|], all[|part|..];
    assert all == found + missing;
    forall i | 0 <= i < b - a
      ensures all[i] == if i < |part| then Some(Package(lock, c, part[i])) else None
    {
      assert c.owners(i + a) == if i + a < |owners| then Some(owners[i + a]) else None;
    }
    assert found == PackageAll(lock, c, part);
    NonNullConcat(found, missing);
    NonNullOfNone(missing);
    NonNullOfAll(lock, c, part);
  }

  /**
   * A page holds the keys of the owners from page * byPage on, by either route: the
   * contract's own page, or index by index when that fails or is empty, wrongly or not.
   */
  lemma PageIsASlice(lock: string, c: Contract, owners: seq<string>, direct: Option<seq<string>>,
                     page: nat, byPage: nat)
    requires Holds(c, owners)
    requires direct.None? || direct.value == []
          || direct.value == owners[Min(page * byPage, |owners|)..Min(page * byPage + byPage, |owners|)]
    ensures KeysOnPage(lock, c, direct, page, byPage) ==
      Keys(lock, c, owners[Min(page * byPage, |owners|)..Min(page * byPage + byPage, |owners|)])
  {
    var start := page * byPage;
    assert Iterative(lock, c, page, byPage) == Between(lock, c, start, start + byPage);
    BetweenIs(lock, c, owners, start, start + byPage);
    if direct.Some? {
      NonNullOfAll(lock, c, direct.value);
    }
  }

  /** The contract's own answer counts, whatever its lookups by index say, unless it is empty. */
  lemma PagesComeFrom(lock: string, c: Contract, direct: Option<seq<string>>, page: nat, byPage: nat)
    ensures direct.Some? && direct.value != [] ==>
      KeysOnPage(lock, c, direct, page, byPage) == Keys(lock, c, direct.value)
    ensures direct.None? || direct.value == [] ==>
      KeysOnPage(lock, c, direct, page, byPage) == NonNull(Between(lock, c, page * byPage, page * byPage + byPage))
  {
    if direct.Some? {
      NonNullOfAll(lock, c, direct.value);
    }
    assert Iterative(lock, c, page, byPage) == Between(lock, c, page * byPage, page * byPage + byPage);
  }

  /** The pages as emitted, whichever of them the contract answers itself. */
  function EmittedPages(lock: string, c: Contract, direct: nat -> Option<seq<string>>, count: nat, byPage: nat)
    : seq<KeyInfo>
  {
    if count == 0 then []
    else EmittedPages(lock, c, direct, count - 1, byPage) + KeysOnPage(lock, c, direct(count - 1), count - 1, byPage)
  }

  /** The contract's own answers, where it gives one that is not empty, are slices of the owner list. */
  ghost predicate Answers(direct: nat -> Option<seq<string>>, owners: seq<string>, byPage: nat) {
    forall page: nat :: direct(page).None? || direct(page).value == [] || direct(page).value ==
      owners[Min(page * byPage, |owners|)..Min(page * byPage + byPage, |owners|)]
  }

  lemma {:induction false} EitherRouteGivesThePages(lock: string, c: Contract, owners: seq<string>,
                                                   direct: nat -> Option<seq<string>>, count: nat, byPage: nat)
    requires Holds(c, owners) && Answers(direct, owners, byPage)
    ensures EmittedPages(lock, c, direct, count, byPage) == Pages(lock, c, count, byPage)
  {
    hide NonNull, Keys, PackageAll, Iterative;
    if count > 0 {
      EitherRouteGivesThePages(lock, c, owners, direct, count - 1, byPage);
      PageIsASlice(lock, c, owners, direct(count - 1), count - 1, byPage);
      PageIsASlice(lock, c, owners, None, count - 1, byPage);
    }
  }

  /** A listed key names its lock, its owner and its expiration, and is named after the first two. */
  lemma ListedKeysAre(lock: string, c: Contract, owners: seq<string>, i: nat)
    requires i < |owners|
    ensures var keys := Keys(lock, c, owners);
      && |keys| == |owners| && keys[i].lock == lock && keys[i].owner == owners[i]
      && keys[i].expiration == c.expirations(owners[i])
      && keys[i].id[..|lock|] == lock && keys[i].id[|lock|..] == "-" + owners[i]
  {
  }

  /** Enough pages put together list every owner exactly once, in the contract's order. */
  lemma PagesListAllOwners(lock: string, c: Contract, owners: seq<string>,
                           direct: nat -> Option<seq<string>>, count: nat, byPage: nat)
    requires Holds(c, owners) && Answers(direct, owners, byPage) && |owners| <= count * byPage
    ensures EmittedPages(lock, c, direct, count, byPage) == Keys(lock, c, owners)
  {
    EitherRouteGivesThePages(lock, c, owners, direct, count, byPage);
    PagesCoverEachIndexOnce(lock, c, count, byPage);
    BetweenIs(lock, c, owners, 0, count * byPage);
    assert owners[0..|owners|] == owners;
  }
}
