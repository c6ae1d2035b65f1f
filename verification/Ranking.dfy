/** Accounts as the user sees them: ranked by their stored order, which is always a permutation. */
module Ranking {
  import opened Vocabulary
  import opened SnapshotCodec

  datatype Content = Content(id: u32, issuer: Text, account: Text, displayName: Text, secret: Text)

  function Strip(r: Record): Content {
    Content(r.id, r.issuer, r.account, r.displayName, r.secret)
  }

  /** `list` holds every account, at the place its order says. */
  ghost predicate Ranks(accounts: seq<Record>, list: seq<Content>) {
    && |list| == |accounts|
    && forall i :: 0 <= i < |accounts| ==> accounts[i].order < |list| && list[accounts[i].order] == Strip(accounts[i])
  }

  predicate DistinctOrders(accounts: seq<Record>) {
    forall i, j :: 0 <= i < j < |accounts| ==> accounts[i].order != accounts[j].order
  }

  predicate StrictlySorted(accounts: seq<Record>) {
    forall i, j :: 0 <= i < j < |accounts| ==> accounts[i].order < accounts[j].order
  }

  /** Insertion by order, standing for the library's sort. */
  method InsertByOrder(sorted: seq<Record>, r: Record) returns (longer: seq<Record>)
    requires StrictlySorted(sorted) && forall i :: 0 <= i < |sorted| ==> sorted[i].order != r.order
    ensures StrictlySorted(longer) && multiset(longer) == multiset(sorted) + multiset{r}
  {
    var at := |sorted|;
    while at > 0 && sorted[at - 1].order > r.order
      invariant 0 <= at <= |sorted|
      invariant forall i :: at <= i < |sorted| ==> sorted[i].order > r.order
    {
      at := at - 1;
    }
    longer := sorted[..at] + [r] + sorted[at..];
    InsertedIsSorted(sorted, r, at, longer);
    InsertedIsPermuted(sorted, r, at);
  }

  lemma InsertedIsSorted(sorted: seq<Record>, r: Record, at: nat, longer: seq<Record>)
    requires StrictlySorted(sorted) && at <= |sorted| && longer == sorted[..at] + [r] + sorted[at..]
    requires at > 0 ==> sorted[at - 1].order < r.order
    requires forall i :: at <= i < |sorted| ==> sorted[i].order > r.order
    ensures StrictlySorted(longer)
  {
    forall i, j | 0 <= i < j < |longer| ensures longer[i].order < longer[j].order {
      var p, q := if i < at then i else i - 1, if j < at then j else j - 1;
      assert i != at ==> longer[i] == sorted[p];
      assert j != at ==> longer[j] == sorted[q];
    }
  }

  lemma InsertedIsPermuted(sorted: seq<Record>, r: Record, at: nat)
    requires at <= |sorted|
    ensures multiset(sorted[..at] + [r] + sorted[at..]) == multiset(sorted) + multiset{r}
  {
    assert sorted == sorted[..at] + sorted[at..];
  }

  method SortByOrder(accounts: seq<Record>) returns (sorted: seq<Record>)
    requires DistinctOrders(accounts)
    ensures StrictlySorted(sorted) && multiset(sorted) == multiset(accounts)
  {
    sorted := [];
    for k := 0 to |accounts|
      invariant StrictlySorted(sorted) && multiset(sorted) == multiset(accounts[..k])
    {
      forall i | 0 <= i < |sorted| ensures sorted[i].order != accounts[k].order {
        assert sorted[i] in multiset(accounts[..k]);
      }
      sorted := InsertByOrder(sorted, accounts[k]);
      assert accounts[..k + 1] == accounts[..k] + [accounts[k]];
    }
    assert accounts[..|accounts|] == accounts;
  }

  lemma {:induction false} OrdersClimb(accounts: seq<Record>, i: nat, j: nat)
    requires StrictlySorted(accounts) && i <= j < |accounts|
    ensures accounts[j].order - accounts[i].order >= j - i
    decreases j
  {
    if i < j {
      OrdersClimb(accounts, i, j - 1);
      assert accounts[j - 1].order < accounts[j].order;
    }
  }

  /** Sorted, a permutation of orders is the identity. */
  lemma SortedPermutation(sorted: seq<Record>, i: nat)
    requires StrictlySorted(sorted) && i < |sorted|
    requires forall k :: 0 <= k < |sorted| ==> sorted[k].order < |sorted|
    ensures sorted[i].order == i
  {
    OrdersClimb(sorted, 0, i);
    OrdersClimb(sorted, i, |sorted| - 1);
  }

  /** Sorted, a permutation with one order taken out skips just that order. */
  lemma SortedWithGap(sorted: seq<Record>, gap: nat, i: nat)
    requires StrictlySorted(sorted) && i < |sorted| && gap <= |sorted|
    requires forall k :: 0 <= k < |sorted| ==> sorted[k].order <= |sorted| && sorted[k].order != gap
    ensures sorted[i].order == if i < gap then i else i + 1
  {
    OrdersClimb(sorted, 0, i);
    OrdersClimb(sorted, i, |sorted| - 1);
    if i < gap {
      OrdersClimb(sorted, i, gap - 1);
      assert sorted[gap - 1].order <= gap by { OrdersClimb(sorted, gap - 1, |sorted| - 1); }
    } else {
      OrdersClimb(sorted, gap, i) ;
      OrdersClimb(sorted, 0, gap);
    }
  }
}
