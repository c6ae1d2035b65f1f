/** The account store's operations: load, change one thing, save, each proved to keep the state valid. */
module AccountStore {
  import opened Vocabulary
  import opened SnapshotCodec
  import opened Ranking

  datatype Draft = Draft(issuer: Text, account: Text, displayName: Text, secret: Text)

  predicate DraftValid(d: Draft) {
    && |d.issuer| <= MAX_ISSUER && |d.account| <= MAX_ACCOUNT && |d.displayName| <= MAX_DISPLAY_NAME
    && d.secret != [] && |d.secret| <= MAX_SECRET
  }

  function Named(d: Draft, id: u32): Content {
    Content(id, d.issuer, d.account, d.displayName, d.secret)
  }

  datatype Status = Ok | NotReady | NotFound | InvalidArgument | Full | Corrupt | Io

  ghost predicate ListsId(list: seq<Content>, id: u32) {
    exists i :: 0 <= i < |list| && list[i].id == id
  }

  /** The list without the entry of that id. */
  function Without(list: seq<Content>, id: u32): seq<Content> {
    if list == [] then [] else
    if list[0].id == id then Without(list[1..], id) else [list[0]] + Without(list[1..], id)
  }

  function IdsOf(list: seq<Content>): (ids: seq<u32>)
    ensures |ids| == |list|
  {
    seq(|list|, i requires 0 <= i < |list| => list[i].id)
  }

  const FRESH: State := State(1, 0, [], [], [])

  // ----- what each change does to a state and its ranking -----

  function NewRecord(d: Draft, id: u32, order: u16): Record {
    Record(id, order, d.issuer, d.account, d.displayName, d.secret)
  }

  function Added(s: State, d: Draft): State
    requires |s.accounts| < MAX_ACCOUNTS && s.nextId < MAX_U32
  {
    s.(nextId := s.nextId + 1, accounts := s.accounts + [NewRecord(d, s.nextId, |s.accounts|)])
  }

  lemma AddKeepsValid(s: State, list: seq<Content>, d: Draft)
    requires SnapshotCodec.Valid(s) && Ranks(s.accounts, list) && DraftValid(d)
    requires |s.accounts| < MAX_ACCOUNTS && s.nextId < MAX_U32
    ensures SnapshotCodec.Valid(Added(s, d)) && Ranks(Added(s, d).accounts, list + [Named(d, s.nextId)])
  {
    var t := Added(s, d);
    if s.lastUsedId != 0 {
      var i :| 0 <= i < |s.accounts| && s.accounts[i].id == s.lastUsedId;
      assert t.accounts[i].id == s.lastUsedId;
    }
  }

  /** Replacing an account's content in place, but never its id or order. */
  function Changed(s: State, i: nat, r: Record): State
    requires i < |s.accounts|
  {
    s.(accounts := s.accounts[i := r])
  }

  lemma ChangeKeepsValid(s: State, list: seq<Content>, i: nat, r: Record)
    requires SnapshotCodec.Valid(s) && Ranks(s.accounts, list) && i < |s.accounts|
    requires RecordValid(r) && r.id == s.accounts[i].id && r.order == s.accounts[i].order
    ensures SnapshotCodec.Valid(Changed(s, i, r)) && Ranks(Changed(s, i, r).accounts, list[r.order := Strip(r)])
  {
    var t := Changed(s, i, r);
    if s.lastUsedId != 0 {
      var j :| 0 <= j < |s.accounts| && s.accounts[j].id == s.lastUsedId;
      assert t.accounts[j].id == s.lastUsedId;
    }
  }

  function Renumbered(accounts: seq<Record>): (r: seq<Record>)
    requires |accounts| <= MAX_ACCOUNTS
    ensures |r| == |accounts|
  {
    seq(|accounts|, i requires 0 <= i < |accounts| => accounts[i].(order := i))
  }

  predicate UniqueIds(list: seq<Content>) {
    forall i, j :: 0 <= i < j < |list| ==> list[i].id != list[j].id
  }

  lemma {:induction false} WithoutAbsent(list: seq<Content>, id: u32)
    requires forall i :: 0 <= i < |list| ==> list[i].id != id
    ensures Without(list, id) == list
  {
    if list != [] {
      WithoutAbsent(list[1..], id);
      assert list == [list[0]] + list[1..];
    }
  }

  lemma {:induction false} WithoutOne(list: seq<Content>, gap: nat)
    requires UniqueIds(list) && gap < |list|
    ensures Without(list, list[gap].id) == list[..gap] + list[gap + 1..]
  {
    if gap == 0 {
      WithoutAbsent(list[1..], list[0].id);
    } else {
      WithoutOne(list[1..], gap - 1);
      assert list[1..][gap - 1] == list[gap];
      assert list[..gap] == [list[0]] + list[1..][..gap - 1];
      assert list[1..][gap..] == list[gap + 1..];
    }
  }

  lemma RankedIdsAreUnique(accounts: seq<Record>, list: seq<Content>)
    requires DistinctIds(accounts) && OrdersPermute(accounts) && Ranks(accounts, list)
    ensures UniqueIds(list)
  {
    forall p, q | 0 <= p < q < |list| ensures list[p].id != list[q].id {
      OrdersCover(accounts, p);
      OrdersCover(accounts, q);
      var i :| 0 <= i < |accounts| && accounts[i].order == p;
      var j :| 0 <= j < |accounts| && accounts[j].order == q;
      assert list[p] == Strip(accounts[i]) && list[q] == Strip(accounts[j]);
    }
  }

  /** No order is left out: n different orders below n are all of them. */
  lemma OrdersCover(accounts: seq<Record>, o: nat)
    requires OrdersPermute(accounts) && o < |accounts|
    ensures HasOrder(accounts, |accounts|, o)
  {
    var used := UsedOrders(accounts, |accounts|);
    SubsetOfSameSize(used, Below(|accounts|));
    assert o in used;
  }

  ghost function UsedOrders(accounts: seq<Record>, k: nat): (used: set<int>)
    requires k <= |accounts| && OrdersPermute(accounts)
    ensures |used| == k
    ensures forall o :: o in used ==> 0 <= o < |accounts| && HasOrder(accounts, k, o)
    ensures forall i :: 0 <= i < k ==> accounts[i].order in used
  {
    if k == 0 then {} else
      var fewer := UsedOrders(accounts, k - 1);
      assert forall o :: o in fewer ==> 0 <= o && HasOrder(accounts, k, o) by { MoreOrders(accounts, k, fewer); }
      assert HasOrder(accounts, k, accounts[k - 1].order) by { assert accounts[k - 1].order == accounts[k - 1].order; }
      fewer + {accounts[k - 1].order as int}
  }

  lemma MoreOrders(accounts: seq<Record>, k: nat, orders: set<int>)
    requires 0 < k <= |accounts| && forall o :: o in orders ==> 0 <= o && HasOrder(accounts, k - 1, o)
    ensures forall o :: o in orders ==> 0 <= o && HasOrder(accounts, k, o)
  {
    forall o | o in orders ensures HasOrder(accounts, k, o) {
      var i :| 0 <= i < k - 1 && accounts[i].order == o;
      assert 0 <= i < k;
    }
  }

  ghost function Below(n: nat): (s: set<int>)
    ensures |s| == n && forall k :: k in s <==> 0 <= k < n
  {
    if n == 0 then {} else Below(n - 1) + {n - 1}
  }

  lemma SubsetOfSameSize(a: set<int>, b: set<int>)
    requires a <= b && |a| == |b|
    ensures a == b
  {
    assert |b - a| == |b| - |a|;
  }

  /** The state after an account is deleted: the rest, in order, numbered from zero again. */
  function Deleted(s: State, id: u32, sorted: seq<Record>): State
    requires |sorted| <= MAX_ACCOUNTS
  {
    s.(accounts := Renumbered(sorted), lastUsedId := if s.lastUsedId == id then 0 else s.lastUsedId)
  }

  lemma SortedRest(accounts: seq<Record>, at: nat, sorted: seq<Record>, k: nat) returns (i: nat)
    requires OrdersPermute(accounts) && DistinctIds(accounts) && at < |accounts|
    requires multiset(sorted) == multiset(accounts[..at] + accounts[at + 1..]) && k < |sorted|
    ensures i < |accounts| && i != at && sorted[k] == accounts[i]
  {
    var rest := accounts[..at] + accounts[at + 1..];
    assert sorted[k] in multiset(rest);
    var j :| 0 <= j < |rest| && rest[j] == sorted[k];
    i := if j < at then j else j + 1;
  }

  lemma DeleteRanks(accounts: seq<Record>, list: seq<Content>, at: nat, sorted: seq<Record>)
    requires DistinctIds(accounts) && OrdersPermute(accounts) && Ranks(accounts, list) && at < |accounts| <= MAX_ACCOUNTS
    requires multiset(sorted) == multiset(accounts[..at] + accounts[at + 1..]) && StrictlySorted(sorted)
    requires |sorted| == |accounts| - 1
    ensures Ranks(Renumbered(sorted), Without(list, accounts[at].id))
  {
    var gap := accounts[at].order;
    RankedIdsAreUnique(accounts, list);
    WithoutOne(list, gap);
    forall k | 0 <= k < |sorted| ensures sorted[k].order <= |sorted| && sorted[k].order != gap {
      var i := SortedRest(accounts, at, sorted, k);
      assert i < at ==> accounts[i].order != accounts[at].order;
    }
    forall k | 0 <= k < |sorted| ensures Strip(Renumbered(sorted)[k]) == Without(list, accounts[at].id)[k] {
      var i := SortedRest(accounts, at, sorted, k);
      SortedWithGap(sorted, gap, k);
    }
  }

  lemma DeleteKeepsValid(s: State, list: seq<Content>, at: nat, sorted: seq<Record>)
    requires SnapshotCodec.Valid(s) && Ranks(s.accounts, list) && at < |s.accounts|
    requires multiset(sorted) == multiset(s.accounts[..at] + s.accounts[at + 1..]) && StrictlySorted(sorted)
    requires |sorted| == |s.accounts| - 1
    ensures SnapshotCodec.Valid(Deleted(s, s.accounts[at].id, sorted))
  {
    var t := Deleted(s, s.accounts[at].id, sorted);
    forall k | 0 <= k < |sorted| ensures RecordValid(t.accounts[k]) && t.accounts[k].id < t.nextId && t.accounts[k].order == k {
      var i := SortedRest(s.accounts, at, sorted, k);
    }
    forall k, l | 0 <= k < l < |sorted| ensures t.accounts[k].id != t.accounts[l].id {
      var i := SortedRest(s.accounts, at, sorted, k);
      var j := SortedRest(s.accounts, at, sorted, l);
      assert sorted[k].order < sorted[l].order;
      assert i < j ==> s.accounts[i].id != s.accounts[j].id;
    }
    if t.lastUsedId != 0 { RemainingIdStays(s.accounts, at, sorted, t.lastUsedId); }
  }

  lemma RemainingIdStays(accounts: seq<Record>, at: nat, sorted: seq<Record>, id: u32)
    requires at < |accounts| && multiset(sorted) == multiset(accounts[..at] + accounts[at + 1..])
    requires |sorted| <= MAX_ACCOUNTS && HasId(accounts, id) && accounts[at].id != id
    ensures HasId(Renumbered(sorted), id)
  {
    var i :| 0 <= i < |accounts| && accounts[i].id == id;
    var rest := accounts[..at] + accounts[at + 1..];
    assert rest[if i < at then i else i - 1] == accounts[i];
    assert accounts[i] in multiset(sorted);
    var k :| 0 <= k < |sorted| && sorted[k] == accounts[i];
    assert Renumbered(sorted)[k].id == id;
  }

  // ----- reordering -----

  /** The accounts after some of them were given new orders: `placed` says which, in order. */
  ghost predicate Placing(before: seq<Record>, now: seq<Record>, ids: seq<u32>, placed: seq<nat>) {
    && |now| == |before| && |placed| <= |ids| == |before|
    && (forall i :: 0 <= i < |now| ==> now[i] == before[i].(order := now[i].order))
    && (forall o :: 0 <= o < |placed| ==> placed[o] < |now| && now[placed[o]].id == ids[o] && now[placed[o]].order == o)
    && (forall o, p :: 0 <= o < p < |placed| ==> placed[o] != placed[p])
  }

  lemma PlaceOneMore(before: seq<Record>, now: seq<Record>, ids: seq<u32>, placed: seq<nat>, at: nat)
    requires Placing(before, now, ids, placed) && |placed| < |ids| < 0x1_0000
    requires at < |now| && now[at].id == ids[|placed|] && forall o :: 0 <= o < |placed| ==> placed[o] != at
    ensures Placing(before, now[at := now[at].(order := |placed|)], ids, placed + [at])
  {
  }

  ghost function Placed(before: seq<Record>, placed: seq<nat>): (list: seq<Content>)
    requires forall o :: 0 <= o < |placed| ==> placed[o] < |before|
    ensures |list| == |placed|
  {
    seq(|placed|, o requires 0 <= o < |placed| => Strip(before[placed[o]]))
  }

  ghost predicate IsPlaced(placed: seq<nat>, i: nat) {
    exists o :: 0 <= o < |placed| && placed[o] == i
  }

  ghost function PlacedSet(placed: seq<nat>, n: nat): (all: set<int>)
    requires n <= |placed| && forall o, p :: 0 <= o < p < |placed| ==> placed[o] != placed[p]
    ensures |all| == n && forall i :: i in all ==> 0 <= i && IsPlaced(placed, i)
    ensures forall o :: 0 <= o < n ==> placed[o] in all
    ensures forall i :: i in all ==> exists o :: 0 <= o < n && placed[o] == i
  {
    if n == 0 then {} else PlacedSet(placed, n - 1) + {placed[n - 1] as int}
  }

  /** n different places among n accounts leave none out. */
  lemma EveryAccountIsPlaced(placed: seq<nat>, i: nat)
    requires forall o :: 0 <= o < |placed| ==> placed[o] < |placed|
    requires forall o, p :: 0 <= o < p < |placed| ==> placed[o] != placed[p]
    requires i < |placed|
    ensures IsPlaced(placed, i)
  {
    var all := PlacedSet(placed, |placed|);
    SubsetOfSameSize(all, Below(|placed|));
    assert i in all;
  }

  lemma ReorderKeepsValid(s: State, list: seq<Content>, now: seq<Record>, ids: seq<u32>, placed: seq<nat>)
    requires SnapshotCodec.Valid(s) && Ranks(s.accounts, list)
    requires Placing(s.accounts, now, ids, placed) && |placed| == |ids|
    ensures SnapshotCodec.Valid(s.(accounts := now)) && Ranks(now, Placed(s.accounts, placed))
    ensures IdsOf(Placed(s.accounts, placed)) == ids
    ensures forall o :: 0 <= o < |placed| ==> Placed(s.accounts, placed)[o] in list
  {
    forall i | 0 <= i < |now| ensures now[i].order < |now| && placed[now[i].order] == i {
      EveryAccountIsPlaced(placed, i);
      var o :| 0 <= o < |placed| && placed[o] == i;
      assert now[placed[o]].order == o;
    }
    if s.lastUsedId != 0 {
      var i :| 0 <= i < |s.accounts| && s.accounts[i].id == s.lastUsedId;
      assert now[i].id == s.lastUsedId;
    }
    forall o | 0 <= o < |placed| ensures Placed(s.accounts, placed)[o] in list {
      assert list[s.accounts[placed[o]].order] == Strip(s.accounts[placed[o]]);
    }
  }

  ghost predicate Rearranges(ids: seq<u32>, list: seq<Content>) {
    && |ids| == |list|
    && (forall o, p :: 0 <= o < p < |ids| ==> ids[o] != ids[p])
    && (forall o :: 0 <= o < |ids| ==> ListsId(list, ids[o]))
  }

  // ----- replacing everything -----

  ghost predicate AllDraftsValid(drafts: seq<Draft>) {
    forall i :: 0 <= i < |drafts| ==> DraftValid(drafts[i])
  }

  function Issued(drafts: seq<Draft>, first: nat): (list: seq<Content>)
    requires first + |drafts| <= MAX_U32
    ensures |list| == |drafts|
  {
    seq(|drafts|, i requires 0 <= i < |drafts| => Named(drafts[i], first + i))
  }

  function NewRecords(drafts: seq<Draft>, first: nat): (accounts: seq<Record>)
    requires first + |drafts| <= MAX_U32 && |drafts| <= MAX_ACCOUNTS
    ensures |accounts| == |drafts|
  {
    seq(|drafts|, i requires 0 <= i < |drafts| => NewRecord(drafts[i], first + i, i))
  }

  lemma NextIdCounts(s: State)
    requires SnapshotCodec.Valid(s)
    ensures s.nextId >= 1
  {
  }

  lemma ReplaceKeepsValid(s: State, drafts: seq<Draft>)
    requires SnapshotCodec.Valid(s) && AllDraftsValid(drafts) && |drafts| <= MAX_ACCOUNTS && s.nextId + |drafts| <= MAX_U32
    ensures var accounts := NewRecords(drafts, s.nextId);
            && SnapshotCodec.Valid(State(s.nextId + |drafts|, 0, s.ssid, s.password, accounts))
            && Ranks(accounts, Issued(drafts, s.nextId))
  {
  }

  class Store {
    /** The snapshot in flash, and whether initialization has succeeded. */
    var blob: seq<byte>
    var ready: bool

    /** The state the snapshot encodes, its accounts in order, and every id ever stored. */
    ghost var state: State
    ghost var ranking: seq<Content>
    ghost var ever: set<u32>

    ghost predicate Valid()
      reads this
    {
      (ready ==> blob != []) && (blob != [] ==>
        && SnapshotCodec.Valid(state) && blob == EncodeState(state)
        && Ranks(state.accounts, ranking)
        && (forall id :: id in ever ==> id < state.nextId)
        && (forall i :: 0 <= i < |state.accounts| ==> state.accounts[i].id in ever))
    }

    twostate predicate Unchanged()
      reads this
    {
      state == old(state) && ranking == old(ranking) && ever == old(ever)
    }

    /** No operation below reuses an id: new ones are above all that were ever stored. */
    twostate predicate NoIdReused()
      reads this
    {
      && old(ever) <= ever && old(state).nextId <= state.nextId
      && forall id :: id in ever && id !in old(ever) ==> old(state).nextId <= id < state.nextId
    }

    constructor ()
      ensures Valid() && !ready
    {
      blob, ready := [], false;
      state, ranking, ever := FRESH, [], {};
    }

    method Load() returns (status: Status, s: State)
      requires Valid()
      ensures status == Ok ==> ready && s == state
      ensures status in {Ok, NotReady, Io}
    {
      hide SnapshotCodec.Valid, EncodeState, ParseState;
      s := FRESH;
      if !ready { return NotReady, s; }
      var failed: bool := *;
      if failed { return Io, s; }
      var decoded := DecodeState(blob);
      DecodeInvertsEncode(blob, state);
      return Ok, decoded.value;
    }

    /** Encoding validates first; an invalid state is refused, a valid one always fits. */
    method Save(s: State, ghost list: seq<Content>, ghost ids: set<u32>) returns (status: Status)
      requires Valid() && ready
      requires SnapshotCodec.Valid(s) ==> Ranks(s.accounts, list)
      requires forall id :: id in ids ==> id < s.nextId
      requires forall i :: 0 <= i < |s.accounts| ==> s.accounts[i].id in ids
      modifies this
      ensures Valid() && ready
      ensures status == Ok ==> state == s && ranking == list && ever == ids
      ensures status != Ok ==> Unchanged()
      ensures status in {InvalidArgument, Full} ==> !SnapshotCodec.Valid(s)
      ensures status in {Ok, InvalidArgument, Full, Io}
    {
      hide EncodeState, SnapshotCodec.Valid;
      var ok := ValidateState(s);
      if !ok { return InvalidArgument; }
      ValidStatesFit(s);
      var encoded := EncodeState(s);
      if |encoded| > MAX_SNAPSHOT { return Full; }
      var failed: bool := *;
      if failed { return Io; }
      blob := encoded;
      state, ranking, ever := s, list, ids;
      status := Ok;
    }

    method Find(accounts: seq<Record>, id: u32) returns (at: nat)
      ensures at <= |accounts| && (at < |accounts| ==> accounts[at].id == id)
      ensures forall i :: 0 <= i < at ==> accounts[i].id != id
    {
      at := 0;
      while at < |accounts| && accounts[at].id != id
        invariant at <= |accounts| && forall i :: 0 <= i < at ==> accounts[i].id != id
      {
        at := at + 1;
      }
    }

    /** The accounts in the user's order. */
    method ListAccounts() returns (status: Status, list: seq<Content>)
      requires Valid()
      ensures status == Ok ==> ready && list == ranking
    {
      hide EncodeState;
      list := [];
      var s;
      status, s := Load();
      if status != Ok { return; }
      var sorted := SortByOrder(s.accounts);
      assert |sorted| == |s.accounts| by { assert |multiset(sorted)| == |multiset(s.accounts)|; }
      forall k | 0 <= k < |sorted| ensures sorted[k].order == k && Strip(sorted[k]) == ranking[k] {
        SortedIsRanked(s.accounts, sorted, ranking, k);
      }
      list := seq(|sorted|, k requires 0 <= k < |sorted| => Strip(sorted[k]));
    }

    method AddAccount(d: Draft) returns (status: Status, id: u32)
      requires Valid()
      modifies this
      ensures Valid() && NoIdReused()
      ensures status == Ok ==> ranking == old(ranking) + [Named(d, id)] && id == old(state).nextId && ever == old(ever) + {id}
      ensures status != Ok ==> Unchanged()
      ensures status == InvalidArgument ==> !DraftValid(d)
    {
      hide EncodeState, SnapshotCodec.Valid;
      id := 0;
      if !ready { return NotReady, 0; }
      if !DraftValid(d) { return InvalidArgument, 0; }
      var s;
      status, s := Load();
      if status != Ok { return; }
      if |s.accounts| >= MAX_ACCOUNTS || s.nextId == 0 || s.nextId == MAX_U32 { return Full, 0; }
      AddKeepsValid(s, ranking, d);
      status := Save(Added(s, d), ranking + [Named(d, s.nextId)], ever + {s.nextId});
      if status == Ok { id := s.nextId; }
    }

    method UpdateAccount(id: u32, d: Draft) returns (status: Status)
      requires Valid()
      modifies this
      ensures Valid() && ever == old(ever)
      ensures status == Ok ==> exists o :: Edited(old(ranking), ranking, o) && old(ranking)[o].id == id && ranking[o] == Named(d, id)
      ensures status != Ok ==> Unchanged()
      ensures status == NotFound ==> !ListsId(ranking, id)
      ensures status == InvalidArgument ==> id == 0 || !DraftValid(d)
    {
      if !ready { return NotReady; }
      if id == 0 || !DraftValid(d) { return InvalidArgument; }
      status := Edit(id, Some(d), []);
    }

    method RenameAccount(id: u32, displayName: Text) returns (status: Status)
      requires Valid()
      modifies this
      ensures Valid() && ever == old(ever)
      ensures status == Ok ==> exists o :: Edited(old(ranking), ranking, o) && old(ranking)[o].id == id
                                           && ranking[o] == old(ranking)[o].(displayName := displayName)
      ensures status != Ok ==> Unchanged()
      ensures status == NotFound ==> !ListsId(ranking, id)
      ensures status == InvalidArgument ==> id == 0 || |displayName| > MAX_DISPLAY_NAME
    {
      if !ready { return NotReady; }
      if id == 0 || |displayName| > MAX_DISPLAY_NAME { return InvalidArgument; }
      status := Edit(id, None, displayName);
    }

    /** Finds one account and changes its content in place. */
    method Edit(id: u32, d: Option<Draft>, displayName: Text) returns (status: Status)
      requires Valid() && ready
      requires if d.Some? then DraftValid(d.value) else |displayName| <= MAX_DISPLAY_NAME
      modifies this
      ensures Valid() && ever == old(ever)
      ensures status == Ok ==>
                exists o :: Edited(old(ranking), ranking, o) && old(ranking)[o].id == id &&
                            ranking[o] == if d.Some? then Named(d.value, id) else old(ranking)[o].(displayName := displayName)
      ensures status != Ok ==> Unchanged()
      ensures status in {Ok, NotFound, NotReady, Io} && (status == NotFound ==> !ListsId(ranking, id))
    {
      hide EncodeState;
      var s;
      status, s := Load();
      if status != Ok { return; }
      var at := Find(s.accounts, id);
      if at == |s.accounts| {
        AbsentIsUnranked(s.accounts, ranking, id);
        return NotFound;
      }
      var r := s.accounts[at];
      var edited := if d.Some? then NewRecord(d.value, r.id, r.order) else r.(displayName := displayName);
      ChangeKeepsValid(s, ranking, at, edited);
      ghost var list := ranking[r.order := Strip(edited)];
      assert Edited(ranking, list, r.order as int);
      status := Save(Changed(s, at, edited), list, ever);
    }

    method DeleteAccount(id: u32) returns (status: Status)
      requires Valid()
      modifies this
      ensures Valid() && ever == old(ever)
      ensures status == Ok ==>
                && ListsId(old(ranking), id) && ranking == Without(old(ranking), id)
                && state.lastUsedId == if old(state).lastUsedId == id then 0 else old(state).lastUsedId
      ensures status != Ok ==> Unchanged()
      ensures status == InvalidArgument ==> id == 0
      ensures status == NotFound ==> !ListsId(ranking, id)
    {
      hide EncodeState;
      if !ready { return NotReady; }
      if id == 0 { return InvalidArgument; }
      var s;
      status, s := Load();
      if status != Ok { return; }
      var at := Find(s.accounts, id);
      if at == |s.accounts| {
        AbsentIsUnranked(s.accounts, ranking, id);
        return NotFound;
      }
      var rest := s.accounts[..at] + s.accounts[at + 1..];
      var sorted := SortByOrder(rest);
      assert |sorted| == |rest| by { assert |multiset(sorted)| == |multiset(rest)|; }
      DeleteRanks(s.accounts, ranking, at, sorted);
      DeleteKeepsValid(s, ranking, at, sorted);
      assert ranking[s.accounts[at].order].id == id;
      forall k | 0 <= k < |sorted| ensures Renumbered(sorted)[k].id in ever {
        var i := SortedRest(s.accounts, at, sorted, k);
      }
      status := Save(Deleted(s, id, sorted), Without(ranking, id), ever);
    }

    method ReorderAccounts(ids: seq<u32>) returns (status: Status)
      requires Valid()
      modifies this
      ensures Valid() && ever == old(ever)
      ensures status == Ok ==> IdsOf(ranking) == ids && forall o :: 0 <= o < |ranking| ==> ranking[o] in old(ranking)
      ensures status != Ok ==> Unchanged()
      ensures status == InvalidArgument ==> !Rearranges(ids, ranking)
    {
      hide EncodeState;
      var s;
      status, s := Load();
      if status != Ok { return; }
      if |ids| != |s.accounts| { return InvalidArgument; }
      var now := s.accounts;
      var seen := new bool[|now|](_ => false);
      ghost var placed: seq<nat> := [];
      var order := 0;
      while order < |ids|
        modifies seen
        invariant 0 <= order <= |ids| && |placed| == order && Placing(s.accounts, now, ids, placed)
        invariant forall i :: 0 <= i < |now| ==> (seen[i] <==> IsPlaced(placed, i))
      {
        var at := Find(now, ids[order]);
        if at == |now| {
          AbsentIsUnranked(s.accounts, ranking, ids[order]);
          return InvalidArgument;
        }
        if seen[at] {
          ghost var o :| 0 <= o < |placed| && placed[o] == at;
          assert ids[o] == ids[order];
          return InvalidArgument;
        }
        assert forall o :: 0 <= o < |placed| ==> placed[o] != at by {
          forall o | 0 <= o < |placed| ensures placed[o] != at { assert IsPlaced(placed, placed[o]); }
        }
        PlaceOneMore(s.accounts, now, ids, placed, at);
        PlacedGrows(placed, at);
        seen[at] := true;
        now := now[at := now[at].(order := order)];
        placed := placed + [at];
        order := order + 1;
      }
      ReorderKeepsValid(s, ranking, now, ids, placed);
      status := Save(s.(accounts := now), Placed(s.accounts, placed), ever);
    }

    method SetLastUsed(id: u32) returns (status: Status)
      requires Valid()
      modifies this
      ensures Valid() && ever == old(ever) && ranking == old(ranking)
      ensures status == Ok ==> state == old(state).(lastUsedId := id) && ListsId(ranking, id)
      ensures status != Ok ==> Unchanged()
      ensures status == NotFound ==> !ListsId(ranking, id)
    {
      hide EncodeState;
      if !ready { return NotReady; }
      if id == 0 { return InvalidArgument; }
      var s;
      status, s := Load();
      if status != Ok { return; }
      var at := Find(s.accounts, id);
      if at == |s.accounts| {
        AbsentIsUnranked(s.accounts, ranking, id);
        return NotFound;
      }
      assert ranking[s.accounts[at].order].id == id;
      status := Save(s.(lastUsedId := id), ranking, ever);
    }

    /** Setting the Wi-Fi credentials; empty strings stand for clearing them. */
    method SetWifi(ssid: Text, password: Text, clearing: bool) returns (status: Status)
      requires Valid() && (clearing ==> ssid == [] && password == [])
      modifies this
      ensures Valid() && ever == old(ever) && ranking == old(ranking)
      ensures status == Ok ==> state == old(state).(ssid := ssid, password := password)
      ensures status != Ok ==> Unchanged()
      ensures status == InvalidArgument <==>
                && ready && !clearing
                && !(0 < |ssid| <= MAX_SSID && 0 < |password| <= MAX_WIFI_PASSWORD)
    {
      hide EncodeState;
      if !ready { return NotReady; }
      if !clearing && (ssid == [] || |ssid| > MAX_SSID || password == [] || |password| > MAX_WIFI_PASSWORD) {
        return InvalidArgument;
      }
      var s;
      status, s := Load();
      if status != Ok { return; }
      status := Save(s.(ssid := ssid, password := password), ranking, ever);
    }

    /** All accounts at once: fresh ids in a row, unless ids or places run out. */
    method ReplaceAccounts(drafts: seq<Draft>) returns (status: Status)
      requires Valid()
      modifies this
      ensures Valid() && NoIdReused()
      ensures status == Ok ==> old(state).nextId + |drafts| <= MAX_U32 && ranking == Issued(drafts, old(state).nextId)
      ensures status != Ok ==> Unchanged()
      ensures status == InvalidArgument ==> !AllDraftsValid(drafts)
      ensures status == Full ==> |drafts| > MAX_ACCOUNTS || state.nextId + |drafts| > MAX_U32
    {
      hide EncodeState, SnapshotCodec.Valid, Ranks;
      if !ready { return NotReady; }
      if |drafts| > MAX_ACCOUNTS { return Full; }
      var checked := 0;
      while checked < |drafts|
        invariant 0 <= checked <= |drafts| && forall i :: 0 <= i < checked ==> DraftValid(drafts[i])
      {
        if !DraftValid(drafts[checked]) { return InvalidArgument; }
        checked := checked + 1;
      }
      var s;
      status, s := Load();
      if status != Ok { return; }
      NextIdCounts(s);
      ghost var first: nat := s.nextId;
      ghost var ids := ever;
      var next := s.nextId;
      var accounts: seq<Record> := [];
      var index := 0;
      while index < |drafts|
        invariant 0 <= index <= |drafts| && next == first + index <= MAX_U32
        invariant accounts == NewRecords(drafts[..index], first)
        invariant forall id :: id in ids ==> id < next && (id in ever || first <= id)
        invariant ever <= ids && forall i :: 0 <= i < |accounts| ==> accounts[i].id in ids
      {
        if next == 0 || next == MAX_U32 { return Full; }
        accounts := accounts + [NewRecord(drafts[index], next, index)];
        ids := ids + {next};
        next := next + 1;
        index := index + 1;
      }
      assert drafts[..index] == drafts;
      ReplaceKeepsValid(s, drafts);
      status := Save(State(next, 0, s.ssid, s.password, accounts), Issued(drafts, first), ids);
    }

    /** Boot: an empty partition is given a fresh state, anything else must decode. */
    method Initialize() returns (status: Status)
      requires Valid()
      modifies this
      ensures Valid() && (ready <==> status == Ok)
      ensures old(blob) != [] ==> Unchanged() && blob == old(blob)
      ensures old(blob) == [] && status == Ok ==> state == FRESH && ranking == [] && ever == {}
    {
      hide EncodeState;
      ready := false;
      if blob == [] {
        var failed: bool := *;
        if failed { return Io; }
        ValidStatesFit(FRESH);
        blob := EncodeState(FRESH);
        state, ranking, ever := FRESH, [], {};
      }
      ready := true;
      var s;
      status, s := Load();
      ready := status == Ok;
    }

    method FactoryReset() returns (status: Status)
      requires Valid()
      modifies this
      ensures Valid() && (ready <==> status == Ok)
      ensures status == Ok ==> state == FRESH && ranking == [] && ever == {}
    {
      var failed: bool := *;
      if failed {
        ready := false;
        return Io;
      }
      blob, ready := [], false;
      status := Initialize();
    }
  }

  /** Only entry `o` differs, and its id stays. */
  ghost predicate Edited(before: seq<Content>, after: seq<Content>, o: int) {
    && |after| == |before| && 0 <= o < |before| && after[o].id == before[o].id
    && forall p :: 0 <= p < |before| && p != o ==> after[p] == before[p]
  }

  lemma PlacedGrows(placed: seq<nat>, at: nat)
    ensures forall i: nat :: IsPlaced(placed + [at], i) <==> IsPlaced(placed, i) || i == at
  {
    var longer := placed + [at];
    forall i: nat ensures IsPlaced(longer, i) <==> IsPlaced(placed, i) || i == at {
      if IsPlaced(placed, i) {
        var o :| 0 <= o < |placed| && placed[o] == i;
        assert longer[o] == i;
      }
      assert longer[|placed|] == at;
    }
  }

  lemma AbsentIsUnranked(accounts: seq<Record>, list: seq<Content>, id: u32)
    requires OrdersPermute(accounts) && Ranks(accounts, list) && forall i :: 0 <= i < |accounts| ==> accounts[i].id != id
    ensures !ListsId(list, id)
  {
    forall o | 0 <= o < |list| ensures list[o].id != id {
      OrdersCover(accounts, o);
      var i :| 0 <= i < |accounts| && accounts[i].order == o;
      assert list[o] == Strip(accounts[i]);
    }
  }

  lemma SortedIsRanked(accounts: seq<Record>, sorted: seq<Record>, list: seq<Content>, k: nat)
    requires OrdersPermute(accounts) && Ranks(accounts, list) && StrictlySorted(sorted)
    requires multiset(sorted) == multiset(accounts) && |sorted| == |accounts| && k < |sorted|
    ensures sorted[k].order == k && Strip(sorted[k]) == list[k]
  {
    forall j | 0 <= j < |sorted| ensures sorted[j].order < |sorted| && list[sorted[j].order] == Strip(sorted[j]) {
      assert sorted[j] in multiset(accounts);
      var i :| 0 <= i < |accounts| && accounts[i] == sorted[j];
    }
    SortedPermutation(sorted, k);
  }
}
