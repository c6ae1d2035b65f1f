/** The account store's snapshot: what a valid state is, and its byte encoding and decoding. */
module SnapshotCodec {
  import opened Vocabulary
  import opened Bytes

  const MAX_ACCOUNTS: nat := 32
  const MAX_ISSUER: nat := 96
  const MAX_ACCOUNT: nat := 128
  const MAX_DISPLAY_NAME: nat := 96
  const MAX_SECRET: nat := 256
  const MAX_SSID: nat := 32
  const MAX_WIFI_PASSWORD: nat := 64
  const MAX_SNAPSHOT: nat := 64 * 1024

  type u16 = x: int | 0 <= x < 0x1_0000
  type Text = seq<byte>

  datatype Record = Record(id: u32, order: u16, issuer: Text, account: Text, displayName: Text, secret: Text)

  datatype State = State(nextId: u32, lastUsedId: u32, ssid: Text, password: Text, accounts: seq<Record>)

  predicate RecordFits(r: Record) {
    && |r.issuer| <= MAX_ISSUER && |r.account| <= MAX_ACCOUNT && |r.displayName| <= MAX_DISPLAY_NAME
    && |r.secret| <= MAX_SECRET
  }

  predicate RecordValid(r: Record) {
    RecordFits(r) && r.secret != [] && r.id != 0
  }

  predicate DistinctIds(accounts: seq<Record>) {
    forall i, j :: 0 <= i < j < |accounts| ==> accounts[i].id != accounts[j].id
  }

  /** The orders are a permutation of 0 to n-1. */
  predicate OrdersPermute(accounts: seq<Record>) {
    && (forall i :: 0 <= i < |accounts| ==> accounts[i].order < |accounts|)
    && (forall i, j :: 0 <= i < j < |accounts| ==> accounts[i].order != accounts[j].order)
  }

  predicate HasId(accounts: seq<Record>, id: u32) {
    exists i :: 0 <= i < |accounts| && accounts[i].id == id
  }

  predicate Valid(s: State) {
    && |s.accounts| <= MAX_ACCOUNTS && |s.ssid| <= MAX_SSID && |s.password| <= MAX_WIFI_PASSWORD && s.nextId != 0
    && (forall i :: 0 <= i < |s.accounts| ==> RecordValid(s.accounts[i]) && s.accounts[i].id < s.nextId)
    && DistinctIds(s.accounts) && OrdersPermute(s.accounts)
    && (s.lastUsedId == 0 || HasId(s.accounts, s.lastUsedId))
  }

  /** The id set after `k` accounts, all of them distinct and none zero. */
  ghost predicate IdsSeen(accounts: seq<Record>, k: nat, ids: set<u32>) {
    && k <= |accounts| && DistinctIds(accounts[..k])
    && (forall i :: 0 <= i < k ==> accounts[i].id in ids && accounts[i].id != 0)
    && (forall id :: id in ids ==> HasId(accounts[..k], id))
  }

  ghost predicate OrdersSeen(accounts: seq<Record>, k: nat, flags: seq<bool>) {
    && k <= |accounts| == |flags|
    && (forall i :: 0 <= i < k ==> accounts[i].order < |flags| && flags[accounts[i].order])
    && (forall o :: 0 <= o < |flags| && flags[o] ==> HasOrder(accounts, k, o))
    && (forall i, j :: 0 <= i < j < k ==> accounts[i].order != accounts[j].order)
  }

  ghost predicate HasOrder(accounts: seq<Record>, k: nat, order: nat) {
    exists i :: 0 <= i < k <= |accounts| && accounts[i].order == order
  }

  /** `maxId` bounds the ids and is one of them, unless there are none. */
  ghost predicate MaxSeen(accounts: seq<Record>, k: nat, maxId: u32) {
    && k <= |accounts|
    && (forall i :: 0 <= i < k ==> accounts[i].id <= maxId)
    && (maxId == 0 || HasId(accounts[..k], maxId))
  }

  lemma HasIdExtends(accounts: seq<Record>, k: nat, id: u32)
    requires k < |accounts|
    ensures HasId(accounts[..k + 1], id) <==> HasId(accounts[..k], id) || accounts[k].id == id
  {
    var shorter, longer := accounts[..k], accounts[..k + 1];
    if i :| 0 <= i < |shorter| && shorter[i].id == id { assert longer[i].id == id; }
    if i :| 0 <= i < |longer| && longer[i].id == id { assert i < k ==> shorter[i].id == id; }
    assert longer[k] == accounts[k];
  }

  lemma IdSeen(accounts: seq<Record>, k: nat, ids: set<u32>)
    requires IdsSeen(accounts, k, ids) && k < |accounts| && accounts[k].id != 0
    ensures accounts[k].id !in ids ==> IdsSeen(accounts, k + 1, ids + {accounts[k].id})
    ensures accounts[k].id in ids ==> !DistinctIds(accounts)
  {
    forall id | id in ids + {accounts[k].id} ensures HasId(accounts[..k + 1], id) { HasIdExtends(accounts, k, id); }
    if accounts[k].id in ids {
      var i :| 0 <= i < k && accounts[..k][i].id == accounts[k].id;
      assert accounts[i].id == accounts[k].id;
    } else {
      var shorter, longer := accounts[..k], accounts[..k + 1];
      forall i, j | 0 <= i < j < |longer| ensures longer[i].id != longer[j].id {
        if j < k { assert shorter[i].id != shorter[j].id; }
      }
    }
  }

  lemma OrderSeen(accounts: seq<Record>, k: nat, flags: seq<bool>)
    requires OrdersSeen(accounts, k, flags) && k < |accounts| && accounts[k].order < |flags|
    ensures !flags[accounts[k].order] ==> OrdersSeen(accounts, k + 1, flags[accounts[k].order := true])
    ensures flags[accounts[k].order] ==> !OrdersPermute(accounts)
  {
    var order := accounts[k].order;
    var more := flags[order := true];
    forall o | 0 <= o < |more| && more[o] ensures HasOrder(accounts, k + 1, o) {
      if o == order {
        assert accounts[k].order == o;
      } else {
        var i :| 0 <= i < k && accounts[i].order == o;
        assert 0 <= i < k + 1;
      }
    }
    if flags[order] {
      var i :| 0 <= i < k && accounts[i].order == order;
      assert accounts[i].order == accounts[k].order;
    }
  }

  lemma MaxGrows(accounts: seq<Record>, k: nat, maxId: u32)
    requires MaxSeen(accounts, k, maxId) && k < |accounts|
    ensures MaxSeen(accounts, k + 1, if accounts[k].id > maxId then accounts[k].id else maxId)
  {
    HasIdExtends(accounts, k, maxId);
    HasIdExtends(accounts, k, accounts[k].id);
  }

  lemma MaxBounds(accounts: seq<Record>, maxId: u32, next: u32)
    requires MaxSeen(accounts, |accounts|, maxId) && next != 0
    ensures next > maxId <==> forall i :: 0 <= i < |accounts| ==> accounts[i].id < next
  {
    if maxId != 0 {
      var i :| 0 <= i < |accounts| && accounts[..|accounts|][i].id == maxId;
      assert accounts[i].id == maxId;
    }
  }

  ghost predicate RecordsSeen(accounts: seq<Record>, k: nat) {
    k <= |accounts| && forall i :: 0 <= i < k ==> RecordValid(accounts[i])
  }

  /** Everything the pass knows after `k` accounts. */
  ghost predicate Checked(s: State, k: nat, ids: set<u32>, flags: seq<bool>, maxId: u32, found: bool) {
    && RecordsSeen(s.accounts, k) && IdsSeen(s.accounts, k, ids) && OrdersSeen(s.accounts, k, flags)
    && MaxSeen(s.accounts, k, maxId)
    && (found <==> s.lastUsedId == 0 || HasId(s.accounts[..k], s.lastUsedId))
  }

  lemma CheckedStep(s: State, k: nat, ids: set<u32>, flags: seq<bool>, maxId: u32, found: bool)
    requires Checked(s, k, ids, flags, maxId, found) && k < |s.accounts|
    requires RecordValid(s.accounts[k]) && s.accounts[k].order < |s.accounts|
    ensures var a := s.accounts[k];
            if a.id in ids || flags[a.order] then !DistinctIds(s.accounts) || !OrdersPermute(s.accounts)
            else Checked(s, k + 1, ids + {a.id}, flags[a.order := true], if a.id > maxId then a.id else maxId,
                         found || a.id == s.lastUsedId)
  {
    IdSeen(s.accounts, k, ids);
    OrderSeen(s.accounts, k, flags);
    MaxGrows(s.accounts, k, maxId);
    HasIdExtends(s.accounts, k, s.lastUsedId);
  }

  lemma CheckedAll(s: State, ids: set<u32>, flags: seq<bool>, maxId: u32, found: bool)
    requires Checked(s, |s.accounts|, ids, flags, maxId, found)
    requires |s.accounts| <= MAX_ACCOUNTS && |s.ssid| <= MAX_SSID && |s.password| <= MAX_WIFI_PASSWORD && s.nextId != 0
    ensures found && s.nextId > maxId <==> Valid(s)
  {
    assert s.accounts[..|s.accounts|] == s.accounts;
    MaxBounds(s.accounts, maxId, s.nextId);
  }

  lemma NothingChecked(s: State, flags: seq<bool>)
    requires |flags| == |s.accounts| && forall o :: 0 <= o < |flags| ==> !flags[o]
    ensures Checked(s, 0, {}, flags, 0, s.lastUsedId == 0)
  {
  }

  /** The firmware's one pass over the accounts, with its id set, order flags and maximum. */
  method ValidateState(s: State) returns (ok: bool)
    ensures ok <==> Valid(s)
  {
    var n := |s.accounts|;
    if n > MAX_ACCOUNTS || |s.ssid| > MAX_SSID || |s.password| > MAX_WIFI_PASSWORD || s.nextId == 0 { return false; }
    var ids: set<u32> := {};
    var orders := new bool[n](_ => false);
    var maxId: u32 := 0;
    var lastUsedFound := s.lastUsedId == 0;
    NothingChecked(s, orders[..]);
    for k := 0 to n
      invariant Checked(s, k, ids, orders[..], maxId, lastUsedFound)
    {
      var a := s.accounts[k];
      if !RecordFits(a) || a.secret == [] || a.id == 0 || a.order >= n { return false; }
      CheckedStep(s, k, ids, orders[..], maxId, lastUsedFound);
      if a.id in ids || orders[a.order] { return false; }
      ghost var flags := orders[..][a.order := true];
      ids := ids + {a.id};
      orders[a.order] := true;
      assert orders[..] == flags;
      if a.id > maxId { maxId := a.id; }
      if a.id == s.lastUsedId { lastUsedFound := true; }
    }
    CheckedAll(s, ids, orders[..], maxId, lastUsedFound);
    ok := lastUsedFound && s.nextId > maxId;
  }

  // ----- the encoding -----

  const MAGIC: seq<byte> := [77, 53, 65, 83]
  const FORMAT: nat := 1

  function EncodeText(t: Text): seq<byte> {
    LittleEndian(|t|, 2) + t
  }

  /** A record followed by whatever comes after it. */
  function RecordThen(r: Record, rest: seq<byte>): seq<byte> {
    LittleEndian(r.id, 4) + (LittleEndian(r.order, 2) + TextsThen(r, rest))
  }

  function TextsThen(r: Record, rest: seq<byte>): seq<byte> {
    EncodeText(r.issuer) + (EncodeText(r.account) + (EncodeText(r.displayName) + (EncodeText(r.secret) + rest)))
  }

  function RecordsThen(rs: seq<Record>, rest: seq<byte>): seq<byte> {
    if rs == [] then rest else RecordThen(rs[0], RecordsThen(rs[1..], rest))
  }

  function HeaderThen(s: State, rest: seq<byte>): seq<byte> {
    MAGIC + (LittleEndian(FORMAT, 2) + (LittleEndian(0, 2) + (LittleEndian(s.nextId, 4)
      + (LittleEndian(s.lastUsedId, 4) + (LittleEndian(|s.accounts|, 2) + (EncodeText(s.ssid) + (EncodeText(s.password) + rest)))))))
  }

  function EncodeState(s: State): seq<byte> {
    HeaderThen(s, RecordsThen(s.accounts, []))
  }

  // ----- reading it back: each parser takes its encoding off the front, and only that -----

  datatype Parsed<T> = Parsed(value: T, rest: seq<byte>)

  function ParseNumber(b: seq<byte>, w: nat): Option<Parsed<nat>> {
    if |b| < w then None else Some(Parsed(LittleValue(b[..w]), b[w..]))
  }

  function ParseText(b: seq<byte>, max: nat): Option<Parsed<Text>> {
    var n := ParseNumber(b, 2);
    if n.None? || n.value.value > max || n.value.value > |n.value.rest| then None
    else Some(Parsed(n.value.rest[..n.value.value], n.value.rest[n.value.value..]))
  }

  lemma NumberParses(n: nat, w: nat, rest: seq<byte>)
    requires n < Pow256(w)
    ensures ParseNumber(LittleEndian(n, w) + rest, w) == Some(Parsed(n, rest))
  {
    LittleRoundTrip(n, w);
    var b := LittleEndian(n, w) + rest;
    assert b[..w] == LittleEndian(n, w) && b[w..] == rest;
  }

  lemma ParsedNumber(b: seq<byte>, w: nat)
    requires ParseNumber(b, w).Some?
    ensures var p := ParseNumber(b, w).value; b == LittleEndian(p.value, w) + p.rest && p.value < Pow256(w)
  {
    hide LittleValue, LittleEndian, Pow256;
    FrontNumber(b[..w], b[w..]);
    assert b == b[..w] + b[w..];
  }

  lemma FrontNumber(front: seq<byte>, rest: seq<byte>)
    ensures LittleEndian(LittleValue(front), |front|) + rest == front + rest
  {
    LittleIsCanonical(front);
  }

  lemma TextParses(t: Text, max: nat, rest: seq<byte>)
    requires |t| <= max < 0x1_0000
    ensures ParseText(EncodeText(t) + rest, max) == Some(Parsed(t, rest))
  {
    assert Pow256(2) == 0x1_0000;
    NumberParses(|t|, 2, t + rest);
    assert EncodeText(t) + rest == LittleEndian(|t|, 2) + (t + rest);
    assert (t + rest)[..|t|] == t && (t + rest)[|t|..] == rest;
  }

  lemma ParsedText(b: seq<byte>, max: nat)
    requires ParseText(b, max).Some?
    ensures var p := ParseText(b, max).value; b == EncodeText(p.value) + p.rest && |p.value| <= max
  {
    ParsedNumber(b, 2);
    var n := ParseNumber(b, 2).value;
    assert n.rest == n.rest[..n.value] + n.rest[n.value..];
    assert b == EncodeText(n.rest[..n.value]) + n.rest[n.value..];
  }

  function ParseTexts(id: u32, order: u16, b: seq<byte>): Option<Parsed<Record>> {
    var issuer := ParseText(b, MAX_ISSUER);
    if issuer.None? then None else
    var account := ParseText(issuer.value.rest, MAX_ACCOUNT);
    if account.None? then None else
    var displayName := ParseText(account.value.rest, MAX_DISPLAY_NAME);
    if displayName.None? then None else
    var secret := ParseText(displayName.value.rest, MAX_SECRET);
    if secret.None? then None else
    Some(Parsed(Record(id, order, issuer.value.value, account.value.value, displayName.value.value, secret.value.value),
                secret.value.rest))
  }

  lemma TextsParse(r: Record, rest: seq<byte>)
    requires RecordFits(r)
    ensures ParseTexts(r.id, r.order, TextsThen(r, rest)) == Some(Parsed(r, rest))
  {
    TextParses(r.secret, MAX_SECRET, rest);
    var last := EncodeText(r.secret) + rest;
    TextParses(r.displayName, MAX_DISPLAY_NAME, last);
    var more := EncodeText(r.displayName) + last;
    TextParses(r.account, MAX_ACCOUNT, more);
    TextParses(r.issuer, MAX_ISSUER, EncodeText(r.account) + more);
  }

  lemma ParsedTexts(id: u32, order: u16, b: seq<byte>)
    requires ParseTexts(id, order, b).Some?
    ensures var p := ParseTexts(id, order, b).value;
            b == TextsThen(p.value, p.rest) && RecordFits(p.value) && p.value.id == id && p.value.order == order
  {
    ParsedText(b, MAX_ISSUER);
    var issuer := ParseText(b, MAX_ISSUER).value;
    ParsedText(issuer.rest, MAX_ACCOUNT);
    var account := ParseText(issuer.rest, MAX_ACCOUNT).value;
    ParsedText(account.rest, MAX_DISPLAY_NAME);
    var displayName := ParseText(account.rest, MAX_DISPLAY_NAME).value;
    ParsedText(displayName.rest, MAX_SECRET);
  }

  lemma Widths()
    ensures Pow256(2) == 0x1_0000 && Pow256(4) == MAX_U32 + 1
  {
  }

  function ParseRecord(b: seq<byte>): Option<Parsed<Record>> {
    Widths();
    var id := ParseNumber(b, 4);
    if id.None? then None else
    var order := ParseNumber(id.value.rest, 2);
    if order.None? then None else
    ParseTexts(id.value.value, order.value.value, order.value.rest)
  }

  lemma RecordParses(r: Record, rest: seq<byte>)
    requires RecordFits(r)
    ensures ParseRecord(RecordThen(r, rest)) == Some(Parsed(r, rest))
  {
    Widths();
    TextsParse(r, rest);
    NumberParses(r.order, 2, TextsThen(r, rest));
    NumberParses(r.id, 4, LittleEndian(r.order, 2) + TextsThen(r, rest));
  }

  lemma ParsedRecord(b: seq<byte>)
    requires ParseRecord(b).Some?
    ensures var p := ParseRecord(b).value; b == RecordThen(p.value, p.rest) && RecordFits(p.value)
  {
    Widths();
    ParsedNumber(b, 4);
    var id := ParseNumber(b, 4).value;
    ParsedNumber(id.rest, 2);
    var order := ParseNumber(id.rest, 2).value;
    ParsedTexts(id.value, order.value, order.rest);
  }

  function ParseRecords(b: seq<byte>, n: nat): Option<Parsed<seq<Record>>> {
    if n == 0 then Some(Parsed([], b)) else
    var first := ParseRecord(b);
    if first.None? then None else
    var others := ParseRecords(first.value.rest, n - 1);
    if others.None? then None else Some(Parsed([first.value.value] + others.value.value, others.value.rest))
  }

  predicate AllFit(rs: seq<Record>) {
    forall i :: 0 <= i < |rs| ==> RecordFits(rs[i])
  }

  lemma {:induction false} RecordsParse(rs: seq<Record>, rest: seq<byte>)
    requires AllFit(rs)
    ensures ParseRecords(RecordsThen(rs, rest), |rs|) == Some(Parsed(rs, rest))
  {
    hide ParseRecord, RecordThen, RecordFits;
    if rs != [] {
      RecordParses(rs[0], RecordsThen(rs[1..], rest));
      RecordsParse(rs[1..], rest);
      assert [rs[0]] + rs[1..] == rs;
    }
  }

  lemma {:induction false} ParsedRecords(b: seq<byte>, n: nat)
    requires ParseRecords(b, n).Some?
    ensures var p := ParseRecords(b, n).value; b == RecordsThen(p.value, p.rest) && AllFit(p.value) && |p.value| == n
    decreases n
  {
    hide ParseRecord, RecordThen, RecordFits;
    if n > 0 {
      ParsedRecord(b);
      var first := ParseRecord(b).value;
      ParsedRecords(first.rest, n - 1);
      var others := ParseRecords(first.rest, n - 1).value;
      assert ([first.value] + others.value)[1..] == others.value;
    }
  }

  datatype Header = Header(nextId: u32, lastUsedId: u32, count: nat, ssid: Text, password: Text)

  /** The fixed part: magic, format and reserved field must match, the count is bounded. */
  function ParseHeader(b: seq<byte>): Option<Parsed<Header>> {
    if |b| < 4 || b[..4] != MAGIC then None else
    var format := ParseNumber(b[4..], 2);
    if format.None? || format.value.value != FORMAT then None else
    var reserved := ParseNumber(format.value.rest, 2);
    if reserved.None? || reserved.value.value != 0 then None else
    ParseCounters(reserved.value.rest)
  }

  function ParseCounters(b: seq<byte>): Option<Parsed<Header>> {
    Widths();
    var nextId := ParseNumber(b, 4);
    if nextId.None? then None else
    var lastUsedId := ParseNumber(nextId.value.rest, 4);
    if lastUsedId.None? then None else
    var count := ParseNumber(lastUsedId.value.rest, 2);
    if count.None? || count.value.value > MAX_ACCOUNTS then None else
    var ssid := ParseText(count.value.rest, MAX_SSID);
    if ssid.None? then None else
    var password := ParseText(ssid.value.rest, MAX_WIFI_PASSWORD);
    if password.None? then None else
    Some(Parsed(Header(nextId.value.value, lastUsedId.value.value, count.value.value, ssid.value.value, password.value.value),
                password.value.rest))
  }

  function CountersThen(h: Header, rest: seq<byte>): seq<byte> {
    LittleEndian(h.nextId, 4) + (LittleEndian(h.lastUsedId, 4) + (LittleEndian(h.count, 2)
      + (EncodeText(h.ssid) + (EncodeText(h.password) + rest))))
  }

  predicate HeaderFits(h: Header) {
    h.count <= MAX_ACCOUNTS && |h.ssid| <= MAX_SSID && |h.password| <= MAX_WIFI_PASSWORD
  }

  lemma CountersParse(h: Header, rest: seq<byte>)
    requires HeaderFits(h)
    ensures ParseCounters(CountersThen(h, rest)) == Some(Parsed(h, rest))
  {
    Widths();
    TextParses(h.password, MAX_WIFI_PASSWORD, rest);
    var last := EncodeText(h.password) + rest;
    TextParses(h.ssid, MAX_SSID, last);
    var texts := EncodeText(h.ssid) + last;
    NumberParses(h.count, 2, texts);
    var counted := LittleEndian(h.count, 2) + texts;
    NumberParses(h.lastUsedId, 4, counted);
    NumberParses(h.nextId, 4, LittleEndian(h.lastUsedId, 4) + counted);
  }

  lemma ParsedCounters(b: seq<byte>)
    requires ParseCounters(b).Some?
    ensures var p := ParseCounters(b).value; b == CountersThen(p.value, p.rest) && HeaderFits(p.value)
  {
    Widths();
    ParsedNumber(b, 4);
    var nextId := ParseNumber(b, 4).value;
    ParsedNumber(nextId.rest, 4);
    var lastUsedId := ParseNumber(nextId.rest, 4).value;
    ParsedNumber(lastUsedId.rest, 2);
    var count := ParseNumber(lastUsedId.rest, 2).value;
    ParsedText(count.rest, MAX_SSID);
    var ssid := ParseText(count.rest, MAX_SSID).value;
    ParsedText(ssid.rest, MAX_WIFI_PASSWORD);
  }

  function HeaderOf(s: State): Header {
    Header(s.nextId, s.lastUsedId, |s.accounts|, s.ssid, s.password)
  }

  lemma HeaderParses(s: State, rest: seq<byte>)
    requires HeaderFits(HeaderOf(s))
    ensures ParseHeader(HeaderThen(s, rest)) == Some(Parsed(HeaderOf(s), rest))
  {
    Widths();
    var h := CountersThen(HeaderOf(s), rest);
    CountersParse(HeaderOf(s), rest);
    NumberParses(0, 2, h);
    var reserved := LittleEndian(0, 2) + h;
    NumberParses(FORMAT, 2, reserved);
    var format := LittleEndian(FORMAT, 2) + reserved;
    assert (MAGIC + format)[..4] == MAGIC && (MAGIC + format)[4..] == format;
  }

  lemma ParsedHeader(b: seq<byte>, accounts: seq<Record>)
    requires ParseHeader(b).Some? && ParseHeader(b).value.value.count == |accounts|
    ensures var p := ParseHeader(b).value; var h := p.value;
            b == HeaderThen(State(h.nextId, h.lastUsedId, h.ssid, h.password, accounts), p.rest) && HeaderFits(h)
  {
    assert b == MAGIC + b[4..];
    ParsedNumber(b[4..], 2);
    var format := ParseNumber(b[4..], 2).value;
    ParsedNumber(format.rest, 2);
    ParsedCounters(ParseNumber(format.rest, 2).value.rest);
  }

  /** The decoder: nothing left over, and the result must itself be valid. */
  function ParseState(b: seq<byte>): Option<State> {
    if |b| == 0 || |b| > MAX_SNAPSHOT then None else
    var header := ParseHeader(b);
    if header.None? then None else
    var h := header.value.value;
    var records := ParseRecords(header.value.rest, h.count);
    if records.None? || records.value.rest != [] then None else
    var s := State(h.nextId, h.lastUsedId, h.ssid, h.password, records.value.value);
    if Valid(s) then Some(s) else None
  }

  lemma {:induction false} RecordsAreShort(rs: seq<Record>)
    requires AllFit(rs)
    ensures |RecordsThen(rs, [])| <= 590 * |rs|
  {
    if rs != [] { RecordsAreShort(rs[1..]); }
  }

  /** Every valid state fits, with room to spare: the encoder never reports a full store. */
  lemma ValidStatesFit(s: State)
    requires Valid(s)
    ensures 0 < |EncodeState(s)| <= 18_998 < MAX_SNAPSHOT
  {
    RecordsAreShort(s.accounts);
  }

  /** Decoding succeeds on exactly the encodings of valid states, and inverts them. */
  lemma DecodeInvertsEncode(b: seq<byte>, s: State)
    ensures ParseState(b) == Some(s) <==> Valid(s) && b == EncodeState(s)
  {
    hide ParseHeader, HeaderThen, ParseRecords, RecordsThen;
    if Valid(s) && b == EncodeState(s) {
      ValidStatesFit(s);
      HeaderParses(s, RecordsThen(s.accounts, []));
      RecordsParse(s.accounts, []);
    }
    if ParseState(b) == Some(s) {
      var header := ParseHeader(b).value;
      ParsedRecords(header.rest, header.value.count);
      ParsedHeader(b, s.accounts);
    }
  }

  // ----- the firmware's reader and codec -----

  class Reader {
    const data: seq<byte>
    var offset: nat

    ghost predicate Valid()
      reads this
    {
      offset <= |data|
    }

    /** What has not been read yet. */
    ghost function Rest(): seq<byte>
      reads this
      requires Valid()
    {
      data[offset..]
    }

    constructor (bytes: seq<byte>)
      ensures Valid() && Rest() == bytes
    {
      data, offset := bytes, 0;
    }

    predicate CanRead(length: nat)
      reads this
    {
      offset <= |data| && length <= |data| - offset
    }

    method ReadNumber(w: nat) returns (value: Option<nat>)
      requires Valid()
      modifies this
      ensures Valid()
      ensures value.Some? ==> ParseNumber(old(Rest()), w) == Some(Parsed(value.value, Rest()))
      ensures value.None? ==> ParseNumber(old(Rest()), w).None? && Rest() == old(Rest())
      ensures value.Some? ==> value.value < Pow256(w)
    {
      if !CanRead(w) { return None; }
      assert Rest()[..w] == data[offset..offset + w] && Rest()[w..] == data[offset + w..];
      value := Some(LittleValue(data[offset..offset + w]));
      offset := offset + w;
    }

    method ReadExact(length: nat) returns (bytes: Option<seq<byte>>)
      requires Valid()
      modifies this
      ensures Valid()
      ensures bytes.Some? <==> length <= |old(Rest())|
      ensures bytes.Some? ==> bytes.value == old(Rest())[..length] && Rest() == old(Rest())[length..]
      ensures bytes.None? ==> Rest() == old(Rest())
    {
      if !CanRead(length) { return None; }
      bytes := Some(data[offset..offset + length]);
      offset := offset + length;
    }

    method ReadText(max: nat) returns (text: Option<Text>)
      requires Valid()
      modifies this
      ensures Valid()
      ensures text.Some? ==> ParseText(old(Rest()), max) == Some(Parsed(text.value, Rest()))
      ensures text.None? ==> ParseText(old(Rest()), max).None?
    {
      var length := ReadNumber(2);
      if length.None? || length.value > max { return None; }
      text := ReadExact(length.value);
    }

    predicate Finished()
      reads this
    {
      offset == |data|
    }

    method ReadRecord() returns (r: Option<Record>)
      requires Valid()
      modifies this
      ensures Valid()
      ensures r.Some? ==> ParseRecord(old(Rest())) == Some(Parsed(r.value, Rest()))
      ensures r.None? ==> ParseRecord(old(Rest())).None?
    {
      hide ParseNumber, ParseText;
      Widths();
      var id := ReadNumber(4);
      if id.None? { return None; }
      var order := ReadNumber(2);
      if order.None? { return None; }
      var issuer := ReadText(MAX_ISSUER);
      if issuer.None? { return None; }
      var account := ReadText(MAX_ACCOUNT);
      if account.None? { return None; }
      var displayName := ReadText(MAX_DISPLAY_NAME);
      if displayName.None? { return None; }
      var secret := ReadText(MAX_SECRET);
      if secret.None? { return None; }
      r := Some(Record(id.value, order.value, issuer.value, account.value, displayName.value, secret.value));
    }

    method ReadHeader() returns (h: Option<Header>)
      requires Valid()
      modifies this
      ensures Valid()
      ensures h.Some? ==> ParseHeader(old(Rest())) == Some(Parsed(h.value, Rest()))
      ensures h.None? ==> ParseHeader(old(Rest())).None?
    {
      hide ParseNumber, ParseText;
      Widths();
      var magic := ReadExact(4);
      if magic.None? || magic.value != MAGIC { return None; }
      var format := ReadNumber(2);
      if format.None? || format.value != FORMAT { return None; }
      var reserved := ReadNumber(2);
      if reserved.None? || reserved.value != 0 { return None; }
      h := ReadCounters();
    }

    method ReadCounters() returns (h: Option<Header>)
      requires Valid()
      modifies this
      ensures Valid()
      ensures h.Some? ==> ParseCounters(old(Rest())) == Some(Parsed(h.value, Rest()))
      ensures h.None? ==> ParseCounters(old(Rest())).None?
    {
      hide ParseNumber, ParseText;
      Widths();
      var nextId := ReadNumber(4);
      if nextId.None? { return None; }
      var lastUsedId := ReadNumber(4);
      if lastUsedId.None? { return None; }
      var count := ReadNumber(2);
      if count.None? || count.value > MAX_ACCOUNTS { return None; }
      var ssid := ReadText(MAX_SSID);
      if ssid.None? { return None; }
      var password := ReadText(MAX_WIFI_PASSWORD);
      if password.None? { return None; }
      h := Some(Header(nextId.value, lastUsedId.value, count.value, ssid.value, password.value));
    }
  }

  lemma NothingRead(body: seq<byte>, n: nat)
    ensures RestParses(body, n, [], body, n)
  {
    var all := ParseRecords(body, n);
    assert all.Some? ==> [] + all.value.value == all.value.value;
  }

  lemma OneMoreRead(body: seq<byte>, n: nat, read: seq<Record>, rest: seq<byte>, left: nat, r: Record, after: seq<byte>)
    requires RestParses(body, n, read, rest, left) && left > 0 && ParseRecord(rest) == Some(Parsed(r, after))
    ensures RestParses(body, n, read + [r], after, left - 1)
  {
    hide ParseRecord;
    var others := ParseRecords(after, left - 1);
    if others.Some? { assert read + ([r] + others.value.value) == (read + [r]) + others.value.value; }
  }

  /** Decodes what `EncodeState` wrote, and nothing else. */
  method DecodeState(bytes: seq<byte>) returns (s: Option<State>)
    ensures s == ParseState(bytes)
    ensures s.Some? ==> Valid(s.value) && bytes == EncodeState(s.value)
    ensures s.None? ==> forall t :: Valid(t) ==> bytes != EncodeState(t)
  {
    hide ParseHeader, ParseRecord, Valid, EncodeState;
    forall t ensures ParseState(bytes) == Some(t) <==> Valid(t) && bytes == EncodeState(t) { DecodeInvertsEncode(bytes, t); }
    if |bytes| == 0 || |bytes| > MAX_SNAPSHOT { return None; }
    var reader := new Reader(bytes);
    var header := reader.ReadHeader();
    if header.None? { return None; }
    var accounts: seq<Record> := [];
    ghost var body := reader.Rest();
    var index := 0;
    NothingRead(body, header.value.count);
    while index < header.value.count
      invariant 0 <= index <= header.value.count && reader.Valid() && fresh(reader)
      invariant RestParses(body, header.value.count, accounts, reader.Rest(), header.value.count - index)
    {
      ghost var before := reader.Rest();
      var r := reader.ReadRecord();
      if r.None? { return None; }
      OneMoreRead(body, header.value.count, accounts, before, header.value.count - index, r.value, reader.Rest());
      accounts := accounts + [r.value];
      index := index + 1;
    }
    assert accounts + [] == accounts;
    if !reader.Finished() { return None; }
    var decoded := State(header.value.nextId, header.value.lastUsedId, header.value.ssid, header.value.password, accounts);
    var ok := ValidateState(decoded);
    s := if ok then Some(decoded) else None;
  }

  /** Parsing `n` records is parsing the ones already read, then the `left` that remain. */
  ghost predicate RestParses(body: seq<byte>, n: nat, read: seq<Record>, rest: seq<byte>, left: nat) {
    ParseRecords(body, n) ==
    match ParseRecords(rest, left)
    case None => None
    case Some(p) => Some(Parsed(read + p.value, p.rest))
  }
}
