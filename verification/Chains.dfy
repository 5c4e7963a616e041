/**
 * The option chain of one underlying (src/instruments/chain.cpp): contracts
 * filed by expiry, strike and type, with two more maps from id back to where
 * the id is filed.
 */
module Chains {
  import opened Types
  import OrderBooks

  datatype OptionType = Call | Put

  datatype ExpiryDate = ExpiryDate(year: U16, month: U8, day: U8)

  /** The default comparison of the struct: field by field. */
  predicate Earlier(a: ExpiryDate, b: ExpiryDate) {
    || a.year < b.year
    || (a.year == b.year && a.month < b.month)
    || (a.year == b.year && a.month == b.month && a.day < b.day)
  }

  /** A date as one number: the year counts most, then the month, then the day. */
  function DayNumber(e: ExpiryDate): nat {
    e.year * 0x1_0000 + e.month * 0x100 + e.day
  }

  lemma {:induction false} EarlierIsChronological(a: ExpiryDate, b: ExpiryDate)
    ensures Earlier(a, b) <==> DayNumber(a) < DayNumber(b)
    ensures DayNumber(a) == DayNumber(b) <==> a == b
  {
  }

  /** Where a contract is filed. */
  datatype Listing = Listing(expiry: ExpiryDate, strike: Price, kind: OptionType)

  /** By expiry, then strike, and the call before the put. */
  predicate ListedBefore(a: Listing, b: Listing) {
    || Earlier(a.expiry, b.expiry)
    || (a.expiry == b.expiry && a.strike < b.strike)
    || (a.expiry == b.expiry && a.strike == b.strike && a.kind == Call && b.kind == Put)
  }

  /** The contracts of a chain: what the three maps stand for. */
  type Contracts = map<InstrumentId, Listing>

  /** No two ids stand for the same contract. */
  predicate Injective(cs: Contracts) {
    forall i, j | i in cs && j in cs && cs[i] == cs[j] :: i == j
  }

  predicate InOrder(cs: Contracts, ids: seq<InstrumentId>) {
    && (forall i | 0 <= i < |ids| :: ids[i] in cs)
    && (forall i, j | 0 <= i < j < |ids| :: ListedBefore(cs[ids[i]], cs[ids[j]]))
  }

  /** The contracts a caller may ask for. */
  datatype Query = AtExpiry(e: ExpiryDate) | CallsAt(e: ExpiryDate) | PutsAt(e: ExpiryDate) | UpTo(date: ExpiryDate)

  predicate Matches(q: Query, x: Listing) {
    match q
    case AtExpiry(e) => x.expiry == e
    case CallsAt(e) => x.expiry == e && x.kind == Call
    case PutsAt(e) => x.expiry == e && x.kind == Put
    case UpTo(date) => !Earlier(date, x.expiry)
  }

  /** The day asked for is included. */
  lemma {:induction false} UpToIsInclusive(date: ExpiryDate, x: Listing)
    ensures Matches(UpTo(date), x) <==> DayNumber(x.expiry) <= DayNumber(date)
  {
    EarlierIsChronological(date, x.expiry);
  }

  /** Exactly the contracts asked for, in order. */
  ghost predicate Lists(cs: Contracts, ids: seq<InstrumentId>, q: Query) {
    && InOrder(cs, ids)
    && forall id {:trigger id in ids} :: id in ids <==> id in cs && Matches(q, cs[id])
  }

  /** Order and contents leave no choice: there is one such list. */
  lemma {:induction false} ListIsUnique(cs: Contracts, a: seq<InstrumentId>, b: seq<InstrumentId>, q: Query)
    requires Lists(cs, a, q) && Lists(cs, b, q)
    ensures a == b
  {
    SortedAreEqual(cs, a, b);
  }

  lemma {:induction false} SortedAreEqual(cs: Contracts, a: seq<InstrumentId>, b: seq<InstrumentId>)
    requires InOrder(cs, a) && InOrder(cs, b)
    requires forall id {:trigger id in a} {:trigger id in b} :: id in a <==> id in b
    ensures a == b
  {
    assert (a != [] ==> a[0] in b) && (b != [] ==> b[0] in a);
    if a != [] {
      HeadIsFirst(cs, a, b[0]);
      HeadIsFirst(cs, b, a[0]);
      forall id ensures id in a[1..] <==> id in b[1..] {
        TailMembers(cs, a, id);
        TailMembers(cs, b, id);
      }
      SortedAreEqual(cs, a[1..], b[1..]);
      assert a == [a[0]] + a[1..] && b == [b[0]] + b[1..];
    }
  }

  lemma {:induction false} HeadIsFirst(cs: Contracts, a: seq<InstrumentId>, id: InstrumentId)
    requires InOrder(cs, a) && id in a
    ensures id == a[0] || ListedBefore(cs[a[0]], cs[id])
  {
  }

  lemma {:induction false} TailMembers(cs: Contracts, a: seq<InstrumentId>, id: InstrumentId)
    requires InOrder(cs, a) && a != []
    ensures id in a[1..] <==> id in a && id != a[0]
  {
    assert a == [a[0]] + a[1..];
    if id in a[1..] {
      var i :| 0 <= i < |a[1..]| && a[1..][i] == id;
      assert ListedBefore(cs[a[0]], cs[a[i + 1]]);
    }
  }

  lemma {:induction false} InOrderConcat(cs: Contracts, a: seq<InstrumentId>, b: seq<InstrumentId>)
    requires InOrder(cs, a) && InOrder(cs, b)
    requires forall i, j | 0 <= i < |a| && 0 <= j < |b| :: ListedBefore(cs[a[i]], cs[b[j]])
    ensures InOrder(cs, a + b)
  {
  }

  // ---- Ordered iteration --------------------------------------------------------------

  predicate IsEarliest(keys: set<ExpiryDate>, e: ExpiryDate) {
    e in keys && forall f | f in keys :: f == e || Earlier(e, f)
  }

  lemma {:induction false} EarliestExists(keys: set<ExpiryDate>) returns (e: ExpiryDate)
    requires keys != {}
    ensures IsEarliest(keys, e)
  {
    var x :| x in keys;
    var rest := keys - {x};
    e := x;
    if rest != {} {
      var r := EarliestExists(rest);
      if Earlier(r, x) {
        e := r;
      }
    }
    forall f | f in keys ensures f == e || Earlier(e, f) {
      assert f == x || f in rest;
    }
  }

  /** The first key of a std::map<ExpiryDate, ..>. */
  function Begin(keys: set<ExpiryDate>): (e: ExpiryDate)
    requires keys != {}
    ensures IsEarliest(keys, e)
  {
    assert exists e :: IsEarliest(keys, e) by {
      var e := EarliestExists(keys);
    }
    assert forall e, f | IsEarliest(keys, e) && IsEarliest(keys, f) :: e == f;
    var e :| e in keys && IsEarliest(keys, e);
    e
  }

  // ---- Slots -----------------------------------------------------------------------------

  datatype StrikeSlot = StrikeSlot(call: Option<InstrumentId>, put: Option<InstrumentId>)

  const EmptySlot: StrikeSlot := StrikeSlot(None, None)

  type Levels = map<ExpiryDate, map<Price, StrikeSlot>>

  function SlotAt(levels: Levels, e: ExpiryDate, k: Price): StrikeSlot {
    if e in levels && k in levels[e] then levels[e][k] else EmptySlot
  }

  function Entry(slot: StrikeSlot, kind: OptionType): Option<InstrumentId> {
    if kind == Call then slot.call else slot.put
  }

  function WithEntry(slot: StrikeSlot, kind: OptionType, id: Option<InstrumentId>): StrikeSlot {
    if kind == Call then slot.(call := id) else slot.(put := id)
  }

  function At(levels: Levels, x: Listing): Option<InstrumentId> {
    Entry(SlotAt(levels, x.expiry, x.strike), x.kind)
  }

  /** No strike slot without a contract, no expiry without a strike. */
  predicate NoneEmpty(levels: Levels) {
    forall e | e in levels ::
      levels[e] != map[] && forall k | k in levels[e] :: levels[e][k] != EmptySlot
  }

  /** levels_[e][k] = slot, making room where there is none. */
  function Store(levels: Levels, e: ExpiryDate, k: Price, slot: StrikeSlot): Levels {
    var strikes: map<Price, StrikeSlot> := if e in levels then levels[e] else map[];
    levels[e := strikes[k := slot]]
  }

  /** Erasing a strike, and the expiry with its last strike. */
  function Erase(levels: Levels, e: ExpiryDate, k: Price): Levels
    requires e in levels
  {
    var strikes: map<Price, StrikeSlot> := levels[e] - {k};
    if strikes == map[] then levels - {e} else levels[e := strikes]
  }

  /** Two sets of levels that differ at most in one slot. */
  ghost predicate DifferAt(a: Levels, b: Levels, e: ExpiryDate, k: Price) {
    forall e', k' {:trigger SlotAt(b, e', k')} | e' != e || k' != k :: SlotAt(b, e', k') == SlotAt(a, e', k')
  }

  lemma {:induction false} StoredSlot(levels: Levels, e: ExpiryDate, k: Price, slot: StrikeSlot)
    ensures SlotAt(Store(levels, e, k, slot), e, k) == slot && DifferAt(levels, Store(levels, e, k, slot), e, k)
    ensures NoneEmpty(levels) && slot != EmptySlot ==> NoneEmpty(Store(levels, e, k, slot))
  {
  }

  lemma {:induction false} ErasedSlot(levels: Levels, e: ExpiryDate, k: Price)
    requires e in levels && NoneEmpty(levels)
    ensures SlotAt(Erase(levels, e, k), e, k) == EmptySlot && DifferAt(levels, Erase(levels, e, k), e, k)
    ensures NoneEmpty(Erase(levels, e, k))
  {
    assert forall k' | k' in levels[e] && k' != k :: k' in levels[e] - {k};
  }

  lemma {:induction false} StoredTwice(levels: Levels, e: ExpiryDate, k: Price, slot: StrikeSlot, slot': StrikeSlot)
    ensures Store(Store(levels, e, k, slot), e, k, slot') == Store(levels, e, k, slot')
  {
    assert Store(levels, e, k, slot)[e][k := slot'] == Store(levels, e, k, slot')[e];
  }

  /** Storing and then erasing a slot is erasing it. */
  lemma {:induction false} StoredThenErased(levels: Levels, e: ExpiryDate, k: Price, slot: StrikeSlot)
    requires e in levels
    ensures e in Store(levels, e, k, slot) && Erase(Store(levels, e, k, slot), e, k) == Erase(levels, e, k)
  {
    assert Store(levels, e, k, slot)[e] - {k} == levels[e] - {k};
  }

  /** Storing what is there already changes nothing. */
  lemma {:induction false} FiledThere(levels: Levels, x: Listing)
    requires At(levels, x).Some?
    ensures Store(levels, x.expiry, x.strike, SlotAt(levels, x.expiry, x.strike)) == levels
  {
    var strikes := levels[x.expiry];
    assert strikes[x.strike := strikes[x.strike]] == strikes;
  }

  /** The levels file exactly these contracts. */
  ghost predicate Files(levels: Levels, cs: Contracts) {
    && (forall id | id in cs :: At(levels, cs[id]) == Some(id))
    && (forall x {:trigger At(levels, x)} | At(levels, x).Some? ::
          At(levels, x).value in cs && cs[At(levels, x).value] == x)
  }

  lemma {:induction false} FilesAfterAdd(a: Levels, b: Levels, cs: Contracts, id: InstrumentId, x: Listing)
    requires Files(a, cs) && id !in cs && At(a, x) == None
    requires DifferAt(a, b, x.expiry, x.strike)
    requires SlotAt(b, x.expiry, x.strike) == WithEntry(SlotAt(a, x.expiry, x.strike), x.kind, Some(id))
    ensures Files(b, cs[id := x])
  {
    forall y ensures At(b, y) == if y == x then Some(id) else At(a, y) {
      if y.expiry != x.expiry || y.strike != x.strike {
        assert SlotAt(b, y.expiry, y.strike) == SlotAt(a, y.expiry, y.strike);
      }
    }
  }

  lemma {:induction false} FilesAfterRemove(a: Levels, b: Levels, cs: Contracts, id: InstrumentId)
    requires Files(a, cs) && id in cs
    requires DifferAt(a, b, cs[id].expiry, cs[id].strike)
    requires SlotAt(b, cs[id].expiry, cs[id].strike)
          == WithEntry(SlotAt(a, cs[id].expiry, cs[id].strike), cs[id].kind, None)
    ensures Files(b, cs - {id})
  {
    var x := cs[id];
    forall y ensures At(b, y) == if y == x then None else At(a, y) {
      if y.expiry != x.expiry || y.strike != x.strike {
        assert SlotAt(b, y.expiry, y.strike) == SlotAt(a, y.expiry, y.strike);
      }
    }
  }

  /** Each contract is filed under one id only, and found there. */
  lemma {:induction false} FiledOnce(levels: Levels, cs: Contracts)
    requires Files(levels, cs)
    ensures Injective(cs)
    ensures forall x :: At(levels, x) == None <==> x !in cs.Values
    ensures forall x, id :: At(levels, x) == Some(id) <==> id in cs && cs[id] == x
  {
    forall i, j | i in cs && j in cs && cs[i] == cs[j] ensures i == j {
      assert At(levels, cs[i]) == Some(i) && At(levels, cs[j]) == Some(j);
    }
  }

  function IdsIn(slot: StrikeSlot, calls: bool, puts: bool): seq<InstrumentId> {
    (if calls && slot.call.Some? then [slot.call.value] else [])
    + (if puts && slot.put.Some? then [slot.put.value] else [])
  }

  predicate Wanted(calls: bool, puts: bool, x: Listing) {
    if x.kind == Call then calls else puts
  }

  /** What a strike slot contributes: the wanted contracts at that expiry and strike, call first. */
  lemma {:induction false} SlotLists(levels: Levels, cs: Contracts, e: ExpiryDate, k: Price, calls: bool, puts: bool)
    requires Files(levels, cs)
    ensures var ids := IdsIn(SlotAt(levels, e, k), calls, puts);
      && InOrder(cs, ids)
      && forall id {:trigger id in ids} ::
           id in ids <==> id in cs && cs[id].expiry == e && cs[id].strike == k && Wanted(calls, puts, cs[id])
  {
    FiledOnce(levels, cs);
    hide Files, SlotAt;
    assert At(levels, Listing(e, k, Call)) == SlotAt(levels, e, k).call;
    assert At(levels, Listing(e, k, Put)) == SlotAt(levels, e, k).put;
  }

  /** The list holds the wanted contracts at e whose strike has been passed. */
  ghost predicate ListsStrikes(
      cs: Contracts, ids: seq<InstrumentId>, e: ExpiryDate, rest: set<Price>, calls: bool, puts: bool)
  {
    && InOrder(cs, ids)
    && forall id {:trigger id in ids} ::
         id in ids <==> id in cs && cs[id].expiry == e && cs[id].strike !in rest && Wanted(calls, puts, cs[id])
  }

  lemma {:induction false} NoStrikeYet(levels: Levels, cs: Contracts, e: ExpiryDate, calls: bool, puts: bool)
    requires Files(levels, cs) && e in levels
    ensures ListsStrikes(cs, [], e, levels[e].Keys, calls, puts)
  {
    forall id | id in cs && cs[id].expiry == e ensures cs[id].strike in levels[e] {
      assert At(levels, cs[id]) == Some(id);
    }
  }

  lemma {:induction false} OneMoreStrike(
      levels: Levels, cs: Contracts, ids: seq<InstrumentId>, e: ExpiryDate, rest: set<Price>, k: Price,
      calls: bool, puts: bool)
    requires Files(levels, cs) && ListsStrikes(cs, ids, e, rest, calls, puts)
    requires e in levels && k in rest && rest <= levels[e].Keys
    requires forall j | j in levels[e] && j !in rest :: j < k
    ensures ListsStrikes(cs, ids + IdsIn(levels[e][k], calls, puts), e, rest - {k}, calls, puts)
  {
    var more := IdsIn(levels[e][k], calls, puts);
    SlotLists(levels, cs, e, k, calls, puts);
    forall i, j | 0 <= i < |ids| && 0 <= j < |more| ensures ListedBefore(cs[ids[i]], cs[more[j]]) {
      assert ids[i] in ids && more[j] in more;
      assert At(levels, cs[ids[i]]).Some?;
    }
    hide Files, IdsIn;
    InOrderConcat(cs, ids, more);
    forall id ensures id in ids + more <==> id in ids || id in more {
    }
  }

  lemma {:induction false} AllExpiriesKnown(levels: Levels, cs: Contracts)
    requires Files(levels, cs)
    ensures forall id | id in cs :: cs[id].expiry in levels
  {
    forall id | id in cs ensures cs[id].expiry in levels {
      assert At(levels, cs[id]) == Some(id);
    }
  }

  lemma {:induction false} NoneAtMissing(levels: Levels, cs: Contracts, e: ExpiryDate)
    requires Files(levels, cs)
    ensures e !in levels ==> forall id | id in cs :: cs[id].expiry != e
  {
    AllExpiriesKnown(levels, cs);
  }

  /** An expiry is on the map exactly when some contract expires then. */
  lemma {:induction false} ExpiryIsListed(levels: Levels, cs: Contracts, e: ExpiryDate)
    requires Files(levels, cs) && NoneEmpty(levels)
    ensures e in levels <==> exists id | id in cs :: cs[id].expiry == e
  {
    AllExpiriesKnown(levels, cs);
    if e in levels {
      var k :| k in levels[e];
      assert levels[e][k] != EmptySlot;
      var x := Listing(e, k, if levels[e][k].call.Some? then Call else Put);
      assert At(levels, x).Some?;
    }
  }

  /** The list holds the contracts whose expiry has been passed. */
  ghost predicate ListsExpiries(cs: Contracts, ids: seq<InstrumentId>, rest: set<ExpiryDate>) {
    && InOrder(cs, ids)
    && forall id {:trigger id in ids} :: id in ids <==> id in cs && cs[id].expiry !in rest
  }

  lemma {:induction false} NoExpiryYet(levels: Levels, cs: Contracts)
    requires Files(levels, cs)
    ensures ListsExpiries(cs, [], levels.Keys)
  {
    AllExpiriesKnown(levels, cs);
  }

  lemma {:induction false} OneMoreExpiry(
      levels: Levels, cs: Contracts, ids: seq<InstrumentId>, more: seq<InstrumentId>, rest: set<ExpiryDate>,
      e: ExpiryDate)
    requires Files(levels, cs) && ListsExpiries(cs, ids, rest) && e in rest
    requires ListsStrikes(cs, more, e, {}, true, true)
    requires forall f | f in levels && f !in rest :: Earlier(f, e)
    ensures ListsExpiries(cs, ids + more, rest - {e})
  {
    AllExpiriesKnown(levels, cs);
    hide Files;
    forall i, j | 0 <= i < |ids| && 0 <= j < |more| ensures ListedBefore(cs[ids[i]], cs[more[j]]) {
      assert ids[i] in ids && more[j] in more;
    }
    InOrderConcat(cs, ids, more);
    forall id ensures id in ids + more <==> id in ids || id in more {
    }
  }

  class Chain {
    var levels: Levels
    var byId: map<InstrumentId, (ExpiryDate, Price)>
    var idToType: map<InstrumentId, OptionType>

    ghost function Listings(): Contracts
      requires byId.Keys == idToType.Keys
      reads this
    {
      map id | id in byId :: Listing(byId[id].0, byId[id].1, idToType[id])
    }

    /** The three maps describe the same contracts. */
    ghost predicate Valid()
      reads this
    {
      byId.Keys == idToType.Keys && Files(levels, Listings()) && NoneEmpty(levels)
    }

    constructor ()
      ensures Valid() && Listings() == map[]
    {
      levels, byId, idToType := map[], map[], map[];
    }

    method Add(id: InstrumentId, x: Listing) returns (ok: bool)
      requires Valid()
      modifies this
      ensures Valid() && ok == (id !in old(Listings()) && x !in old(Listings()).Values)
      ensures Listings() == if ok then old(Listings())[id := x] else old(Listings())
    {
      hide Files, NoneEmpty, Store, DifferAt, SlotAt, Injective;
      FiledOnce(levels, Listings());
      if id in byId {
        return false;
      }
      var slot := SlotAt(levels, x.expiry, x.strike);
      StoredSlot(levels, x.expiry, x.strike, slot);
      levels := Store(levels, x.expiry, x.strike, slot);
      if Entry(slot, x.kind).Some? {
        FiledThere(old(levels), x);
        return false;
      }
      var filled := WithEntry(slot, x.kind, Some(id));
      StoredSlot(old(levels), x.expiry, x.strike, filled);
      StoredTwice(old(levels), x.expiry, x.strike, slot, filled);
      FilesAfterAdd(old(levels), Store(old(levels), x.expiry, x.strike, filled), Listings(), id, x);
      levels := Store(levels, x.expiry, x.strike, filled);
      byId := byId[id := (x.expiry, x.strike)];
      idToType := idToType[id := x.kind];
      assert Listings() == old(Listings())[id := x];
      return true;
    }

    method Remove(id: InstrumentId) returns (ok: bool)
      requires Valid()
      modifies this
      ensures Valid() && ok == (id in old(Listings())) && Listings() == old(Listings()) - {id}
    {
      hide Files, NoneEmpty, Store, Erase, DifferAt;
      if id !in byId {
        assert Listings() - {id} == Listings();
        return false;
      }
      FiledOnce(levels, Listings());
      assert At(levels, Listings()[id]) == Some(id);
      var (expiry, strike) := byId[id];
      var kind := idToType[id];
      var slot := WithEntry(levels[expiry][strike], kind, None);
      StoredSlot(levels, expiry, strike, slot);
      ErasedSlot(levels, expiry, strike);
      StoredThenErased(levels, expiry, strike, slot);
      levels := Store(levels, expiry, strike, slot);
      if slot == EmptySlot {
        levels := Erase(levels, expiry, strike);
      }
      FilesAfterRemove(old(levels), levels, Listings(), id);
      idToType := idToType - {id};
      byId := byId - {id};
      assert Listings() == old(Listings()) - {id};
      return true;
    }

    /** Exact lookup. */
    function Find(x: Listing): (r: Option<InstrumentId>)
      requires Valid()
      reads this
      ensures r == None <==> x !in Listings().Values
      ensures r.Some? ==> r.value in Listings() && Listings()[r.value] == x
    {
      FiledOnce(levels, Listings());
      if x.expiry !in levels then None
      else if x.strike !in levels[x.expiry] then None
      else Entry(levels[x.expiry][x.strike], x.kind)
    }

    /** The walk over the strikes of one expiry. */
    method Strikes(e: ExpiryDate, calls: bool, puts: bool) returns (ids: seq<InstrumentId>)
      requires Valid() && e in levels
      ensures ListsStrikes(Listings(), ids, e, {}, calls, puts)
    {
      hide Files, NoneEmpty, IdsIn, Wanted;
      var rest := levels[e].Keys;
      ids := [];
      NoStrikeYet(levels, Listings(), e, calls, puts);
      while rest != {}
        invariant rest <= levels[e].Keys
        invariant forall j, k | j in levels[e] && j !in rest && k in rest :: j < k
        invariant ListsStrikes(Listings(), ids, e, rest, calls, puts)
      {
        var k := OrderBooks.Begin(Sell, rest);
        OneMoreStrike(levels, Listings(), ids, e, rest, k, calls, puts);
        ids := ids + IdsIn(levels[e][k], calls, puts);
        rest := rest - {k};
      }
    }

    method AtExpiry(e: ExpiryDate) returns (ids: seq<InstrumentId>)
      requires Valid()
      ensures Lists(Listings(), ids, Query.AtExpiry(e))
    {
      NoneAtMissing(levels, Listings(), e);
      if e !in levels {
        return [];
      }
      ids := Strikes(e, true, true);
    }

    method CallsAt(e: ExpiryDate) returns (ids: seq<InstrumentId>)
      requires Valid()
      ensures Lists(Listings(), ids, Query.CallsAt(e))
    {
      NoneAtMissing(levels, Listings(), e);
      if e !in levels {
        return [];
      }
      ids := Strikes(e, true, false);
    }

    method PutsAt(e: ExpiryDate) returns (ids: seq<InstrumentId>)
      requires Valid()
      ensures Lists(Listings(), ids, Query.PutsAt(e))
    {
      NoneAtMissing(levels, Listings(), e);
      if e !in levels {
        return [];
      }
      ids := Strikes(e, false, true);
    }

    /** The distinct expiry dates, ascending. */
    method Expiries() returns (r: seq<ExpiryDate>)
      requires Valid()
      ensures forall i, j | 0 <= i < j < |r| :: Earlier(r[i], r[j])
      ensures forall e :: e in r <==> exists id | id in Listings() :: Listings()[id].expiry == e
    {
      hide Files, NoneEmpty;
      var rest := levels.Keys;
      r := [];
      while rest != {}
        invariant rest <= levels.Keys
        invariant forall e, f | e in levels && e !in rest && f in rest :: Earlier(e, f)
        invariant forall i, j | 0 <= i < j < |r| :: Earlier(r[i], r[j])
        invariant forall e :: e in r <==> e in levels && e !in rest
      {
        var e := Begin(rest);
        forall i | 0 <= i < |r| ensures Earlier(r[i], e) {
          assert r[i] in r;
        }
        r := r + [e];
        rest := rest - {e};
      }
      forall e ensures e in levels <==> exists id | id in Listings() :: Listings()[id].expiry == e {
        ExpiryIsListed(levels, Listings(), e);
      }
    }

    /** The early break loses nothing: expiries come in order. */
    method ExpiringOnOrBefore(date: ExpiryDate) returns (ids: seq<InstrumentId>)
      requires Valid()
      ensures Lists(Listings(), ids, UpTo(date))
    {
      hide Files, NoneEmpty, InOrder;
      var rest := levels.Keys;
      ids := [];
      NoExpiryYet(levels, Listings());
      while rest != {}
        invariant rest <= levels.Keys
        invariant forall e, f | e in levels && e !in rest && f in rest :: Earlier(e, f)
        invariant forall e | e in levels && e !in rest :: !Earlier(date, e)
        invariant ListsExpiries(Listings(), ids, rest)
      {
        var e := Begin(rest);
        if Earlier(date, e) {
          break;
        }
        var more := Strikes(e, true, true);
        OneMoreExpiry(levels, Listings(), ids, more, rest, e);
        ids := ids + more;
        rest := rest - {e};
      }
      assert forall e | e in rest :: Earlier(date, e);
      AllExpiriesKnown(levels, Listings());
    }
  }
}
