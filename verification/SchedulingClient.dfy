/**
  The client side of the address-scheduling protocol, src/ats/ats_api_scheduling.c: a table of
  address records whose index is the session number used on the wire.
 */
module SchedulingClient {
  import opened Common

  type Peer = nat
  type Session = nat

  /** `key` stands for the transport name and the address bytes that addresses are compared by. */
  datatype Address = Address(peer: Peer, key: nat, inbound: bool)

  datatype Record = Record(address: Address, session: Option<Session>, properties: nat, slot: nat, inDestroy: bool)

  type Table = seq<Option<Record>>

  datatype ToService =
    | Start
    | Add(peer: Peer, slot: nat, properties: nat)
    | Update(peer: Peer, slot: nat, properties: nat)
    | Destroyed(peer: Peer, slot: nat)

  datatype ToClient =
    | Release(peer: Peer, slot: nat)
    | Suggest(peer: Peer, slot: nat, bandwidthOut: nat, bandwidthIn: nat)

  /** The handle's table, the static slot offset, and whether there is a connection. */
  datatype Client = Client(table: Table, off: nat, up: bool)

  /** What a handler did: its work, refuse the message, tear the connection down, or dereference a null record. */
  datatype Outcome = Done | Refused | ForceReconnect | NullRecord

  // ----- Slots -----

  predicate Occupied(table: Table, i: nat) {
    i < |table| && table[i].Some?
  }

  /** The least empty index from `i` on, or the table's size. */
  function FirstEmpty(table: Table, i: nat): (r: nat)
    requires i <= |table|
    ensures i <= r <= |table|
    ensures forall k | i <= k < r :: table[k].Some?
    ensures r < |table| ==> table[r].None?
    decreases |table| - i
  {
    if i == |table| || table[i].None? then i else FirstEmpty(table, i + 1)
  }

  function Vacant(n: nat): (t: Table)
    ensures |t| == n && forall i | 0 <= i < n :: t[i] == None
  {
    seq(n, _ => None)
  }

  function MaxOne(off: nat): nat {
    if off == 0 then 1 else off
  }

  /** Where find_empty_session_slot looks from its static offset on: it never goes back. */
  function NextSlot(c: Client): nat
    requires 0 < |c.table| && c.off < |c.table|
  {
    FirstEmpty(c.table, MaxOne(c.off))
  }

  /** The client after find_empty_session_slot: at the end of the table it doubles the table. */
  function WithSlot(c: Client): (r: Client)
    requires 0 < |c.table| && c.off < |c.table|
    ensures c.table <= r.table && NextSlot(c) < |r.table| && r.table[NextSlot(c)] == None
  {
    var i := NextSlot(c);
    c.(off := i, table := if i < |c.table| then c.table else c.table + Vacant(|c.table|))
  }

  /** Index 0 is never used, every record knows its index, and a dying record has no session. */
  ghost predicate TableOk(table: Table) {
    && |table| >= 4 && table[0].None?
    && (forall i: nat | Occupied(table, i) :: table[i].value.slot == i)
    && (forall i: nat | Occupied(table, i) :: table[i].value.inDestroy ==> table[i].value.session.None?)
  }

  ghost predicate ClientOk(c: Client) {
    TableOk(c.table) && c.off < |c.table|
  }

  // ----- Lookups -----

  /** find_session */
  function FindSession(table: Table, id: nat, peer: Peer): Option<Record> {
    if id == 0 || id >= |table| then None
    else match table[id]
      case None => None
      case Some(r) => if r.address.peer == peer then Some(r) else None
  }

  predicate Matches(r: Record, session: Option<Session>, address: Address) {
    !r.inDestroy && (r.session == session || r.session.None?) && r.address == address
  }

  /** find_session_id, from index `i` on; 0 stands for "not found". */
  function FindIdFrom(table: Table, session: Option<Session>, address: Address, i: nat): (id: nat)
    requires 0 < i <= |table|
    ensures id == 0 <==> forall k | i <= k < |table| :: table[k].None? || !Matches(table[k].value, session, address)
    ensures id != 0 ==> i <= id < |table| && table[id].Some? && Matches(table[id].value, session, address)
    decreases |table| - i
  {
    if i == |table| then 0
    else if table[i].Some? && Matches(table[i].value, session, address) then i
    else FindIdFrom(table, session, address, i + 1)
  }

  /** The record found is the first that matches. */
  lemma {:induction false} FoundFirst(table: Table, session: Option<Session>, address: Address, i: nat, k: nat)
    requires 0 < i <= |table| && i <= k < FindIdFrom(table, session, address, i)
    ensures table[k].None? || !Matches(table[k].value, session, address)
    decreases k - i
  {
    if i < k {
      FoundFirst(table, session, address, i + 1, k);
    }
  }

  // ----- Operations of the interface -----

  function Sent(c: Client, m: ToService): seq<ToService> {
    if c.up then [m] else []
  }

  function AddMessage(r: Record): ToService {
    Add(r.address.peer, r.slot, r.properties)
  }

  /** GNUNET_ATS_address_add; `fits` tells whether the address fits into a message. */
  predicate AddAccepted(c: Client, address: Address, session: Option<Session>, fits: bool)
    requires |c.table| > 0
  {
    fits && FindIdFrom(c.table, session, address, 1) == 0
  }

  function AfterAdd(c: Client, address: Address, session: Option<Session>, properties: nat, fits: bool): Client
    requires 0 < |c.table| && c.off < |c.table|
  {
    if !AddAccepted(c, address, session, fits) then c
    else
      var s, d := NextSlot(c), WithSlot(c);
      d.(table := d.table[s := Some(Record(address, session, properties, s, false))])
  }

  function AddSends(c: Client, address: Address, session: Option<Session>, properties: nat, fits: bool): seq<ToService>
    requires 0 < |c.table| && c.off < |c.table|
  {
    if AddAccepted(c, address, session, fits) then Sent(c, Add(address.peer, NextSlot(c), properties)) else []
  }

  function RecordAt(c: Client, i: nat): Record
    requires Occupied(c.table, i)
  {
    c.table[i].value
  }

  /** GNUNET_ATS_address_add_session */
  function AfterAddSession(c: Client, i: nat, session: Session): Client
    requires Occupied(c.table, i)
  {
    c.(table := c.table[i := Some(RecordAt(c, i).(session := Some(session)))])
  }

  /** GNUNET_ATS_address_update */
  function AfterUpdate(c: Client, i: nat, properties: nat): Client
    requires Occupied(c.table, i)
  {
    c.(table := c.table[i := Some(RecordAt(c, i).(properties := properties))])
  }

  function UpdateSends(c: Client, i: nat, properties: nat): seq<ToService>
    requires Occupied(c.table, i)
  {
    Sent(c, Update(RecordAt(c, i).address.peer, RecordAt(c, i).slot, properties))
  }

  /** GNUNET_ATS_address_destroy */
  function AfterDestroy(c: Client, i: nat): Client
    requires Occupied(c.table, i)
  {
    c.(table := c.table[i := Some(RecordAt(c, i).(session := None, inDestroy := true))])
  }

  function DestroySends(c: Client, i: nat): seq<ToService>
    requires Occupied(c.table, i)
  {
    Sent(c, Destroyed(RecordAt(c, i).address.peer, RecordAt(c, i).slot))
  }

  /** GNUNET_ATS_address_del_session: inbound addresses die with their session. */
  function AfterDelSession(c: Client, i: nat): Client
    requires Occupied(c.table, i)
  {
    if RecordAt(c, i).address.inbound then AfterDestroy(c, i)
    else c.(table := c.table[i := Some(RecordAt(c, i).(session := None))])
  }

  function DelSessionSends(c: Client, i: nat): seq<ToService>
    requires Occupied(c.table, i)
  {
    if RecordAt(c, i).address.inbound then DestroySends(c, i) else []
  }

  // ----- Messages from the service -----

  /** release_session */
  function ReleaseOutcome(c: Client, id: nat): Outcome {
    if id == 0 then Done
    else if id >= |c.table| then ForceReconnect
    else match c.table[id]
      case None => NullRecord
      case Some(r) => if r.session.Some? then ForceReconnect else Done
  }

  function AfterRelease(c: Client, id: nat): Client {
    if ReleaseOutcome(c, id) == Done && id != 0 then c.(table := c.table[id := None]) else c
  }

  /** An inbound address that is in use without a session: the source breaks on a suggestion of it. */
  predicate Bare(r: Record) {
    !r.inDestroy && r.session.None? && r.address.inbound
  }

  /** handle_ats_address_suggestion */
  function SuggestOutcome(c: Client, m: ToClient): Outcome
    requires m.Suggest?
  {
    match FindSession(c.table, m.slot, m.peer)
    case None => ForceReconnect
    case Some(r) => if Bare(r) then Refused else Done
  }

  /** What the suggestion callback is told. */
  datatype Callback =
    | Silent
    | Disconnect(peer: Peer)
    | Use(peer: Peer, address: Address, session: Option<Session>, bandwidthOut: nat, bandwidthIn: nat)

  function SuggestCallback(c: Client, m: ToClient): Callback
    requires m.Suggest?
  {
    match FindSession(c.table, m.slot, m.peer)
    case None => Silent
    case Some(r) =>
      if r.inDestroy then
        if m.bandwidthOut == 0 && m.bandwidthIn == 0 then Disconnect(m.peer) else Silent
      else if Bare(r) then Silent
      else Use(m.peer, r.address, r.session, m.bandwidthOut, m.bandwidthIn)
  }

  /** Slot and peer name a record of the table. */
  predicate Holds(table: Table, slot: nat, peer: Peer) {
    0 < slot < |table| && table[slot].Some? && table[slot].value.address.peer == peer
  }

  /** What becomes of a suggestion, by the record it names. */
  predicate Takes(table: Table, m: ToClient, outcome: Outcome, callback: Callback)
    requires m.Suggest?
  {
    if !Holds(table, m.slot, m.peer) then outcome == ForceReconnect && callback == Silent
    else
      var r := table[m.slot].value;
      && (outcome == if !r.inDestroy && r.session.None? && r.address.inbound then Refused else Done)
      && (callback.Use? <==> !r.inDestroy && !(r.session.None? && r.address.inbound))
      && (callback.Use? ==>
            && callback.peer == m.peer && callback.address == r.address && callback.session == r.session
            && callback.bandwidthOut == m.bandwidthOut && callback.bandwidthIn == m.bandwidthIn)
      && (callback.Disconnect? <==> r.inDestroy && m.bandwidthOut == 0 && m.bandwidthIn == 0)
      && (callback.Disconnect? ==> callback.peer == m.peer)
  }

  /** The callback is told of the record that slot and peer name, with the bandwidths of the message. */
  lemma SuggestionTaken(c: Client, m: ToClient)
    requires m.Suggest?
    ensures Takes(c.table, m, SuggestOutcome(c, m), SuggestCallback(c, m))
  {
  }

  /** A record that stands in the way of a new one. */
  predicate InTheWay(table: Table, i: nat, address: Address, session: Option<Session>) {
    && 0 < i < |table| && table[i].Some? && !table[i].value.inDestroy && table[i].value.address == address
    && (table[i].value.session.None? || table[i].value.session == session)
  }

  /** An address is refused exactly when it does not fit or a record in use has it, with that session or with none. */
  lemma RefusedIff(c: Client, address: Address, session: Option<Session>, fits: bool)
    requires |c.table| > 0
    ensures AddAccepted(c, address, session, fits) <==> fits && !exists i: nat :: InTheWay(c.table, i, address, session)
  {
    var id := FindIdFrom(c.table, session, address, 1);
    if id != 0 {
      assert InTheWay(c.table, id, address, session);
    }
  }

  // ----- Connection -----

  /** The ADD messages for the records below index `n`, in table order. */
  function Announcements(table: Table, n: nat): (ms: seq<ToService>)
    requires n <= |table|
  {
    if n == 0 then []
    else Announcements(table, n - 1) + (if table[n - 1].Some? then [AddMessage(table[n - 1].value)] else [])
  }

  /** What reconnect sends over a new connection. */
  function Greeting(c: Client): seq<ToService> {
    [Start] + Announcements(c.table, |c.table|)
  }

  function Flags(table: Table): (r: seq<bool>)
    ensures |r| == |table|
  {
    seq(|table|, i requires 0 <= i < |table| => table[i].Some?)
  }

  /** The ADD messages of the records at the given places. */
  ghost predicate AddsOf(ms: seq<ToService>, table: Table, places: seq<nat>) {
    && |ms| == |places|
    && forall k | 0 <= k < |places| :: AddsAt(ms[k], table, places[k])
  }

  predicate AddsAt(m: ToService, table: Table, i: nat) {
    i < |table| && table[i].Some?
    && m == Add(table[i].value.address.peer, table[i].value.slot, table[i].value.properties)
  }

  lemma OneMoreAdd(ms: seq<ToService>, table: Table, places: seq<nat>, m: ToService, i: nat)
    requires AddsOf(ms, table, places) && AddsAt(m, table, i)
    ensures AddsOf(ms + [m], table, places + [i])
  {
  }

  lemma OneMorePlace(keep: seq<bool>, n: nat)
    requires 0 < n <= |keep|
    ensures PlacesOf(keep[..n]) == PlacesOf(keep[..n - 1]) + (if keep[n - 1] then [n - 1] else [])
  {
    assert keep[..n][..n - 1] == keep[..n - 1];
  }

  /** START, and then an ADD for every record and no other, in table order. */
  ghost predicate Announces(ms: seq<ToService>, table: Table) {
    exists places: seq<nat> ::
      Picks(places, Flags(table)) && ms != [] && ms[0] == Start && AddsOf(ms[1..], table, places)
  }

  lemma {:induction false} AnnouncementsAdd(table: Table, n: nat)
    requires n <= |table|
    ensures AddsOf(Announcements(table, n), table, PlacesOf(Flags(table)[..n]))
  {
    if n > 0 {
      AnnouncementsAdd(table, n - 1);
      OneMorePlace(Flags(table), n);
      if table[n - 1].Some? {
        OneMoreAdd(Announcements(table, n - 1), table, PlacesOf(Flags(table)[..n - 1]), AddMessage(table[n - 1].value),
                   n - 1);
      }
    }
  }

  /** A new connection starts with all records of the table. */
  lemma GreetingAnnounces(c: Client)
    ensures Announces(Greeting(c), c.table)
  {
    AnnouncementsAdd(c.table, |c.table|);
    assert Flags(c.table)[..|c.table|] == Flags(c.table);
    PlacesPick(Flags(c.table));
    assert Greeting(c)[1..] == Announcements(c.table, |c.table|);
  }

  // ----- Slot allocation -----

  /** Handing out a slot keeps the offset in the table, and the slot is in bounds, non-zero and empty. */
  lemma AllocationOk(c: Client)
    requires ClientOk(c)
    ensures var s, d := NextSlot(c), WithSlot(c);
            && 0 < s < |d.table| && d.table[s].None? && !Occupied(c.table, s)
            && ClientOk(d)
            && (forall i: nat :: Occupied(d.table, i) <==> Occupied(c.table, i))
            && (forall i: nat | Occupied(c.table, i) :: d.table[i] == c.table[i])
  {
  }

  /** The offset never decreases, so a slot released below it is never handed out again. */
  lemma OffsetNeverGoesBack(c: Client)
    requires ClientOk(c)
    ensures c.off <= WithSlot(c).off == NextSlot(c)
  {
  }

  /** The table doubles whenever no slot from the offset on is empty, however many are empty before it. */
  lemma GrowsDespiteFreeSlots(c: Client)
    requires ClientOk(c)
    ensures |WithSlot(c).table| > |c.table| <==> forall i | MaxOne(c.off) <= i < |c.table| :: c.table[i].Some?
    ensures |WithSlot(c).table| == |c.table| || |WithSlot(c).table| == 2 * |c.table|
  {
  }

  // ----- An offset that another handle has left -----

  lemma {:induction false} Multiples(q: nat, p: nat, n: nat)
    requires q < p
    ensures q * n + n <= p * n
  {
    assert p * n == (p - 1) * n + n;
    if q < p - 1 {
      Multiples(q, p - 1, n);
    }
  }

  lemma UniqueRemainder(q: nat, r: nat, p: nat, t: nat, n: nat)
    requires r < n && t < n && q * n + r == p * n + t
    ensures r == t
  {
    if q < p {
      Multiples(q, p, n);
    } else if p < q {
      Multiples(p, q, n);
    }
  }

  lemma Modulo(q: nat, r: nat, n: nat)
    requires r < n
    ensures (q * n + r) % n == r
  {
    var x := q * n + r;
    assert x == (x / n) * n + x % n;
    UniqueRemainder(q, r, x / n, x % n, n);
  }

  /** The greatest multiple of the size up to the offset. */
  function Base(off: nat, n: nat): (b: nat)
    requires 0 < n
    ensures b <= off < b + n
  {
    off - off % n
  }

  /** `off % session_array_size` on the way from `start` to the next multiple of the size. */
  function Wrapped(ghost start: nat, off: nat, n: nat): (i: nat)
    requires 0 < n && start <= off <= Base(start, n) + n
    ensures i == if off == Base(start, n) + n then 0 else off - Base(start, n)
  {
    ModuloFrom(start, off, n);
    off % n
  }

  lemma ModuloFrom(start: nat, off: nat, n: nat)
    requires 0 < n && start <= off <= Base(start, n) + n
    ensures off % n == if off == Base(start, n) + n then 0 else off - Base(start, n)
  {
    var q := start / n;
    assert Base(start, n) == q * n;
    if off == q * n + n {
      assert off == (q + 1) * n + 0;
      Modulo(q + 1, 0, n);
    } else {
      Modulo(q, off - q * n, n);
    }
  }

  /** Where the loop of find_empty_session_slot stops, whatever the offset. */
  function Landing(table: Table, off: nat): nat
    requires table != []
  {
    if off == 0 then FirstEmpty(table, 1) else Base(off, |table|) + FirstEmpty(table, off - Base(off, |table|))
  }

  /** The loop has come from `start` to `off` without an empty slot. */
  ghost predicate Searching(table: Table, start: nat, off: nat)
    requires table != []
  {
    var base := Base(start, |table|);
    && start <= off <= base + |table|
    && Landing(table, start) == if off == 0 then FirstEmpty(table, 1) else base + FirstEmpty(table, off - base)
  }

  lemma SearchStep(table: Table, start: nat, off: nat)
    requires table != [] && table[0].None? && Searching(table, start, off)
    ensures off == 0 || table[Wrapped(start, off, |table|)].Some? ==> Searching(table, start, off + 1)
    ensures off != 0 && table[Wrapped(start, off, |table|)].None? ==> Landing(table, start) == off
  {
  }

  /** What it returns: the offset itself, or the old size after doubling the table. */
  function SlotAt(table: Table, off: nat): nat
    requires table != []
  {
    if Landing(table, off) % |table| != 0 then Landing(table, off) else |table|
  }

  function TableAt(table: Table, off: nat): Table
    requires table != []
  {
    if Landing(table, off) % |table| != 0 then table else table + Vacant(|table|)
  }

  /** Within the table the offset behaves as NextSlot says. */
  lemma OwnOffset(c: Client)
    requires ClientOk(c)
    ensures SlotAt(c.table, c.off) == NextSlot(c) && TableAt(c.table, c.off) == WithSlot(c).table
    ensures Landing(c.table, c.off) == WithSlot(c).off
  {
    Modulo(0, c.off, |c.table|);
    ModuloFrom(0, NextSlot(c), |c.table|);
  }

  /**
    The offset is static: a second handle starts with what the first one left.  The number handed
    out lies in the table exactly when the offset does, or is a multiple of the size, or no slot
    from its remainder on is empty.
   */
  lemma SlotInBounds(table: Table, off: nat)
    requires table != [] && table[0].None?
    ensures SlotAt(table, off) < |TableAt(table, off)| <==>
              off < |table| || off % |table| == 0 || forall j | off % |table| <= j < |table| :: table[j].Some?
  {
    var n := |table|;
    if off > 0 {
      ModuloFrom(off, Landing(table, off), n);
      if off < n {
        Modulo(0, off, n);
      }
    } else {
      ModuloFrom(0, Landing(table, off), n);
    }
  }

  /** An inherited offset for which it does not. */
  lemma InheritedOffset()
    ensures SlotAt(Vacant(4), 5) == 5 && TableAt(Vacant(4), 5) == Vacant(4)
  {
    Modulo(1, 1, 4);
  }

  // ----- The handle -----

  class SchedulingHandle {
    var table: Table
    var off: nat
    var up: bool
    var outbox: seq<ToService>

    function View(): Client
      reads this
    {
      Client(table, off, up)
    }

    /** GNUNET_ATS_scheduling_init, up to the first connection; the offset is static and not set. */
    constructor (inherited: nat)
      ensures off == inherited && !up && outbox == [] && |table| == 4
      ensures forall i: nat :: !Occupied(table, i)
      ensures ClientOk(View()) <==> inherited < 4
      ensures SlotAt(table, off) < |TableAt(table, off)| <==> inherited < 4 || inherited % 4 == 0
    {
      table := Vacant(4);
      off := inherited;
      up := false;
      outbox := [];
      new;
      SlotInBounds(table, off);
    }

    /** find_empty_session_slot, whatever the offset. */
    method FindEmptySessionSlot() returns (s: nat)
      requires table != [] && table[0].None?
      modifies this`table, this`off
      ensures s == SlotAt(old(table), old(off)) && table == TableAt(old(table), old(off))
      ensures off == Landing(old(table), old(off))
    {
      var i := 0;
      ghost var start := off;
      while (off == 0 || table[Wrapped(start, off, |table|)].Some?) && i < |table|
        invariant table == old(table) && Searching(table, start, off) && off == start + i
        decreases |table| - i
      {
        SearchStep(table, start, off);
        off := off + 1;
        i := i + 1;
      }
      SearchStep(table, start, off);
      ModuloFrom(start, off, |table|);
      if Wrapped(start, off, |table|) != 0 && table[Wrapped(start, off, |table|)].None? {
        return off;
      }
      s := |table|;
      table := table + Vacant(|table|);
    }

    /** find_session_id */
    method FindSessionId(session: Option<Session>, address: Address) returns (id: nat)
      requires |table| > 0
      ensures id == FindIdFrom(table, session, address, 1)
    {
      for i := 1 to |table|
        invariant FindIdFrom(table, session, address, 1) == FindIdFrom(table, session, address, i)
      {
        if table[i].Some? && Matches(table[i].value, session, address) {
          return i;
        }
      }
      id := 0;
    }

    method Send(m: ToService)
      modifies this`outbox
      ensures outbox == old(outbox) + Sent(View(), m)
    {
      if up {
        outbox := outbox + [m];
      }
    }

    /** GNUNET_ATS_address_add; the slot stands for the record handed back. */
    method AddressAdd(address: Address, session: Option<Session>, properties: nat, fits: bool)
      returns (slot: Option<nat>)
      requires ClientOk(View())
      modifies this`table, this`off, this`outbox
      ensures View() == AfterAdd(old(View()), address, session, properties, fits)
      ensures outbox == old(outbox) + AddSends(old(View()), address, session, properties, fits)
      ensures slot == if old(AddAccepted(View(), address, session, fits)) then Some(NextSlot(old(View()))) else None
      ensures ClientOk(View())
    {
      if !fits {
        return None;
      }
      var id := FindSessionId(session, address);
      if id != 0 {
        return None;
      }
      OwnOffset(View());
      var s := FindEmptySessionSlot();
      var ar := Record(address, session, properties, s, false);
      table := table[s := Some(ar)];
      Send(AddMessage(ar));
      slot := Some(s);
    }

    /** GNUNET_ATS_address_add_session */
    method AddressAddSession(i: nat, session: Session)
      requires Occupied(table, i)
      modifies this`table
      ensures View() == AfterAddSession(old(View()), i, session)
    {
      table := table[i := Some(table[i].value.(session := Some(session)))];
    }

    /** GNUNET_ATS_address_update */
    method AddressUpdate(i: nat, properties: nat)
      requires Occupied(table, i)
      modifies this`table, this`outbox
      ensures View() == AfterUpdate(old(View()), i, properties)
      ensures outbox == old(outbox) + UpdateSends(old(View()), i, properties)
    {
      var ar := table[i].value.(properties := properties);
      table := table[i := Some(ar)];
      Send(Update(ar.address.peer, ar.slot, properties));
    }

    /** GNUNET_ATS_address_destroy */
    method AddressDestroy(i: nat)
      requires Occupied(table, i)
      modifies this`table, this`outbox
      ensures View() == AfterDestroy(old(View()), i)
      ensures outbox == old(outbox) + DestroySends(old(View()), i)
    {
      var ar := table[i].value.(session := None, inDestroy := true);
      table := table[i := Some(ar)];
      Send(Destroyed(ar.address.peer, ar.slot));
    }

    /** GNUNET_ATS_address_del_session; the source asserts that the session is the record's. */
    method AddressDelSession(i: nat, session: Option<Session>) returns (destroyed: bool)
      requires Occupied(table, i) && table[i].value.session == session
      modifies this`table, this`outbox
      ensures View() == AfterDelSession(old(View()), i)
      ensures outbox == old(outbox) + DelSessionSends(old(View()), i)
      ensures destroyed <==> old(RecordAt(View(), i).address.inbound)
    {
      var ar := table[i].value.(session := None);
      table := table[i := Some(ar)];
      destroyed := ar.address.inbound;
      if destroyed {
        AddressDestroy(i);
      }
    }

    /** release_session */
    method ReleaseSession(id: nat) returns (outcome: Outcome)
      modifies this`table
      ensures outcome == ReleaseOutcome(old(View()), id) && View() == AfterRelease(old(View()), id)
      ensures id == 0 ==> outcome == Done && table == old(table)
      ensures id != 0 && id >= |old(table)| ==> outcome == ForceReconnect && table == old(table)
      ensures 0 < id < |old(table)| && old(table)[id].None? ==> outcome == NullRecord && table == old(table)
      ensures 0 < id < |old(table)| && old(table)[id].Some? && old(table)[id].value.session.Some? ==>
                outcome == ForceReconnect && table == old(table)
      ensures 0 < id < |old(table)| && old(table)[id].Some? && old(table)[id].value.session.None? ==>
                outcome == Done && table == old(table)[id := None]
    {
      if id == 0 {
        return Done;
      }
      if id >= |table| {
        return ForceReconnect;
      }
      if table[id].None? {
        return NullRecord;
      }
      if table[id].value.session.Some? {
        return ForceReconnect;
      }
      table := table[id := None];
      outcome := Done;
    }

    /** handle_ats_address_suggestion with a callback set. */
    method HandleSuggestion(m: ToClient) returns (outcome: Outcome, callback: Callback)
      requires m.Suggest?
      ensures outcome == SuggestOutcome(View(), m) && callback == SuggestCallback(View(), m)
      ensures Takes(table, m, outcome, callback)
    {
      callback := Silent;
      if m.slot == 0 {
        return ForceReconnect, Silent;
      }
      var found := FindSession(table, m.slot, m.peer);
      if found.None? {
        return ForceReconnect, Silent;
      }
      outcome := Done;
      var r := found.value;
      if r.inDestroy {
        if m.bandwidthOut == 0 && m.bandwidthIn == 0 {
          callback := Disconnect(m.peer);
        }
        return;
      }
      if r.session.None? && r.address.inbound {
        return Refused, Silent;
      }
      callback := Use(m.peer, r.address, r.session, m.bandwidthOut, m.bandwidthIn);
    }

    /** reconnect, once the connection is there. */
    method Reconnect()
      requires !up
      modifies this`up, this`outbox
      ensures View() == old(View()).(up := true)
      ensures outbox == old(outbox) + Greeting(old(View())) && Announces(Greeting(old(View())), table)
    {
      GreetingAnnounces(View());
      up := true;
      Send(Start);
      for i := 0 to |table|
        invariant up && outbox == old(outbox) + ([Start] + Announcements(table, i))
      {
        if table[i].Some? {
          Send(AddMessage(table[i].value));
        }
      }
    }
  }
}
