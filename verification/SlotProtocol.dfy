/**
  The scheduling client, the ATS service and the connections between them as one system.

  A connection the client has given up stays known to the service until the service notices;
  messages still in it may be handled meanwhile.  The service takes one scheduling client at a
  time and drops any other that starts.
 */
module SlotProtocol {
  import opened Common
  import opened SchedulingClient
  import opened AddressService

  type Store = map<Key, nat>

  // ----- Replaying the messages in a queue -----

  ghost predicate SlotFree(a: Store, i: nat) {
    forall k | k in a :: k.slot != i
  }

  /** The message makes sense to the service, and an ADD uses a number no address of any peer has. */
  ghost predicate Accepts(a: Store, m: ToService) {
    if m.Start? then false
    else if m.Add? then SlotFree(a, m.slot)
    else KeyOf(m) in a
  }

  ghost predicate Clean(a: Store, q: seq<ToService>)
    decreases |q|
  {
    q == [] || (Accepts(a, q[0]) && Clean(Handle(a, q[0]), q[1..]))
  }

  ghost function Final(a: Store, q: seq<ToService>): Store
    requires Clean(a, q)
    decreases |q|
  {
    if q == [] then a else Final(Handle(a, q[0]), q[1..])
  }

  function Destroys(q: seq<ToService>, i: nat): nat {
    if q == [] then 0
    else (if q[0].Destroyed? && q[0].slot == i then 1 else 0) + Destroys(q[1..], i)
  }

  function Releases(r: seq<ToClient>, i: nat): nat {
    if r == [] then 0
    else (if r[0].Release? && r[0].slot == i then 1 else 0) + Releases(r[1..], i)
  }

  ghost predicate Mentions(q: seq<ToService>, i: nat) {
    exists j :: 0 <= j < |q| && !q[j].Start? && q[j].slot == i
  }

  lemma {:induction false} CleanAppend(a: Store, q: seq<ToService>, m: ToService)
    requires Clean(a, q) && Accepts(Final(a, q), m)
    ensures Clean(a, q + [m]) && Final(a, q + [m]) == Handle(Final(a, q), m)
    decreases |q|
  {
    if q != [] {
      CleanAppend(Handle(a, q[0]), q[1..], m);
      assert (q + [m])[1..] == q[1..] + [m];
    } else {
      assert (q + [m])[1..] == [];
    }
  }

  lemma {:induction false} DestroysAppend(q: seq<ToService>, m: ToService, i: nat)
    ensures Destroys(q + [m], i) == Destroys(q, i) + (if m.Destroyed? && m.slot == i then 1 else 0)
  {
    if q != [] {
      DestroysAppend(q[1..], m, i);
      assert (q + [m])[1..] == q[1..] + [m];
    } else {
      assert (q + [m])[1..] == [];
    }
  }

  lemma {:induction false} ReleasesAppend(r: seq<ToClient>, m: ToClient, i: nat)
    ensures Releases(r + [m], i) == Releases(r, i) + (if m.Release? && m.slot == i then 1 else 0)
  {
    if r != [] {
      ReleasesAppend(r[1..], m, i);
      assert (r + [m])[1..] == r[1..] + [m];
    } else {
      assert (r + [m])[1..] == [];
    }
  }

  /** Nothing leaves the store, or the queue, without a DESTROYED. */
  lemma {:induction false} UsedUntilDestroyed(a: Store, q: seq<ToService>, i: nat)
    requires Clean(a, q) && Destroys(q, i) == 0
    requires !SlotFree(a, i) || Mentions(q, i)
    ensures !SlotFree(Final(a, q), i)
    decreases |q|
  {
    if q != [] {
      var b := Handle(a, q[0]);
      if q[0].slot == i {
        assert KeyOf(q[0]) in b;
      } else if !SlotFree(a, i) {
        var k :| k in a && k.slot == i;
        assert k in b;
      } else {
        var j :| 0 <= j < |q| && !q[j].Start? && q[j].slot == i;
        assert q[1..][j - 1] == q[j];
      }
      UsedUntilDestroyed(b, q[1..], i);
    }
  }

  lemma {:induction false} NoMoreThanOneRelease(r: seq<ToClient>, j: nat, i: nat)
    requires j < |r| && r[j].Release? && r[j].slot == i
    ensures Releases(r, i) > 0
  {
    if j > 0 {
      NoMoreThanOneRelease(r[1..], j - 1, i);
    }
  }

  // ----- A live connection -----

  /** How slot `i` of the client stands to what the service will have after the messages under way. */
  ghost predicate SlotLinked(table: Table, f: Store, i: nat, pending: nat) {
    if !Occupied(table, i) then pending == 0 && SlotFree(f, i)
    else
      var r := table[i].value;
      || (pending == 0 && Key(r.address.peer, i) in f && f[Key(r.address.peer, i)] == r.properties
          && forall k | k in f :: k.slot == i ==> k.peer == r.address.peer)
      || (pending == 1 && r.inDestroy && SlotFree(f, i))
  }

  /** After its release a slot is not spoken of again. */
  ghost predicate Ordered(r: seq<ToClient>) {
    forall j, k | 0 <= j < k < |r| && r[j].Release? :: r[k].slot != r[j].slot
  }

  /** Slot and peer belong together in the client's table. */
  ghost predicate Owned(table: Table, k: Key) {
    Occupied(table, k.slot) && table[k.slot].value.address.peer == k.peer
  }

  ghost predicate Resolves(table: Table, m: ToClient) {
    m.Suggest? ==> Owned(table, Key(m.peer, m.slot))
  }

  ghost predicate Linked(table: Table, a: Store, q: seq<ToService>, r: seq<ToClient>) {
    && Clean(a, q)
    && (forall i: nat :: SlotLinked(table, Final(a, q), i, Destroys(q, i) + Releases(r, i)))
    && Ordered(r)
    && AllOwned(table, a, q, r)
  }

  /** Everything the service and the channels refer to is a record of the same peer. */
  ghost predicate AllOwned(table: Table, a: Store, q: seq<ToService>, r: seq<ToClient>) {
    && (forall k | k in a :: Owned(table, k))
    && (forall j | 0 <= j < |q| :: !q[j].Start? && Owned(table, KeyOf(q[j])))
    && (forall j | 0 <= j < |r| :: Resolves(table, r[j]))
  }

  lemma OwnedKept(table: Table, table': Table, a: Store, q: seq<ToService>, r: seq<ToClient>)
    requires AllOwned(table, a, q, r)
    requires forall i: nat | Occupied(table, i) ::
               Occupied(table', i) && table'[i].value.address == table[i].value.address
    ensures AllOwned(table', a, q, r)
  {
    forall k | k in a
      ensures Owned(table', k)
    {
      assert Owned(table, k);
    }
    forall j | 0 <= j < |q|
      ensures !q[j].Start? && Owned(table', KeyOf(q[j]))
    {
      assert Owned(table, KeyOf(q[j]));
    }
    forall j | 0 <= j < |r|
      ensures Resolves(table', r[j])
    {
      assert Resolves(table, r[j]);
    }
  }

  /** A number whose slot is empty is unknown to the service and to both channels. */
  lemma FreeSlotUnreferenced(table: Table, a: Store, q: seq<ToService>, r: seq<ToClient>, i: nat)
    requires Linked(table, a, q, r) && !Occupied(table, i)
    ensures SlotFree(a, i) && !Mentions(q, i) && forall j | 0 <= j < |r| :: r[j].slot != i
  {
    assert SlotLinked(table, Final(a, q), i, Destroys(q, i) + Releases(r, i));
    if !SlotFree(a, i) || Mentions(q, i) {
      UsedUntilDestroyed(a, q, i);
    }
    forall j | 0 <= j < |r|
      ensures r[j].slot != i
    {
      assert Resolves(table, r[j]);
      if r[j].Release? && r[j].slot == i {
        NoMoreThanOneRelease(r, j, i);
      }
    }
  }

  /** The client fills an empty slot and announces it. */
  lemma AddKeepsLink(table: Table, a: Store, q: seq<ToService>, r: seq<ToClient>, table': Table, s: nat)
    requires Linked(table, a, q, r) && !Occupied(table, s)
    requires Occupied(table', s) && table'[s].value.slot == s
    requires forall i: nat | i != s :: Occupied(table', i) <==> Occupied(table, i)
    requires forall i: nat | Occupied(table, i) :: Occupied(table', i) && table'[i] == table[i]
    ensures Linked(table', a, q + [AddMessage(table'[s].value)], r)
  {
    var m := AddMessage(table'[s].value);
    assert SlotLinked(table, Final(a, q), s, Destroys(q, s) + Releases(r, s));
    CleanAppend(a, q, m);
    forall i: nat
      ensures SlotLinked(table', Final(a, q + [m]), i, Destroys(q + [m], i) + Releases(r, i))
    {
      DestroysAppend(q, m, i);
      assert SlotLinked(table, Final(a, q), i, Destroys(q, i) + Releases(r, i));
    }
    OwnedKept(table, table', a, q, r);
  }

  /** Only fields the service does not know of changed. */
  lemma SilentChangeKeepsLink(table: Table, a: Store, q: seq<ToService>, r: seq<ToClient>, table': Table)
    requires Linked(table, a, q, r)
    requires forall i: nat :: Occupied(table', i) <==> Occupied(table, i)
    requires forall i: nat | Occupied(table, i) ::
               && Occupied(table', i)
               && table'[i].value.address == table[i].value.address
               && table'[i].value.properties == table[i].value.properties
               && table'[i].value.inDestroy == table[i].value.inDestroy
    ensures Linked(table', a, q, r)
  {
    forall i: nat
      ensures SlotLinked(table', Final(a, q), i, Destroys(q, i) + Releases(r, i))
    {
      assert SlotLinked(table, Final(a, q), i, Destroys(q, i) + Releases(r, i));
    }
    OwnedKept(table, table', a, q, r);
  }

  /** The client changes record `s`, which is not dying, and sends UPDATE or DESTROYED for it. */
  lemma ChangeKeepsLink(table: Table, a: Store, q: seq<ToService>, r: seq<ToClient>, s: nat, rec: Record, m: ToService)
    requires Linked(table, a, q, r) && Occupied(table, s) && !table[s].value.inDestroy
    requires rec.address == table[s].value.address
    requires || m == Update(rec.address.peer, s, rec.properties)
             || (m == Destroyed(rec.address.peer, s) && rec.inDestroy)
    ensures Linked(table[s := Some(rec)], a, q + [m], r)
  {
    var table' := table[s := Some(rec)];
    assert SlotLinked(table, Final(a, q), s, Destroys(q, s) + Releases(r, s));
    CleanAppend(a, q, m);
    forall i: nat
      ensures SlotLinked(table', Final(a, q + [m]), i, Destroys(q + [m], i) + Releases(r, i))
    {
      DestroysAppend(q, m, i);
      assert SlotLinked(table, Final(a, q), i, Destroys(q, i) + Releases(r, i));
    }
    OwnedKept(table, table', a, q, r);
  }

  /** The service handles the oldest message. */
  lemma HandleKeepsLink(table: Table, a: Store, q: seq<ToService>, r: seq<ToClient>)
    requires Linked(table, a, q, r) && q != []
    ensures !q[0].Start? && !Breaks(a, q[0])
    ensures Linked(table, Handle(a, q[0]), q[1..], r + Replies(q[0]))
  {
    var m, b, rest := q[0], Handle(a, q[0]), q[1..];
    var r' := r + Replies(m);
    forall i: nat
      ensures Destroys(rest, i) + Releases(r', i) == Destroys(q, i) + Releases(r, i)
      ensures SlotLinked(table, Final(b, rest), i, Destroys(rest, i) + Releases(r', i))
    {
      if m.Destroyed? {
        ReleasesAppend(r, Release(m.peer, m.slot), i);
      } else {
        assert r' == r;
      }
      assert SlotLinked(table, Final(a, q), i, Destroys(q, i) + Releases(r, i));
    }
    if m.Destroyed? {
      ReleaseIsLast(table, a, q, r, m.slot);
    }
    forall j | 0 <= j < |r'|
      ensures Resolves(table, r'[j])
    {
      if j < |r| {
        assert Resolves(table, r[j]);
      }
    }
  }

  /** While the service has an address, its release is not under way. */
  lemma ReleaseIsLast(table: Table, a: Store, q: seq<ToService>, r: seq<ToClient>, i: nat)
    requires Linked(table, a, q, r) && !SlotFree(a, i)
    ensures forall j | 0 <= j < |r| && r[j].Release? :: r[j].slot != i
  {
    assert SlotLinked(table, Final(a, q), i, Destroys(q, i) + Releases(r, i));
    if Destroys(q, i) == 0 {
      UsedUntilDestroyed(a, q, i);
    }
    forall j | 0 <= j < |r| && r[j].Release?
      ensures r[j].slot != i
    {
      if r[j].slot == i {
        NoMoreThanOneRelease(r, j, i);
      }
    }
  }

  /** The service suggests an address it has. */
  lemma SuggestKeepsLink(table: Table, a: Store, q: seq<ToService>, r: seq<ToClient>, m: ToClient)
    requires Linked(table, a, q, r) && m.Suggest? && Key(m.peer, m.slot) in a
    ensures Linked(table, a, q, r + [m])
  {
    var r' := r + [m];
    ReleaseIsLast(table, a, q, r, m.slot);
    forall i: nat
      ensures SlotLinked(table, Final(a, q), i, Destroys(q, i) + Releases(r', i))
    {
      ReleasesAppend(r, m, i);
      assert SlotLinked(table, Final(a, q), i, Destroys(q, i) + Releases(r, i));
    }
    forall j | 0 <= j < |r'|
      ensures Resolves(table, r'[j])
    {
      if j < |r| {
        assert Resolves(table, r[j]);
      }
    }
  }

  /** The client takes a suggestion. */
  lemma TakeSuggestionKeepsLink(table: Table, a: Store, q: seq<ToService>, r: seq<ToClient>)
    requires Linked(table, a, q, r) && r != [] && r[0].Suggest?
    ensures Owned(table, Key(r[0].peer, r[0].slot))
    ensures Linked(table, a, q, r[1..])
  {
    assert Resolves(table, r[0]);
    forall i: nat
      ensures SlotLinked(table, Final(a, q), i, Destroys(q, i) + Releases(r[1..], i))
    {
      assert SlotLinked(table, Final(a, q), i, Destroys(q, i) + Releases(r, i));
    }
  }

  /** The client takes a release and empties the slot. */
  lemma TakeReleaseKeepsLink(table: Table, a: Store, q: seq<ToService>, r: seq<ToClient>)
    requires Linked(table, a, q, r) && r != [] && r[0].Release?
    ensures Occupied(table, r[0].slot) && table[r[0].slot].value.inDestroy
    ensures Linked(table[r[0].slot := None], a, q, r[1..])
  {
    var s := r[0].slot;
    assert SlotLinked(table, Final(a, q), s, Destroys(q, s) + Releases(r, s));
    var table', r' := table[s := None], r[1..];
    if !SlotFree(a, s) || Mentions(q, s) {
      UsedUntilDestroyed(a, q, s);
    }
    forall i: nat
      ensures SlotLinked(table', Final(a, q), i, Destroys(q, i) + Releases(r', i))
    {
      assert SlotLinked(table, Final(a, q), i, Destroys(q, i) + Releases(r, i));
    }
    forall k | k in a
      ensures Owned(table', k)
    {
      assert Owned(table, k);
    }
    forall j | 0 <= j < |q|
      ensures !q[j].Start? && Owned(table', KeyOf(q[j]))
    {
      assert Owned(table, KeyOf(q[j]));
    }
    forall j | 0 <= j < |r'|
      ensures Resolves(table', r'[j])
    {
      assert r'[j] == r[j + 1];
      assert Resolves(table, r[j + 1]);
    }
  }

  /** A new connection starts with the announcements of all records. */
  lemma GreetingLinks(table: Table)
    requires TableOk(table)
    ensures Linked(table, map[], Announcements(table, |table|), [])
  {
    var q := Announcements(table, |table|);
    Announced(table, |table|);
    var f := Final(map[], q);
    forall i: nat
      ensures SlotLinked(table, f, i, Destroys(q, i) + Releases([], i))
    {
      MirrorLinks(table, f, i);
    }
  }

  lemma MirrorLinks(table: Table, f: Store, i: nat)
    requires Mirrors(table, |table|, f)
    ensures SlotLinked(table, f, i, 0)
  {
  }

  /** The addresses of the records below index `n`. */
  ghost predicate Mirrors(table: Table, n: nat, f: Store) {
    && (forall k | k in f :: k.slot < n && Owned(table, k) && f[k] == table[k.slot].value.properties)
    && (forall i: nat | i < n && Occupied(table, i) :: Key(table[i].value.address.peer, i) in f)
  }

  lemma {:induction false} Announced(table: Table, n: nat)
    requires TableOk(table) && n <= |table|
    ensures Clean(map[], Announcements(table, n))
    ensures Mirrors(table, n, Final(map[], Announcements(table, n)))
    ensures forall i: nat :: Destroys(Announcements(table, n), i) == 0
    ensures AllOwned(table, map[], Announcements(table, n), [])
  {
    if n > 0 {
      Announced(table, n - 1);
      if table[n - 1].Some? {
        assert Occupied(table, n - 1);
        var m := AddMessage(table[n - 1].value);
        CleanAppend(map[], Announcements(table, n - 1), m);
        forall i: nat
          ensures Destroys(Announcements(table, n), i) == 0
        {
          DestroysAppend(Announcements(table, n - 1), m, i);
        }
      } else {
        assert Announcements(table, n) == Announcements(table, n - 1);
      }
    }
  }

  // ----- The system -----

  datatype Pipe = Pipe(toService: seq<ToService>, toClient: seq<ToClient>)

  /**
    `conn` is the client's connection while it is up.  The service may have dropped it already; the
    client then still reads what is `left` of the messages that the service wrote.
   */
  datatype System = System(client: Client, conn: Connection, pipes: map<Connection, Pipe>, left: seq<ToClient>,
                           service: Service, unused: Connection)

  function Init(): System {
    System(Client(Vacant(4), 0, false), 0, map[], [], Service(None, map[]), 0)
  }

  /** The messages that the client has yet to read. */
  function Incoming(s: System): seq<ToClient> {
    if s.conn in s.pipes then s.pipes[s.conn].toClient else s.left
  }

  datatype Event =
    | ApiAdd(address: Address, session: Option<Session>, properties: nat, fits: bool)
    | ApiAddSession(slot: nat, newSession: Session)
    | ApiDelSession(slot: nat)
    | ApiUpdate(slot: nat, properties: nat)
    | ApiDestroy(slot: nat)
    | Connect
    | ConnectionLost
    | ClientReceives
    | ServiceReceives(from: Connection)
    | ServiceDrops(from: Connection)
    | Solver(message: ToClient)

  /**
    The rules callers keep: records are used until destroyed, destroyed once, and only without a
    session.  The solver may suggest any address the service has, at any time.
   */
  predicate Enabled(s: System, e: Event) {
    match e
    case ApiAdd(_, _, _, _) => true
    case ApiAddSession(i, _) => Occupied(s.client.table, i) && !RecordAt(s.client, i).inDestroy
    case ApiDelSession(i) => Occupied(s.client.table, i) && !RecordAt(s.client, i).inDestroy
    case ApiUpdate(i, _) => Occupied(s.client.table, i) && !RecordAt(s.client, i).inDestroy
    case ApiDestroy(i) =>
      Occupied(s.client.table, i) && !RecordAt(s.client, i).inDestroy && RecordAt(s.client, i).session.None?
    case Connect => !s.client.up
    case ConnectionLost => s.client.up
    case ClientReceives => s.client.up && Incoming(s) != []
    case ServiceReceives(c) => c in s.pipes && s.pipes[c].toService != []
    case ServiceDrops(c) => c in s.pipes
    case Solver(m) => m.Suggest? && s.service.client.Some? && Key(m.peer, m.slot) in s.service.addresses
  }

  /** The client's new state and what it sends; sending into a dropped connection loses the messages. */
  function ClientSteps(s: System, c: Client, ms: seq<ToService>): System {
    s.(client := c,
       pipes := if s.conn in s.pipes && ms != [] then s.pipes[s.conn := SendTo(s.pipes[s.conn], ms)] else s.pipes)
  }

  function SendTo(p: Pipe, ms: seq<ToService>): Pipe {
    p.(toService := p.toService + ms)
  }

  function ClientTakes(s: System, m: ToClient): (Client, Outcome) {
    if m.Release? then (AfterRelease(s.client, m.slot), ReleaseOutcome(s.client, m.slot))
    else (s.client, SuggestOutcome(s.client, m))
  }

  function Receive(s: System): System
    requires Incoming(s) != []
  {
    var rest := Incoming(s)[1..];
    var (c, outcome) := ClientTakes(s, Incoming(s)[0]);
    s.(client := c.(up := outcome == Done || outcome == Refused),
       pipes := if s.conn in s.pipes then s.pipes[s.conn := s.pipes[s.conn].(toClient := rest)] else s.pipes,
       left := if s.conn in s.pipes then s.left else rest)
  }

  function Drop(s: System, c: Connection): System
    requires c in s.pipes
  {
    s.(pipes := s.pipes - {c},
       left := if c == s.conn then s.pipes[c].toClient else s.left,
       service := if s.service.client == Some(c) then Service(None, map[]) else s.service)
  }

  /** Replies and suggestions go to the scheduling client, whoever sent the message. */
  function Reply(s: System, ms: seq<ToClient>): map<Connection, Pipe> {
    if s.service.client.Some? && s.service.client.value in s.pipes then
      var c := s.service.client.value;
      s.pipes[c := s.pipes[c].(toClient := s.pipes[c].toClient + ms)]
    else s.pipes
  }

  function Serve(s: System, c: Connection): System
    requires c in s.pipes && s.pipes[c].toService != []
  {
    var p := s.pipes[c];
    var m, popped := p.toService[0], s.(pipes := s.pipes[c := p.(toService := p.toService[1..])]);
    if m.Start? then
      if s.service.client.None? then popped.(service := s.service.(client := Some(c))) else Drop(s, c)
    else
      popped.(service := s.service.(addresses := Handle(s.service.addresses, m)), pipes := Reply(popped, Replies(m)))
  }

  function Next(s: System, e: Event): System
    requires ClientOk(s.client) && Enabled(s, e)
  {
    var c := s.client;
    match e
    case ApiAdd(address, session, properties, fits) =>
      ClientSteps(s, AfterAdd(c, address, session, properties, fits), AddSends(c, address, session, properties, fits))
    case ApiAddSession(i, session) => ClientSteps(s, AfterAddSession(c, i, session), [])
    case ApiDelSession(i) => ClientSteps(s, AfterDelSession(c, i), DelSessionSends(c, i))
    case ApiUpdate(i, properties) => ClientSteps(s, AfterUpdate(c, i, properties), UpdateSends(c, i, properties))
    case ApiDestroy(i) => ClientSteps(s, AfterDestroy(c, i), DestroySends(c, i))
    case Connect =>
      s.(client := c.(up := true), conn := s.unused, unused := s.unused + 1,
         pipes := s.pipes[s.unused := Pipe(Greeting(c), [])])
    case ConnectionLost => s.(client := c.(up := false))
    case ClientReceives => Receive(s)
    case ServiceReceives(from) => Serve(s, from)
    case ServiceDrops(from) => Drop(s, from)
    case Solver(m) => s.(pipes := Reply(s, [m]))
  }

  /** A message runs into a branch that the source marks as an error, or dereferences a null pointer. */
  predicate Faulty(s: System, e: Event)
    requires Enabled(s, e)
  {
    match e
    case ClientReceives => ClientTakes(s, Incoming(s)[0]).1 != Done
    case ServiceReceives(c) =>
      var m := s.pipes[c].toService[0];
      !m.Start? && (s.service.client.None? || Breaks(s.service.addresses, m))
    case _ => false
  }

  /** The next message suggests an inbound address that is in use without a session. */
  predicate SuggestsBare(s: System) {
    && Incoming(s) != [] && Incoming(s)[0].Suggest? && Occupied(s.client.table, Incoming(s)[0].slot)
    && Bare(RecordAt(s.client, Incoming(s)[0].slot))
  }

  // ----- The invariant -----

  /** Unless it is the scheduling client's, a connection still has its START in front. */
  ghost predicate PipeOk(service: Service, c: Connection, p: Pipe) {
    if service.client == Some(c) then Clean(service.addresses, p.toService)
    else p.toService != [] && p.toService[0] == Start && Clean(map[], p.toService[1..]) && p.toClient == []
  }

  ghost predicate LiveOk(table: Table, service: Service, c: Connection, p: Pipe) {
    if service.client == Some(c) then Linked(table, service.addresses, p.toService, p.toClient)
    else p.toService != [] && Linked(table, map[], p.toService[1..], [])
  }

  /** A release that can still arrive finds a dying record. */
  ghost predicate Dying(table: Table, m: ToClient) {
    m.Release? ==> Occupied(table, m.slot) && table[m.slot].value.inDestroy
  }

  ghost predicate LeftOk(table: Table, r: seq<ToClient>) {
    Ordered(r) && forall j | 0 <= j < |r| :: Resolves(table, r[j]) && Dying(table, r[j])
  }

  ghost predicate Inv(s: System) {
    && ClientOk(s.client)
    && (forall c | c in s.pipes :: c < s.unused && PipeOk(s.service, c, s.pipes[c]))
    && (if s.service.client.None? then s.service.addresses == map[] else s.service.client.value in s.pipes)
    && (s.client.up ==> s.conn < s.unused)
    && (s.client.up && s.conn in s.pipes ==> LiveOk(s.client.table, s.service, s.conn, s.pipes[s.conn]))
    && (s.client.up && s.conn !in s.pipes ==> LeftOk(s.client.table, s.left))
  }

  // ----- A dropped connection -----

  /** What a live connection leaves behind can still be read. */
  lemma LinkedLeft(table: Table, a: Store, q: seq<ToService>, r: seq<ToClient>)
    requires Linked(table, a, q, r)
    ensures LeftOk(table, r)
  {
    forall j | 0 <= j < |r| ensures Resolves(table, r[j]) && Dying(table, r[j]) {
      var i := r[j].slot;
      if r[j].Release? {
        NoMoreThanOneRelease(r, j, i);
        assert SlotLinked(table, Final(a, q), i, Destroys(q, i) + Releases(r, i));
      }
    }
  }

  /** Records stay, with their addresses, and dying ones stay dying. */
  ghost predicate RecordsStay(table: Table, table': Table) {
    forall i: nat | Occupied(table, i) ::
      && Occupied(table', i) && table'[i].value.address == table[i].value.address
      && (table[i].value.inDestroy ==> table'[i].value.inDestroy)
  }

  lemma LeftKept(table: Table, table': Table, r: seq<ToClient>)
    requires LeftOk(table, r) && RecordsStay(table, table')
    ensures LeftOk(table', r)
  {
    forall j | 0 <= j < |r| ensures Resolves(table', r[j]) && Dying(table', r[j]) {
      assert Resolves(table, r[j]) && Dying(table, r[j]);
      if Occupied(table, r[j].slot) {
        assert Occupied(table', r[j].slot);
      }
    }
  }

  lemma TakeLeft(table: Table, r: seq<ToClient>)
    requires LeftOk(table, r) && r != []
    ensures r[0].Suggest? ==> Owned(table, Key(r[0].peer, r[0].slot)) && LeftOk(table, r[1..])
    ensures r[0].Release? ==>
              && Occupied(table, r[0].slot) && table[r[0].slot].value.inDestroy
              && LeftOk(table[r[0].slot := None], r[1..])
  {
    assert Resolves(table, r[0]) && Dying(table, r[0]);
    var rest := r[1..];
    forall j, k | 0 <= j < k < |rest| && rest[j].Release? ensures rest[k].slot != rest[j].slot {
      assert r[j + 1].Release? && rest[k] == r[k + 1];
    }
    var table' := if r[0].Release? then table[r[0].slot := None] else table;
    forall j | 0 <= j < |rest| ensures Resolves(table', rest[j]) && Dying(table', rest[j]) {
      assert rest[j] == r[j + 1];
      assert Resolves(table, r[j + 1]) && Dying(table, r[j + 1]);
    }
  }

  // ----- Every step keeps it -----

  /** Whatever the service knows, the new table fits it once `ms` are sent. */
  ghost predicate KeepsLink(table: Table, table': Table, ms: seq<ToService>) {
    forall a: Store, q: seq<ToService>, r: seq<ToClient> :: Linked(table, a, q, r) ==> Linked(table', a, q + ms, r)
  }

  /** A client step: only the live connection gets messages, and it stays linked. */
  lemma ClientStepKeepsInv(s: System, c: Client, ms: seq<ToService>)
    requires Inv(s) && ClientOk(c) && c.up == s.client.up
    requires !c.up ==> ms == []
    requires c.up ==> KeepsLink(s.client.table, c.table, ms)
    requires RecordsStay(s.client.table, c.table)
    ensures Inv(ClientSteps(s, c, ms))
  {
    var t := ClientSteps(s, c, ms);
    if s.client.up && s.conn !in s.pipes {
      LeftKept(s.client.table, c.table, s.left);
    }
    if s.client.up && s.conn in s.pipes {
      var p := s.pipes[s.conn];
      assert t.pipes[s.conn] == SendTo(p, ms) by {
        assert p.toService + [] == p.toService;
      }
      if s.service.client != Some(s.conn) {
        assert (p.toService + ms)[1..] == p.toService[1..] + ms;
      }
      assert LiveOk(c.table, s.service, s.conn, t.pipes[s.conn]);
    }
    forall k | k in t.pipes
      ensures k < t.unused && PipeOk(t.service, k, t.pipes[k])
    {
      assert PipeOk(s.service, k, s.pipes[k]);
    }
  }

  lemma AddKeepsInv(s: System, address: Address, session: Option<Session>, properties: nat, fits: bool)
    requires Inv(s)
    ensures Inv(Next(s, ApiAdd(address, session, properties, fits)))
  {
    var c := s.client;
    var d, ms := AfterAdd(c, address, session, properties, fits), AddSends(c, address, session, properties, fits);
    AllocationOk(c);
    if c.up {
      forall a: Store, q: seq<ToService>, r: seq<ToClient> | Linked(c.table, a, q, r)
        ensures Linked(d.table, a, q + ms, r)
      {
        if ms != [] {
          AddKeepsLink(c.table, a, q, r, d.table, NextSlot(c));
        } else {
          assert q + ms == q;
        }
      }
    }
    ClientStepKeepsInv(s, d, ms);
  }

  lemma SilentKeepsLink(table: Table, i: nat, session: Option<Session>)
    requires Occupied(table, i)
    ensures KeepsLink(table, table[i := Some(table[i].value.(session := session))], [])
  {
    var table' := table[i := Some(table[i].value.(session := session))];
    forall a: Store, q: seq<ToService>, r: seq<ToClient> | Linked(table, a, q, r)
      ensures Linked(table', a, q + [], r)
    {
      assert q + [] == q;
      SilentChangeKeepsLink(table, a, q, r, table');
    }
  }

  lemma SpokenKeepsLink(table: Table, i: nat, rec: Record, m: ToService)
    requires Occupied(table, i) && !table[i].value.inDestroy
    requires rec.address == table[i].value.address
    requires || m == Update(rec.address.peer, i, rec.properties)
             || (m == Destroyed(rec.address.peer, i) && rec.inDestroy)
    ensures KeepsLink(table, table[i := Some(rec)], [m])
  {
    forall a: Store, q: seq<ToService>, r: seq<ToClient> | Linked(table, a, q, r)
      ensures Linked(table[i := Some(rec)], a, q + [m], r)
    {
      ChangeKeepsLink(table, a, q, r, i, rec, m);
    }
  }

  lemma RecordEventKeepsInv(s: System, e: Event)
    requires Inv(s) && Enabled(s, e)
    requires e.ApiAddSession? || e.ApiDelSession? || e.ApiUpdate? || e.ApiDestroy?
    ensures Inv(Next(s, e))
  {
    var c := s.client;
    var r := RecordAt(c, e.slot);
    match e
    case ApiAddSession(i, session) =>
      SilentKeepsLink(c.table, i, Some(session));
      ClientStepKeepsInv(s, AfterAddSession(c, i, session), []);
    case ApiUpdate(i, properties) =>
      SpokenKeepsLink(c.table, i, r.(properties := properties), Update(r.address.peer, i, properties));
      ClientStepKeepsInv(s, AfterUpdate(c, i, properties), UpdateSends(c, i, properties));
    case ApiDestroy(i) =>
      SpokenKeepsLink(c.table, i, r.(session := None, inDestroy := true), Destroyed(r.address.peer, i));
      ClientStepKeepsInv(s, AfterDestroy(c, i), DestroySends(c, i));
    case ApiDelSession(i) =>
      if r.address.inbound {
        SpokenKeepsLink(c.table, i, r.(session := None, inDestroy := true), Destroyed(r.address.peer, i));
      } else {
        SilentKeepsLink(c.table, i, None);
      }
      ClientStepKeepsInv(s, AfterDelSession(c, i), DelSessionSends(c, i));
  }

  lemma ConnectKeepsInv(s: System)
    requires Inv(s) && !s.client.up
    ensures Inv(Next(s, Connect))
  {
    var t := Next(s, Connect);
    GreetingLinks(s.client.table);
    var q := Greeting(s.client);
    assert q[1..] == Announcements(s.client.table, |s.client.table|);
    forall c | c in t.pipes
      ensures c < t.unused && PipeOk(t.service, c, t.pipes[c])
    {
      if c in s.pipes {
        assert PipeOk(s.service, c, s.pipes[c]);
      }
    }
  }

  /** Taking a message from a live or a dropped connection. */
  lemma ReceiveTakes(s: System)
    requires Inv(s) && Enabled(s, ClientReceives)
    ensures var m := Incoming(s)[0];
            if m.Release? then Occupied(s.client.table, m.slot) && RecordAt(s.client, m.slot).inDestroy
            else Owned(s.client.table, Key(m.peer, m.slot))
    ensures var t := Receive(s);
            if s.conn in s.pipes then LiveOk(t.client.table, t.service, t.conn, t.pipes[t.conn])
            else LeftOk(t.client.table, t.left)
  {
    if s.conn in s.pipes {
      var p := s.pipes[s.conn];
      assert PipeOk(s.service, s.conn, p);
      if p.toClient[0].Release? {
        TakeReleaseKeepsLink(s.client.table, s.service.addresses, p.toService, p.toClient);
      } else {
        TakeSuggestionKeepsLink(s.client.table, s.service.addresses, p.toService, p.toClient);
      }
    } else {
      TakeLeft(s.client.table, s.left);
    }
  }

  lemma ReceiveKeepsInv(s: System)
    requires Inv(s) && Enabled(s, ClientReceives)
    ensures Inv(Receive(s)) && Receive(s).client.up && (Faulty(s, ClientReceives) <==> SuggestsBare(s))
  {
    var t := Receive(s);
    ReceiveTakes(s);
    assert Occupied(s.client.table, Incoming(s)[0].slot);
    forall c | c in t.pipes
      ensures c < t.unused && PipeOk(t.service, c, t.pipes[c])
    {
      assert PipeOk(s.service, c, s.pipes[c]);
    }
  }

  lemma DropKeepsInv(s: System, c: Connection)
    requires Inv(s) && c in s.pipes
    ensures Inv(Drop(s, c))
  {
    var t := Drop(s, c);
    forall k | k in t.pipes
      ensures k < t.unused && PipeOk(t.service, k, t.pipes[k])
    {
      assert PipeOk(s.service, k, s.pipes[k]);
    }
    if s.client.up && c == s.conn {
      var p := s.pipes[c];
      if s.service.client == Some(c) {
        LinkedLeft(s.client.table, s.service.addresses, p.toService, p.toClient);
      } else {
        assert PipeOk(s.service, c, p);
      }
    }
  }

  lemma StartKeepsInv(s: System, c: Connection)
    requires Inv(s) && c in s.pipes && s.pipes[c].toService != [] && s.pipes[c].toService[0].Start?
    ensures Inv(Serve(s, c))
  {
    if s.service.client.Some? {
      DropKeepsInv(s, c);
    } else {
      var t := Serve(s, c);
      assert PipeOk(s.service, c, s.pipes[c]);
      forall k | k in t.pipes
        ensures k < t.unused && PipeOk(t.service, k, t.pipes[k])
      {
        assert PipeOk(s.service, k, s.pipes[k]);
      }
    }
  }

  lemma MessageKeepsInv(s: System, c: Connection)
    requires Inv(s) && c in s.pipes && s.pipes[c].toService != [] && !s.pipes[c].toService[0].Start?
    ensures s.service.client == Some(c) && !Breaks(s.service.addresses, s.pipes[c].toService[0])
    ensures Inv(Serve(s, c))
  {
    var p, t := s.pipes[c], Serve(s, c);
    assert PipeOk(s.service, c, p);
    var m := p.toService[0];
    if s.client.up && s.conn == c {
      HandleKeepsLink(s.client.table, s.service.addresses, p.toService, p.toClient);
    }
    assert t.pipes[c] == Pipe(p.toService[1..], p.toClient + Replies(m));
    forall k | k in t.pipes
      ensures k < t.unused && PipeOk(t.service, k, t.pipes[k])
    {
      assert PipeOk(s.service, k, s.pipes[k]);
    }
  }

  lemma SolverKeepsInv(s: System, m: ToClient)
    requires Inv(s) && Enabled(s, Solver(m))
    ensures Inv(Next(s, Solver(m)))
  {
    var c, t := s.service.client.value, Next(s, Solver(m));
    var p := s.pipes[c];
    if s.client.up && s.conn == c {
      SuggestKeepsLink(s.client.table, s.service.addresses, p.toService, p.toClient, m);
    }
    assert t.pipes[c] == p.(toClient := p.toClient + [m]);
    forall k | k in t.pipes
      ensures k < t.unused && PipeOk(t.service, k, t.pipes[k])
    {
      assert PipeOk(s.service, k, s.pipes[k]);
    }
  }

  /**
    Every step keeps the invariant, and the one error branch that a message can run into is that of
    a suggestion for an inbound address in use without a session.
   */
  lemma NextKeepsInv(s: System, e: Event)
    requires Inv(s) && Enabled(s, e)
    ensures Inv(Next(s, e)) && (Faulty(s, e) <==> e.ClientReceives? && SuggestsBare(s))
  {
    match e
    case ApiAdd(address, session, properties, fits) => AddKeepsInv(s, address, session, properties, fits);
    case ApiAddSession(_, _) => RecordEventKeepsInv(s, e);
    case ApiDelSession(_) => RecordEventKeepsInv(s, e);
    case ApiUpdate(_, _) => RecordEventKeepsInv(s, e);
    case ApiDestroy(_) => RecordEventKeepsInv(s, e);
    case Connect => ConnectKeepsInv(s);
    case ConnectionLost =>
    case ClientReceives => ReceiveKeepsInv(s);
    case ServiceReceives(c) =>
      if s.pipes[c].toService[0].Start? {
        StartKeepsInv(s, c);
      } else {
        MessageKeepsInv(s, c);
      }
    case ServiceDrops(c) => DropKeepsInv(s, c);
    case Solver(m) => SolverKeepsInv(s, m);
  }

  // ----- Whole runs -----

  /** `s'` comes after the events `es`, each possible when it happened. */
  ghost predicate Run(s: System, es: seq<Event>, s': System)
    decreases |es|
  {
    if es == [] then s' == s
    else ClientOk(s.client) && Enabled(s, es[0]) && Run(Next(s, es[0]), es[1..], s')
  }

  ghost predicate Reachable(s: System) {
    exists es :: Run(Init(), es, s)
  }

  lemma {:induction false} RunKeepsInv(s: System, es: seq<Event>, s': System)
    requires Inv(s) && Run(s, es, s')
    ensures Inv(s')
    decreases |es|
  {
    if es != [] {
      NextKeepsInv(s, es[0]);
      RunKeepsInv(Next(s, es[0]), es[1..], s');
    }
  }

  lemma ReachableInv(s: System)
    requires Reachable(s)
    ensures Inv(s)
  {
    var es :| Run(Init(), es, s);
    RunKeepsInv(Init(), es, s);
  }

  /**
    In no run does the service see a second ADD for an address it has or an UPDATE or DESTROYED
    for one it has not, nor the client a RELEASE for an empty slot or for a live session, nor a
    suggestion that makes it give up the connection.  What is left is a suggestion for an inbound
    address in use without a session.
   */
  lemma NoRunFaults(s: System, e: Event)
    requires Reachable(s) && Enabled(s, e)
    ensures ClientOk(s.client) && (Faulty(s, e) <==> e.ClientReceives? && SuggestsBare(s))
    ensures Next(s, e).client.up == (e.Connect? || (s.client.up && !e.ConnectionLost?))
  {
    ReachableInv(s);
    NextKeepsInv(s, e);
    if e.ClientReceives? {
      ReceiveKeepsInv(s);
    }
  }

  /**
    In every run the offset lies in the table, slot 0 is empty and every record is in the slot it
    names, so that the next number handed out is in bounds, non-zero and free.
   */
  lemma TableSoundInEveryRun(s: System)
    requires Reachable(s)
    ensures TableOk(s.client.table) && s.client.off < |s.client.table|
    ensures 0 < NextSlot(s.client) < |WithSlot(s.client).table| && !Occupied(s.client.table, NextSlot(s.client))
  {
    ReachableInv(s);
    AllocationOk(s.client);
  }

  /**
    The number an ADD is given is not in use at a service that listens to the client, nor under
    way in either direction.  See StaleConnectionRevivesNumber for a service that does not.
   */
  lemma NoRunReassigns(s: System)
    requires Reachable(s) && s.client.up
    ensures ClientOk(s.client)
    ensures var i := NextSlot(s.client);
            && (s.service.client == Some(s.conn) ==> SlotFree(s.service.addresses, i))
            && (s.conn in s.pipes ==> !Mentions(s.pipes[s.conn].toService, i))
            && forall j | 0 <= j < |Incoming(s)| :: Incoming(s)[j].slot != i
  {
    ReachableInv(s);
    AllocationOk(s.client);
    if s.conn in s.pipes {
      LiveSlotUnused(s, NextSlot(s.client));
    } else {
      LeftSlotUnused(s.client.table, s.left, NextSlot(s.client));
    }
  }

  lemma LeftSlotUnused(table: Table, r: seq<ToClient>, i: nat)
    requires LeftOk(table, r) && !Occupied(table, i)
    ensures forall j | 0 <= j < |r| :: r[j].slot != i
  {
    forall j | 0 <= j < |r| ensures r[j].slot != i {
      assert Resolves(table, r[j]) && Dying(table, r[j]);
    }
  }

  lemma LiveSlotUnused(s: System, i: nat)
    requires Inv(s) && s.client.up && s.conn in s.pipes && !Occupied(s.client.table, i)
    ensures s.service.client == Some(s.conn) ==> SlotFree(s.service.addresses, i)
    ensures !Mentions(s.pipes[s.conn].toService, i)
    ensures forall j | 0 <= j < |s.pipes[s.conn].toClient| :: s.pipes[s.conn].toClient[j].slot != i
  {
    var p := s.pipes[s.conn];
    if s.service.client == Some(s.conn) {
      FreeSlotUnreferenced(s.client.table, s.service.addresses, p.toService, p.toClient, i);
    } else {
      FreeSlotUnreferenced(s.client.table, map[], p.toService[1..], [], i);
      assert PipeOk(s.service, s.conn, p);
      forall j | 0 <= j < |p.toService| && !p.toService[j].Start?
        ensures p.toService[j].slot != i
      {
        assert p.toService[1..][j - 1] == p.toService[j];
      }
    }
  }

  /** A suggestion the client gets resolves to the record of the peer it is for, in the slot it names. */
  lemma SuggestionsResolve(s: System)
    requires Reachable(s) && Enabled(s, ClientReceives) && Incoming(s)[0].Suggest?
    ensures var m := Incoming(s)[0];
            var r := FindSession(s.client.table, m.slot, m.peer);
            r.Some? && r.value.address.peer == m.peer && r.value.slot == m.slot
  {
    ReachableInv(s);
    ReceiveTakes(s);
    assert Occupied(s.client.table, Incoming(s)[0].slot);
  }

  /** Once both channels are empty the service has exactly the client's records, up to date. */
  lemma QuietServiceMirrorsClient(s: System)
    requires Reachable(s) && s.client.up && s.service.client == Some(s.conn)
    requires s.conn in s.pipes && s.pipes[s.conn] == Pipe([], [])
    ensures forall k: Key :: k in s.service.addresses <==> Owned(s.client.table, k)
    ensures forall k: Key | k in s.service.addresses ::
              Owned(s.client.table, k) && s.service.addresses[k] == s.client.table[k.slot].value.properties
  {
    ReachableInv(s);
    var a, table := s.service.addresses, s.client.table;
    forall k: Key
      ensures k in a <==> Owned(table, k)
      ensures k in a ==> a[k] == table[k.slot].value.properties
    {
      assert SlotLinked(table, Final(a, []), k.slot, Destroys([], k.slot) + Releases([], k.slot));
      if k in a {
        assert Owned(table, k);
      }
    }
  }

  // ----- Slots that are never released -----

  /** What of slot i is under way on the client's connection. */
  ghost function UnderWay(s: System, i: nat): nat {
    (if s.conn in s.pipes then Destroys(s.pipes[s.conn].toService, i) else 0) + Releases(Incoming(s), i)
  }

  /** A dying record whose release is not on its way on the client's connection. */
  ghost predicate Stuck(s: System, i: nat) {
    && Occupied(s.client.table, i) && RecordAt(s.client, i).inDestroy
    && (s.client.up ==> UnderWay(s, i) == 0)
  }

  /** Losing the connection before the release arrives, or destroying a record without one, leaves it stuck. */
  lemma DownMakesStuck(s: System, i: nat)
    requires Inv(s) && Occupied(s.client.table, i)
    ensures RecordAt(s.client, i).inDestroy && s.client.up ==> Stuck(Next(s, ConnectionLost), i)
    ensures Enabled(s, ApiDestroy(i)) && !s.client.up ==> Stuck(Next(s, ApiDestroy(i)), i)
  {
  }

  lemma {:induction false} DestroysConcat(q: seq<ToService>, ms: seq<ToService>, i: nat)
    ensures Destroys(q + ms, i) == Destroys(q, i) + Destroys(ms, i)
  {
    if q == [] {
      assert q + ms == ms;
    } else {
      DestroysConcat(q[1..], ms, i);
      assert (q + ms)[1..] == q[1..] + ms;
    }
  }

  lemma ClientStepKeepsStuck(s: System, c: Client, ms: seq<ToService>, i: nat)
    requires Stuck(s, i) && c.up == s.client.up && Occupied(c.table, i) && c.table[i] == s.client.table[i]
    requires Destroys(ms, i) == 0
    ensures Stuck(ClientSteps(s, c, ms), i)
  {
    if s.conn in s.pipes {
      DestroysConcat(s.pipes[s.conn].toService, ms, i);
    }
  }

  lemma ClientEventKeepsStuck(s: System, e: Event, i: nat)
    requires Inv(s) && Enabled(s, e) && Stuck(s, i)
    requires e.ApiAdd? || e.ApiAddSession? || e.ApiDelSession? || e.ApiUpdate? || e.ApiDestroy?
    ensures Stuck(Next(s, e), i)
  {
    var c := s.client;
    match e
    case ApiAdd(address, session, properties, fits) =>
      AllocationOk(c);
      ClientStepKeepsStuck(s, AfterAdd(c, address, session, properties, fits),
                           AddSends(c, address, session, properties, fits), i);
    case ApiAddSession(j, session) =>
      ClientStepKeepsStuck(s, AfterAddSession(c, j, session), [], i);
    case ApiDelSession(j) =>
      assert Occupied(c.table, i) && j != i;
      ClientStepKeepsStuck(s, AfterDelSession(c, j), DelSessionSends(c, j), i);
    case ApiUpdate(j, properties) =>
      ClientStepKeepsStuck(s, AfterUpdate(c, j, properties), UpdateSends(c, j, properties), i);
    case ApiDestroy(j) =>
      ClientStepKeepsStuck(s, AfterDestroy(c, j), DestroySends(c, j), i);
  }

  lemma ServeKeepsStuck(s: System, c: Connection, i: nat)
    requires Inv(s) && Enabled(s, ServiceReceives(c)) && Stuck(s, i)
    ensures Stuck(Serve(s, c), i)
  {
    var m := s.pipes[c].toService[0];
    if !m.Start? {
      MessageKeepsInv(s, c);
      if m.Destroyed? {
        ReleasesAppend(s.pipes[c].toClient, Release(m.peer, m.slot), i);
      } else {
        assert s.pipes[c].toClient + [] == s.pipes[c].toClient;
      }
    }
  }

  lemma ConnectKeepsStuck(s: System, i: nat)
    requires Inv(s) && Enabled(s, Connect) && Stuck(s, i)
    ensures Stuck(Next(s, Connect), i)
  {
    var q := Announcements(s.client.table, |s.client.table|);
    Announced(s.client.table, |s.client.table|);
    assert Greeting(s.client)[1..] == q;
    assert Incoming(Next(s, Connect)) == [] && Next(s, Connect).pipes[s.unused].toService == Greeting(s.client);
    assert Destroys(Greeting(s.client), i) == Destroys(q, i) == 0;
  }

  /** A stuck record stays stuck whatever happens: its slot is lost for good. */
  lemma StuckForGood(s: System, e: Event, i: nat)
    requires Inv(s) && Enabled(s, e) && Stuck(s, i)
    ensures Stuck(Next(s, e), i)
  {
    match e
    case ClientReceives => ReceiveTakes(s);
    case ServiceReceives(c) => ServeKeepsStuck(s, c, i);
    case Connect => ConnectKeepsStuck(s, i);
    case Solver(m) => ReleasesAppend(s.pipes[s.service.client.value].toClient, m, i);
    case ConnectionLost =>
    case ServiceDrops(_) =>
    case _ => ClientEventKeepsStuck(s, e, i);
  }

  lemma {:induction false} StuckInEveryRun(s: System, es: seq<Event>, s': System, i: nat)
    requires Inv(s) && Stuck(s, i) && Run(s, es, s')
    ensures Stuck(s', i)
    decreases |es|
  {
    if es != [] {
      NextKeepsInv(s, es[0]);
      StuckForGood(s, es[0], i);
      StuckInEveryRun(Next(s, es[0]), es[1..], s', i);
    }
  }

  // ----- Slots that are released -----

  /** One event in front of a run. */
  lemma RunCons(s: System, e: Event, es: seq<Event>, t: System)
    requires ClientOk(s.client) && Enabled(s, e) && Run(Next(s, e), es, t)
    ensures Run(s, [e] + es, t)
  {
    assert ([e] + es)[0] == e && ([e] + es)[1..] == es;
  }

  /** The client's connection is the one the service listens to. */
  ghost predicate Attached(s: System) {
    s.client.up && s.conn in s.pipes && s.service.client == Some(s.conn)
  }

  /** Taking a message: the release empties its slot, any other leaves the release on its way. */
  lemma ReceiveStep(s: System, i: nat)
    requires Inv(s) && s.client.up && Releases(Incoming(s), i) > 0
    ensures Enabled(s, ClientReceives)
    ensures var t := Next(s, ClientReceives);
            Inv(t) && t.client.up && |Incoming(t)| == |Incoming(s)| - 1
            && (!Occupied(t.client.table, i) || Releases(Incoming(t), i) > 0)
  {
    ReceiveKeepsInv(s);
    ReceiveTakes(s);
  }

  lemma {:induction false} ReceiveUntilFree(s: System, i: nat) returns (es: seq<Event>, t: System)
    requires Inv(s) && s.client.up && Releases(Incoming(s), i) > 0
    ensures Run(s, es, t) && !Occupied(t.client.table, i)
    decreases |Incoming(s)|
  {
    ReceiveStep(s, i);
    var u := Next(s, ClientReceives);
    if !Occupied(u.client.table, i) {
      es, t := [], u;
    } else {
      es, t := ReceiveUntilFree(u, i);
    }
    RunCons(s, ClientReceives, es, t);
    es := [ClientReceives] + es;
  }

  lemma ServeStep(s: System, i: nat)
    requires Inv(s) && Attached(s) && s.pipes[s.conn].toService != []
    ensures Enabled(s, ServiceReceives(s.conn))
    ensures var t := Next(s, ServiceReceives(s.conn));
            Inv(t) && Attached(t) && t.conn == s.conn && t.client == s.client && UnderWay(t, i) == UnderWay(s, i)
            && |t.pipes[t.conn].toService| == |s.pipes[s.conn].toService| - 1
  {
    NextKeepsInv(s, ServiceReceives(s.conn));
    var p := s.pipes[s.conn];
    HandleKeepsLink(s.client.table, s.service.addresses, p.toService, p.toClient);
    var m := p.toService[0];
    if m.Destroyed? {
      ReleasesAppend(p.toClient, Release(m.peer, m.slot), i);
    } else {
      assert p.toClient + [] == p.toClient;
    }
  }

  lemma {:induction false} ServeUntilFree(s: System, i: nat) returns (es: seq<Event>, t: System)
    requires Inv(s) && Attached(s) && UnderWay(s, i) > 0
    ensures Run(s, es, t) && !Occupied(t.client.table, i)
    decreases |s.pipes[s.conn].toService|
  {
    if s.pipes[s.conn].toService == [] {
      es, t := ReceiveUntilFree(s, i);
    } else {
      ServeStep(s, i);
      es, t := ServeUntilFree(Next(s, ServiceReceives(s.conn)), i);
      RunCons(s, ServiceReceives(s.conn), es, t);
      es := [ServiceReceives(s.conn)] + es;
    }
  }

  /** The service takes the client's START when it has no other client. */
  lemma StartStep(s: System, i: nat)
    requires Inv(s) && s.client.up && s.conn in s.pipes && s.service.client.None?
    ensures Enabled(s, ServiceReceives(s.conn))
    ensures var t := Next(s, ServiceReceives(s.conn));
            Inv(t) && Attached(t) && t.conn == s.conn && t.client == s.client && UnderWay(t, i) == UnderWay(s, i)
  {
    assert PipeOk(s.service, s.conn, s.pipes[s.conn]);
    NextKeepsInv(s, ServiceReceives(s.conn));
  }

  /** A dying record whose DESTROYED or RELEASE is under way is freed by some run. */
  lemma FreedBySomeRun(s: System, i: nat) returns (es: seq<Event>, t: System)
    requires Inv(s) && s.client.up && UnderWay(s, i) > 0
    ensures Run(s, es, t) && !Occupied(t.client.table, i)
  {
    if s.conn !in s.pipes {
      es, t := ReceiveUntilFree(s, i);
    } else if Attached(s) {
      es, t := ServeUntilFree(s, i);
    } else if s.service.client.None? {
      StartStep(s, i);
      es, t := ServeUntilFree(Next(s, ServiceReceives(s.conn)), i);
      RunCons(s, ServiceReceives(s.conn), es, t);
      es := [ServiceReceives(s.conn)] + es;
    } else {
      var drop := ServiceDrops(s.service.client.value);
      NextKeepsInv(s, drop);
      var u := Next(s, drop);
      StartStep(u, i);
      es, t := ServeUntilFree(Next(u, ServiceReceives(u.conn)), i);
      RunCons(u, ServiceReceives(u.conn), es, t);
      RunCons(s, drop, [ServiceReceives(u.conn)] + es, t);
      es := [drop] + ([ServiceReceives(u.conn)] + es);
    }
  }

  /** No run frees the slot. */
  ghost predicate NeverFreed(s: System, i: nat) {
    forall es: seq<Event>, t: System :: Run(s, es, t) ==> Occupied(t.client.table, i)
  }

  lemma FreeingRun(s: System, es: seq<Event>, t: System, i: nat)
    requires Run(s, es, t) && !Occupied(t.client.table, i)
    ensures !NeverFreed(s, i)
  {
  }

  /** A dying record keeps its slot in every run exactly when neither its DESTROYED nor its RELEASE is under way. */
  lemma StuckIffNeverFreed(s: System, i: nat)
    requires Reachable(s) && Occupied(s.client.table, i) && RecordAt(s.client, i).inDestroy
    ensures Stuck(s, i) <==> NeverFreed(s, i)
  {
    ReachableInv(s);
    if Stuck(s, i) {
      forall es: seq<Event>, t: System | Run(s, es, t) ensures Occupied(t.client.table, i) {
        StuckInEveryRun(s, es, t, i);
      }
    } else {
      var es, t := FreedBySomeRun(s, i);
      FreeingRun(s, es, t, i);
    }
  }

  // ----- Runs that show it -----

  lemma {:induction false} RunOn(s: System, es: seq<Event>, t: System, e: Event)
    requires Run(s, es, t) && ClientOk(t.client) && Enabled(t, e)
    ensures Run(s, es + [e], Next(t, e))
    decreases |es|
  {
    if es == [] {
      assert (es + [e])[1..] == [];
    } else {
      RunOn(Next(s, es[0]), es[1..], t, e);
      assert (es + [e])[1..] == es[1..] + [e];
    }
  }

  lemma ReachableNext(s: System, e: Event)
    requires Reachable(s) && ClientOk(s.client) && Enabled(s, e)
    ensures Reachable(Next(s, e)) && ClientOk(Next(s, e).client)
  {
    var es :| Run(Init(), es, s);
    RunOn(Init(), es, s, e);
    ReachableInv(Next(s, e));
  }

  lemma InitReachable()
    ensures Reachable(Init()) && ClientOk(Init().client)
  {
    assert Run(Init(), [], Init());
  }

  /** The table with one record in slot 1. */
  function One(r: Record): Table {
    [None, Some(r), None, None]
  }

  /** The first address takes slot 1. */
  lemma FirstAdd(c: Client, address: Address)
    requires c.table == Vacant(4) && c.off <= 1
    ensures var r := Record(address, None, 0, 1, false);
            && NextSlot(c) == 1
            && AfterAdd(c, address, None, 0, true) == c.(off := 1, table := One(r))
            && AddSends(c, address, None, 0, true) == if c.up then [Add(address.peer, 1, 0)] else []
  {
    assert FindIdFrom(c.table, None, address, 1) == 0;
    assert Vacant(4)[1 := Some(Record(address, None, 0, 1, false))] == One(Record(address, None, 0, 1, false));
  }

  /** An address that is destroyed just before its connection is lost: its slot is never free again. */
  lemma StuckIsReachable(address: Address) returns (s: System)
    ensures Reachable(s) && Stuck(s, 1)
  {
    InitReachable();
    var r := Record(address, None, 0, 1, false);
    var s1 := Next(Init(), Connect);
    ReachableNext(Init(), Connect);
    FirstAdd(s1.client, address);
    var s2 := Next(s1, ApiAdd(address, None, 0, true));
    ReachableNext(s1, ApiAdd(address, None, 0, true));
    assert Occupied(s2.client.table, 1) && RecordAt(s2.client, 1) == r;
    var s3 := Next(s2, ApiDestroy(1));
    ReachableNext(s2, ApiDestroy(1));
    s := Next(s3, ConnectionLost);
    ReachableNext(s3, ConnectionLost);
  }

  /** What a client with one record, or none, sends over a new connection. */
  lemma Greetings(r: Record, off: nat, up: bool)
    ensures Greeting(Client(Vacant(4), off, up)) == [Start]
    ensures Greeting(Client(One(r), off, up)) == [Start, AddMessage(r)]
  {
    var t, v := One(r), Vacant(4);
    assert Announcements(v, 0) == Announcements(v, 1) == Announcements(v, 2) == Announcements(v, 3) == [];
    assert Announcements(v, 4) == [];
    assert Announcements(t, 0) == Announcements(t, 1) == [];
    assert Announcements(t, 2) == [AddMessage(r)] == Announcements(t, 3);
    assert Announcements(t, 4) == [AddMessage(r)];
  }

  /** A record is announced over one connection, which is lost, and again over a second one. */
  lemma AnnouncedTwice(address: Address, r: Record) returns (s: System)
    requires r == Record(address, None, 0, 1, false)
    ensures s == System(Client(One(r), 1, true), 1,
                        Two(Pipe([Start, AddMessage(r)], []), [Start, AddMessage(r)], []), [],
                        Service(None, map[]), 2)
    ensures Reachable(s) && ClientOk(s.client)
  {
    InitReachable();
    Greetings(r, 0, false);
    Greetings(r, 1, false);
    var s1 := Next(Init(), Connect);
    ReachableNext(Init(), Connect);
    FirstAdd(s1.client, address);
    var s2 := Next(s1, ApiAdd(address, None, 0, true));
    ReachableNext(s1, ApiAdd(address, None, 0, true));
    assert [Start] + [AddMessage(r)] == [Start, AddMessage(r)];
    assert s2.pipes == map[0 := Pipe([Start, AddMessage(r)], [])];
    var s3 := Next(s2, ConnectionLost);
    ReachableNext(s2, ConnectionLost);
    s := Next(s3, Connect);
    ReachableNext(s3, Connect);
  }

  /** The two connections of the example. */
  function Two(stale: Pipe, q: seq<ToService>, r: seq<ToClient>): map<Connection, Pipe> {
    map[0 := stale, 1 := Pipe(q, r)]
  }

  lemma TwoPut(stale: Pipe, q: seq<ToService>, r: seq<ToClient>, p: Pipe)
    ensures Two(stale, q, r)[1 := p] == Two(stale, p.toService, p.toClient)
  {
  }

  lemma StartServed(s: System, stale: Pipe, m: ToService)
    requires s.pipes == Two(stale, [Start, m], []) && s.service == Service(None, map[])
    ensures Serve(s, 1) == s.(service := Service(Some(1), map[]), pipes := Two(stale, [m], []))
  {
    assert [Start, m][1..] == [m];
    TwoPut(stale, [Start, m], [], Pipe([m], []));
  }

  lemma MessageServed(s: System, stale: Pipe, m: ToService)
    requires s.pipes == Two(stale, [m], []) && s.service.client == Some(1) && !m.Start?
    ensures Serve(s, 1) == s.(service := Service(Some(1), Handle(s.service.addresses, m)),
                              pipes := Two(stale, [], Replies(m)))
  {
    assert [m][1..] == [] && [] + Replies(m) == Replies(m);
    TwoPut(stale, [m], [], Pipe([], []));
    TwoPut(stale, [], [], Pipe([], Replies(m)));
  }

  lemma DestroySent(s: System, stale: Pipe, r: Record)
    requires r == Record(r.address, None, 0, 1, false) && s.client == Client(One(r), 1, true)
    requires s.pipes == Two(stale, [], []) && s.conn == 1
    ensures Occupied(s.client.table, 1) && ClientOk(s.client) && Enabled(s, ApiDestroy(1))
    ensures Next(s, ApiDestroy(1)) == s.(client := Client(One(r.(inDestroy := true)), 1, true),
                                         pipes := Two(stale, [Destroyed(r.address.peer, 1)], []))
  {
    var bye := Destroyed(r.address.peer, 1);
    assert [] + [bye] == [bye];
    assert One(r)[1 := Some(r.(inDestroy := true))] == One(r.(inDestroy := true));
    TwoPut(stale, [], [], Pipe([bye], []));
  }

  lemma ReleaseTaken(s: System, stale: Pipe, r: Record)
    requires r == Record(r.address, None, 0, 1, true) && s.client == Client(One(r), 1, true)
    requires s.pipes == Two(stale, [], [Release(r.address.peer, 1)]) && s.conn == 1
    ensures Receive(s) == s.(client := Client(Vacant(4), 1, true), pipes := Two(stale, [], []))
  {
    assert One(r)[1 := None] == Vacant(4);
    assert [Release(r.address.peer, 1)][1..] == [];
    TwoPut(stale, [], [Release(r.address.peer, 1)], Pipe([], []));
  }

  /** Over the second connection the record is served, destroyed and released. */
  lemma ServedAndReleased(s: System, r: Record, stale: Pipe) returns (t: System)
    requires r == Record(r.address, None, 0, 1, false) && Reachable(s) && ClientOk(s.client)
    requires s == System(Client(One(r), 1, true), 1, Two(stale, [Start, AddMessage(r)], []), [],
                         Service(None, map[]), 2)
    ensures t == System(Client(Vacant(4), 1, true), 1, Two(stale, [], []), [], Service(Some(1), map[]), 2)
    ensures Reachable(t) && ClientOk(t.client)
  {
    StartServed(s, stale, AddMessage(r));
    var s1 := Next(s, ServiceReceives(1));
    ReachableNext(s, ServiceReceives(1));
    MessageServed(s1, stale, AddMessage(r));
    var s2 := Next(s1, ServiceReceives(1));
    ReachableNext(s1, ServiceReceives(1));
    DestroySent(s2, stale, r);
    var s3 := Next(s2, ApiDestroy(1));
    ReachableNext(s2, ApiDestroy(1));
    var bye := Destroyed(r.address.peer, 1);
    assert Handle(map[Key(r.address.peer, 1) := 0], bye) == map[];
    MessageServed(s3, stale, bye);
    var s4 := Next(s3, ServiceReceives(1));
    ReachableNext(s3, ServiceReceives(1));
    ReleaseTaken(s4, stale, r.(inDestroy := true));
    t := Next(s4, ClientReceives);
    ReachableNext(s4, ClientReceives);
  }

  /** A service without a client serves the connection given up first. */
  lemma StaleServed(s: System, r: Record) returns (t: System)
    requires Reachable(s) && ClientOk(s.client) && s.service == Service(None, map[]) && 0 in s.pipes
    requires s.pipes[0] == Pipe([Start, AddMessage(r)], []) && r.slot == 1
    ensures Reachable(t) && t.client == s.client && t.conn == s.conn && t.service.client == Some(0)
    ensures t.pipes.Keys == s.pipes.Keys && Key(r.address.peer, 1) in t.service.addresses
  {
    var m := AddMessage(r);
    var u := Next(s, ServiceReceives(0));
    ReachableNext(s, ServiceReceives(0));
    assert u.pipes[0] == Pipe([m], []) && u.service == Service(Some(0), map[]);
    t := Next(u, ServiceReceives(0));
    ReachableNext(u, ServiceReceives(0));
  }

  /**
    A connection given up long ago can still bring a released number back to the service while
    the client is about to hand it out again; the client's own START is refused until that
    connection is dropped.
   */
  lemma StaleConnectionRevivesNumber(address: Address) returns (s: System)
    ensures Reachable(s) && s.client.up && s.conn in s.pipes && s.service.client.Some?
    ensures s.service.client != Some(s.conn) && ClientOk(s.client)
    ensures !SlotFree(s.service.addresses, NextSlot(s.client))
  {
    var r := Record(address, None, 0, 1, false);
    var a := AnnouncedTwice(address, r);
    var b := ServedAndReleased(a, r, Pipe([Start, AddMessage(r)], []));
    var c := Next(b, ConnectionLost);
    ReachableNext(b, ConnectionLost);
    var d := Next(c, Connect);
    ReachableNext(c, Connect);
    var e := Next(d, ServiceDrops(1));
    ReachableNext(d, ServiceDrops(1));
    assert e.client == Client(Vacant(4), 1, true) && e.conn == 2 && 2 in e.pipes;
    s := StaleServed(e, r);
    assert NextSlot(s.client) == 1;
  }

  // ----- The offset -----

  lemma OffsetStep(s: System, e: Event, i: nat)
    requires Inv(s) && Enabled(s, e)
    ensures s.client.off <= Next(s, e).client.off
    ensures i < s.client.off && !Occupied(s.client.table, i) ==> !Occupied(Next(s, e).client.table, i)
  {
    if e.ApiAdd? {
      AllocationOk(s.client);
    }
  }

  /** In every run the offset does not decrease, and an empty slot below it stays empty. */
  lemma {:induction false} EmptyBelowOffsetForGood(s: System, es: seq<Event>, t: System, i: nat)
    requires Inv(s) && Run(s, es, t)
    ensures s.client.off <= t.client.off
    ensures i < s.client.off && !Occupied(s.client.table, i) ==> !Occupied(t.client.table, i)
    decreases |es|
  {
    if es != [] {
      NextKeepsInv(s, es[0]);
      OffsetStep(s, es[0], i);
      EmptyBelowOffsetForGood(Next(s, es[0]), es[1..], t, i);
    }
  }

  /** No run ever fills the slot. */
  ghost predicate NeverUsed(s: System, i: nat) {
    forall es: seq<Event>, t: System :: Run(s, es, t) ==> !Occupied(t.client.table, i)
  }

  /** A key that no record has. */
  function FreshKey(table: Table): (k: nat)
    ensures forall i: nat | Occupied(table, i) :: table[i].value.address.key < k
  {
    if table == [] then 0
    else
      var n := |table| - 1;
      var k := FreshKey(table[..n]);
      assert forall i: nat | Occupied(table[..n], i) :: table[i].value.address.key < k;
      assert forall i: nat | Occupied(table, i) && i < n :: Occupied(table[..n], i);
      if table[n].Some? && table[n].value.address.key >= k then table[n].value.address.key + 1 else k
  }

  /** Adding a fresh address. */
  function AddFresh(s: System): Event {
    ApiAdd(Address(0, FreshKey(s.client.table), false), None, 0, true)
  }

  lemma AddFreshStep(s: System)
    requires Inv(s)
    ensures var t := Next(s, AddFresh(s));
            && Inv(t) && t.client.off == NextSlot(s.client)
            && forall i: nat :: Occupied(t.client.table, i) <==> Occupied(s.client.table, i) || i == NextSlot(s.client)
  {
    var c, e := s.client, AddFresh(s);
    NextKeepsInv(s, e);
    AllocationOk(c);
    forall k | 1 <= k < |c.table| && c.table[k].Some? ensures !Matches(c.table[k].value, None, e.address) {
      assert Occupied(c.table, k);
    }
    assert AddAccepted(c, e.address, None, true);
  }

  /** Adding fresh addresses reaches every empty slot from the offset on. */
  lemma {:induction false} FilledBySomeRun(s: System, i: nat) returns (es: seq<Event>, t: System)
    requires Inv(s) && !Occupied(s.client.table, i) && MaxOne(s.client.off) <= i
    ensures Run(s, es, t) && Occupied(t.client.table, i)
    decreases i - NextSlot(s.client)
  {
    AddFreshStep(s);
    var e, u := AddFresh(s), Next(s, AddFresh(s));
    if NextSlot(s.client) == i {
      es, t := [], u;
    } else {
      assert NextSlot(s.client) < i;
      assert Occupied(u.client.table, NextSlot(s.client)) && NextSlot(u.client) > NextSlot(s.client);
      es, t := FilledBySomeRun(u, i);
    }
    RunCons(s, e, es, t);
    es := [e] + es;
  }

  lemma FillingRun(s: System, es: seq<Event>, t: System, i: nat)
    requires Run(s, es, t) && Occupied(t.client.table, i)
    ensures !NeverUsed(s, i)
  {
  }

  /** An empty slot is never used again exactly when it lies below the offset. */
  lemma LostIffBelowOffset(s: System, i: nat)
    requires Reachable(s) && !Occupied(s.client.table, i)
    ensures NeverUsed(s, i) <==> i < MaxOne(s.client.off)
  {
    ReachableInv(s);
    if i < MaxOne(s.client.off) {
      forall es: seq<Event>, t: System | Run(s, es, t) ensures !Occupied(t.client.table, i) {
        EmptyBelowOffsetForGood(s, es, t, i);
        RunKeepsInv(s, es, t);
      }
    } else {
      var es, t := FilledBySomeRun(s, i);
      FillingRun(s, es, t, i);
    }
  }

  lemma {:induction false} RunsAppend(s: System, es: seq<Event>, t: System, fs: seq<Event>, u: System)
    requires Run(s, es, t) && Run(t, fs, u)
    ensures Run(s, es + fs, u)
    decreases |es|
  {
    if es == [] {
      assert es + fs == fs;
    } else {
      RunsAppend(Next(s, es[0]), es[1..], t, fs, u);
      assert (es + fs)[1..] == es[1..] + fs;
    }
  }

  lemma ReachableOn(s: System, es: seq<Event>, t: System)
    requires Reachable(s) && Run(s, es, t)
    ensures Reachable(t) && Inv(t)
  {
    var es0 :| Run(Init(), es0, s);
    RunsAppend(Init(), es0, s, es, t);
    ReachableInv(t);
  }

  lemma ReachableAdd(s: System)
    requires Reachable(s)
    ensures Inv(s) && Reachable(Next(s, AddFresh(s))) && Inv(Next(s, AddFresh(s)))
  {
    ReachableInv(s);
    ReachableNext(s, AddFresh(s));
    ReachableInv(Next(s, AddFresh(s)));
  }

  /** A run to such a slot: two addresses are added, and the first is destroyed and released. */
  lemma LostSlotIsReachable() returns (s: System)
    ensures Reachable(s) && !Occupied(s.client.table, 1) && 1 < s.client.off
  {
    InitReachable();
    var s0 := Next(Init(), Connect);
    ReachableNext(Init(), Connect);
    var s1 := FirstAdded(s0);
    s := SecondAdded(s1);
  }

  lemma FirstAdded(s: System) returns (t: System)
    requires Reachable(s) && s.client == Client(Vacant(4), 0, true) && s.conn in s.pipes
    ensures Reachable(t) && t.client.up && t.conn in t.pipes && t.client.off == 1
    ensures Occupied(t.client.table, 1) && Idle(RecordAt(t.client, 1))
  {
    ReachableAdd(s);
    assert NextSlot(s.client) == 1;
    AddFreshStep(s);
    t := Next(s, AddFresh(s));
  }

  lemma SecondAdded(s: System) returns (t: System)
    requires Reachable(s) && s.client.up && s.conn in s.pipes && s.client.off == 1
    requires Occupied(s.client.table, 1) && Idle(RecordAt(s.client, 1))
    ensures Reachable(t) && !Occupied(t.client.table, 1) && 1 < t.client.off
  {
    ReachableAdd(s);
    AddFreshStep(s);
    AllocationOk(s.client);
    var u := Next(s, AddFresh(s));
    assert u.client.table[1] == s.client.table[1];
    t := DestroyedAndReleased(u, 1);
  }

  /** Not dying and without a session. */
  predicate Idle(r: Record) {
    !r.inDestroy && r.session.None?
  }

  /** Destroying a record over a live connection, and a run that releases it. */
  lemma DestroyedAndReleased(s: System, i: nat) returns (t: System)
    requires Reachable(s) && ClientOk(s.client) && Enabled(s, ApiDestroy(i)) && s.client.up && s.conn in s.pipes
    ensures Reachable(t) && !Occupied(t.client.table, i) && s.client.off <= t.client.off
  {
    var bye, u := Destroyed(RecordAt(s.client, i).address.peer, RecordAt(s.client, i).slot), Next(s, ApiDestroy(i));
    ReachableNext(s, ApiDestroy(i));
    ReachableInv(s);
    ReachableInv(u);
    assert Occupied(s.client.table, i);
    DestroysAppend(s.pipes[s.conn].toService, bye, i);
    assert UnderWay(u, i) > 0;
    var es;
    es, t := FreedBySomeRun(u, i);
    ReachableOn(u, es, t);
    EmptyBelowOffsetForGood(u, es, t, i);
  }

  // ----- Inbound addresses without a session -----

  ghost predicate NoneBare(table: Table) {
    forall i: nat | Occupied(table, i) :: !Bare(table[i].value)
  }

  /** An inbound address comes with its session. */
  predicate WithSession(e: Event) {
    e.ApiAdd? && e.address.inbound ==> e.session.Some?
  }

  ghost predicate AllWithSession(es: seq<Event>) {
    forall i | 0 <= i < |es| :: WithSession(es[i])
  }

  lemma NoneBareAdd(s: System, e: Event)
    requires Inv(s) && e.ApiAdd? && WithSession(e) && NoneBare(s.client.table)
    ensures NoneBare(Next(s, e).client.table)
  {
    var c := s.client;
    AllocationOk(c);
    var d := AfterAdd(c, e.address, e.session, e.properties, e.fits);
    forall i: nat | Occupied(d.table, i) ensures !Bare(d.table[i].value) {
      assert Occupied(c.table, i) ==> !Bare(c.table[i].value);
    }
  }

  lemma NoneBareStep(s: System, e: Event)
    requires Inv(s) && Enabled(s, e) && WithSession(e) && NoneBare(s.client.table)
    ensures NoneBare(Next(s, e).client.table)
  {
    if e.ApiAdd? {
      NoneBareAdd(s, e);
    } else {
      var t := Next(s, e);
      forall i: nat | Occupied(t.client.table, i) ensures !Bare(t.client.table[i].value) {
        assert Occupied(s.client.table, i) ==> !Bare(s.client.table[i].value);
      }
    }
  }

  lemma {:induction false} NoneBareInRun(s: System, es: seq<Event>, t: System)
    requires Inv(s) && Run(s, es, t) && AllWithSession(es) && NoneBare(s.client.table)
    ensures Inv(t) && NoneBare(t.client.table)
    decreases |es|
  {
    if es != [] {
      assert WithSession(es[0]);
      NoneBareStep(s, es[0]);
      NextKeepsInv(s, es[0]);
      NoneBareInRun(Next(s, es[0]), es[1..], t);
    }
  }

  /** One event in front of a run. */
  lemma Before(s: System, e: Event, es: seq<Event>, t: System)
    requires ClientOk(s.client) && Enabled(s, e) && WithSession(e) && Run(Next(s, e), es, t) && AllWithSession(es)
    ensures Run(s, [e] + es, t) && AllWithSession([e] + es)
  {
    RunCons(s, e, es, t);
  }

  /** The slot holds an inbound address in use without a session. */
  ghost predicate BareAt(s: System, i: nat) {
    Occupied(s.client.table, i) && Bare(RecordAt(s.client, i))
  }

  /** The last message on its way to the client suggests slot i. */
  ghost predicate SuggestedLast(s: System, i: nat) {
    var r := Incoming(s);
    r != [] && r[|r| - 1].Suggest? && r[|r| - 1].slot == i
  }

  lemma {:induction false} ReadToLast(s: System, i: nat) returns (es: seq<Event>, t: System)
    requires Inv(s) && s.client.up && BareAt(s, i) && SuggestedLast(s, i)
    ensures Run(s, es, t) && AllWithSession(es) && t.client.up && SuggestsBare(t)
    decreases |Incoming(s)|
  {
    if |Incoming(s)| == 1 {
      es, t := [], s;
    } else {
      ReceiveKeepsInv(s);
      ReceiveTakes(s);
      var u := Next(s, ClientReceives);
      assert Incoming(u) == Incoming(s)[1..];
      es, t := ReadToLast(u, i);
      Before(s, ClientReceives, es, t);
      es := [ClientReceives] + es;
    }
  }

  /** Once the service has read everything it knows the address and may suggest it. */
  lemma Suggested(s: System, i: nat) returns (es: seq<Event>, t: System)
    requires Inv(s) && Attached(s) && BareAt(s, i) && s.pipes[s.conn].toService == []
    ensures Run(s, es, t) && AllWithSession(es) && t.client.up && SuggestsBare(t)
  {
    var a, peer := s.service.addresses, RecordAt(s.client, i).address.peer;
    assert SlotLinked(s.client.table, Final(a, []), i, Destroys([], i) + Releases(s.pipes[s.conn].toClient, i));
    var e := Solver(Suggest(peer, i, 0, 0));
    NextKeepsInv(s, e);
    es, t := ReadToLast(Next(s, e), i);
    Before(s, e, es, t);
    es := [e] + es;
  }

  lemma {:induction false} ServedAndSuggested(s: System, i: nat) returns (es: seq<Event>, t: System)
    requires Inv(s) && Attached(s) && BareAt(s, i)
    ensures Run(s, es, t) && AllWithSession(es) && t.client.up && SuggestsBare(t)
    decreases |s.pipes[s.conn].toService|
  {
    if s.pipes[s.conn].toService == [] {
      es, t := Suggested(s, i);
    } else {
      var e := ServiceReceives(s.conn);
      ServeStep(s, i);
      es, t := ServedAndSuggested(Next(s, e), i);
      Before(s, e, es, t);
      es := [e] + es;
    }
  }

  lemma AttachedAndSuggested(s: System, i: nat) returns (es: seq<Event>, t: System)
    requires Inv(s) && s.client.up && s.conn in s.pipes && BareAt(s, i)
    ensures Run(s, es, t) && AllWithSession(es) && t.client.up && SuggestsBare(t)
  {
    var e := ServiceReceives(s.conn);
    if Attached(s) {
      es, t := ServedAndSuggested(s, i);
    } else if s.service.client.None? {
      StartStep(s, i);
      es, t := ServedAndSuggested(Next(s, e), i);
      Before(s, e, es, t);
      es := [e] + es;
    } else {
      var drop := ServiceDrops(s.service.client.value);
      NextKeepsInv(s, drop);
      var u := Next(s, drop);
      StartStep(u, i);
      es, t := ServedAndSuggested(Next(u, e), i);
      Before(u, e, es, t);
      Before(s, drop, [e] + es, t);
      es := [drop] + ([e] + es);
    }
  }

  lemma BareIsSuggested(s: System, i: nat) returns (es: seq<Event>, t: System)
    requires Inv(s) && BareAt(s, i)
    ensures Run(s, es, t) && AllWithSession(es) && t.client.up && SuggestsBare(t)
  {
    if s.client.up && s.conn in s.pipes {
      es, t := AttachedAndSuggested(s, i);
    } else {
      var u := if s.client.up then Next(s, ConnectionLost) else s;
      if s.client.up {
        NextKeepsInv(s, ConnectionLost);
      }
      NextKeepsInv(u, Connect);
      es, t := AttachedAndSuggested(Next(u, Connect), i);
      Before(u, Connect, es, t);
      es := [Connect] + es;
      if s.client.up {
        Before(s, ConnectionLost, es, t);
        es := [ConnectionLost] + es;
      }
    }
  }

  /** Some run, in which inbound addresses come with sessions, leads to an error branch. */
  ghost predicate CanFault(s: System) {
    exists es: seq<Event>, t: System :: Run(s, es, t) && AllWithSession(es) && FaultsNext(t)
  }

  ghost predicate FaultsNext(t: System) {
    exists e: Event :: Enabled(t, e) && Faulty(t, e)
  }

  /**
    From any reachable state on, as long as inbound addresses come with their sessions, no message
    runs into an error branch exactly when no inbound address is in use without one.
   */
  lemma FaultsIffBare(s: System)
    requires Reachable(s)
    ensures CanFault(s) <==> !NoneBare(s.client.table)
  {
    ReachableInv(s);
    if NoneBare(s.client.table) {
      forall es: seq<Event>, t: System | Run(s, es, t) && AllWithSession(es) ensures !FaultsNext(t) {
        NoneBareInRun(s, es, t);
        forall e: Event | Enabled(t, e) ensures !Faulty(t, e) {
          NextKeepsInv(t, e);
        }
      }
    } else {
      var i: nat :| Occupied(s.client.table, i) && Bare(s.client.table[i].value);
      var es, t := BareIsSuggested(s, i);
      assert Enabled(t, ClientReceives);
      RunKeepsInv(s, es, t);
      NextKeepsInv(t, ClientReceives);
      assert FaultsNext(t);
    }
  }

  /** So no run from the start in which they do has an error, and one in which one does not has. */
  lemma SessionsPreventFaults(es: seq<Event>, s: System, e: Event)
    requires Run(Init(), es, s) && AllWithSession(es) && Enabled(s, e)
    ensures !Faulty(s, e)
  {
    NoneBareInRun(Init(), es, s);
    NextKeepsInv(s, e);
  }

  /** A run into the error branch. */
  lemma BareSuggestionIsReachable(address: Address) returns (s: System)
    requires address.inbound
    ensures Reachable(s) && Enabled(s, ClientReceives) && Faulty(s, ClientReceives)
  {
    InitReachable();
    FirstAdd(Init().client, address);
    var s1 := Next(Init(), ApiAdd(address, None, 0, true));
    ReachableNext(Init(), ApiAdd(address, None, 0, true));
    ReachableInv(s1);
    assert BareAt(s1, 1);
    var es;
    es, s := BareIsSuggested(s1, 1);
    ReachableOn(s1, es, s);
    NextKeepsInv(s, ClientReceives);
  }

  // ----- What the callback is told -----

  /** How often the client reads a message. */
  function Reads(es: seq<Event>): nat {
    if es == [] then 0 else (if es[0].ClientReceives? then 1 else 0) + Reads(es[1..])
  }

  /** The client keeps its connection. */
  ghost predicate SameConnection(es: seq<Event>) {
    forall i | 0 <= i < |es| :: !es[i].Connect? && !es[i].ConnectionLost?
  }

  /** One step reads the first message or adds some behind. */
  lemma QueueStep(s: System, e: Event)
    requires Inv(s) && s.client.up && Enabled(s, e) && !e.Connect? && !e.ConnectionLost?
    ensures var t := Next(s, e);
            && t.client.up && t.conn == s.conn
            && if e.ClientReceives? then Incoming(t) == Incoming(s)[1..] else Incoming(s) <= Incoming(t)
  {
    match e
    case ClientReceives => ReceiveKeepsInv(s);
    case ServiceReceives(c) =>
      if !s.pipes[c].toService[0].Start? {
        MessageKeepsInv(s, c);
      }
    case _ =>
  }

  /** A message on its way to the client stays in line, unchanged, until its turn. */
  lemma {:induction false} StaysInLine(s: System, es: seq<Event>, t: System, k: nat)
    requires Inv(s) && s.client.up && Run(s, es, t) && SameConnection(es)
    requires k < |Incoming(s)| && Reads(es) <= k
    ensures Inv(t) && t.client.up && k - Reads(es) < |Incoming(t)| && Incoming(t)[k - Reads(es)] == Incoming(s)[k]
    decreases |es|
  {
    if es != [] {
      QueueStep(s, es[0]);
      NextKeepsInv(s, es[0]);
      var u := Next(s, es[0]);
      if es[0].ClientReceives? {
        StaysInLine(u, es[1..], t, k - 1);
      } else {
        StaysInLine(u, es[1..], t, k);
      }
    }
  }

  lemma SolverQueues(s: System, m: ToClient)
    requires Inv(s) && Attached(s) && Enabled(s, Solver(m))
    ensures var t := Next(s, Solver(m));
            Inv(t) && t.client.up && t.conn == s.conn && Incoming(t) == Incoming(s) + [m]
  {
    NextKeepsInv(s, Solver(m));
  }

  /** The record that a suggestion names is told, with its own bandwidths. */
  ghost predicate ToldOf(s: System, m: ToClient, callback: Callback) {
    && m.Suggest? && Occupied(s.client.table, m.slot) && RecordAt(s.client, m.slot).address.peer == m.peer
    && var r := RecordAt(s.client, m.slot);
       if r.inDestroy then
         callback == if m.bandwidthOut == 0 && m.bandwidthIn == 0 then Disconnect(m.peer) else Silent
       else if r.session.None? && r.address.inbound then callback == Silent
       else callback == Use(m.peer, r.address, r.session, m.bandwidthOut, m.bandwidthIn)
  }

  lemma FirstIsTold(s: System, m: ToClient)
    requires Inv(s) && s.client.up && m.Suggest? && Incoming(s) != [] && Incoming(s)[0] == m
    ensures Enabled(s, ClientReceives) && ToldOf(s, m, SuggestCallback(s.client, m))
  {
    ReceiveTakes(s);
    SuggestionTaken(s.client, m);
  }

  /**
    What the service suggests over the client's connection arrives after the messages before it,
    however long that takes: it finds the record of its peer and slot, and the callback is told that
    record with the bandwidths that the service suggested, unless the record is dying or bare.
   */
  lemma SuggestionReachesCallback(s: System, m: ToClient, es: seq<Event>, t: System)
    requires Reachable(s) && Attached(s) && Enabled(s, Solver(m)) && ClientOk(s.client)
    requires Run(Next(s, Solver(m)), es, t) && SameConnection(es) && Reads(es) == |Incoming(s)|
    ensures Enabled(t, ClientReceives) && Incoming(t)[0] == m && ToldOf(t, m, SuggestCallback(t.client, m))
  {
    ReachableInv(s);
    SolverQueues(s, m);
    StaysInLine(Next(s, Solver(m)), es, t, |Incoming(s)|);
    FirstIsTold(t, m);
  }

  // ----- What the calls of the interface do to the records -----

  /** All other slots are as before. */
  ghost predicate OthersStay(s: System, t: System, i: nat) {
    forall k: nat | k != i :: (Occupied(t.client.table, k) <==> Occupied(s.client.table, k))
                              && (Occupied(s.client.table, k) ==> t.client.table[k] == s.client.table[k])
  }

  /** A call changes one record, in what it is for, and an ADD makes one. */
  lemma CallsChangeRecords(s: System, e: Event)
    requires Inv(s) && Enabled(s, e)
    requires e.ApiAddSession? || e.ApiDelSession? || e.ApiUpdate? || e.ApiDestroy?
    ensures var t := Next(s, e);
            var was := RecordAt(s.client, e.slot);
            && OthersStay(s, t, e.slot) && Occupied(t.client.table, e.slot)
            && var now := RecordAt(t.client, e.slot);
               && now.address == was.address && now.slot == e.slot
               && now.session == (if e.ApiAddSession? then Some(e.newSession)
                                  else if e.ApiUpdate? then was.session else None)
               && now.properties == (if e.ApiUpdate? then e.properties else was.properties)
               && now.inDestroy == (e.ApiDestroy? || (e.ApiDelSession? && was.address.inbound))
  {
    assert Occupied(s.client.table, e.slot);
  }

  lemma AddMakesRecord(s: System, e: Event)
    requires Inv(s) && e.ApiAdd?
    ensures var t, i := Next(s, e), NextSlot(s.client);
            if !e.fits || exists k: nat :: InTheWay(s.client.table, k, e.address, e.session) then t.client == s.client
            else
              && OthersStay(s, t, i) && !Occupied(s.client.table, i) && Occupied(t.client.table, i)
              && RecordAt(t.client, i) == Record(e.address, e.session, e.properties, i, false)
  {
    AllocationOk(s.client);
    RefusedIff(s.client, e.address, e.session, e.fits);
  }

  /** A RELEASE empties its slot; no other event touches the records. */
  lemma OthersKeepRecords(s: System, e: Event)
    requires Inv(s) && Enabled(s, e)
    requires !e.ApiAdd? && !e.ApiAddSession? && !e.ApiDelSession? && !e.ApiUpdate? && !e.ApiDestroy?
    ensures var t := Next(s, e);
            if e.ClientReceives? && Incoming(s)[0].Release? then
              OthersStay(s, t, Incoming(s)[0].slot) && !Occupied(t.client.table, Incoming(s)[0].slot)
            else t.client.table == s.client.table
  {
    if e.ClientReceives? {
      ReceiveTakes(s);
      assert Occupied(s.client.table, Incoming(s)[0].slot);
    }
  }
}
