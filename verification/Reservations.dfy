/**
  Bandwidth reservations between a performance client (src/ats/ats_api_performance.c) and the ATS
  service (src/ats/gnunet-service-ats_reservations.c).  The protocol has no request identifiers:
  the client matches results to its list of pending reservations by their order.

  A connection that the client has given up may still hold requests.  The service serves them, as
  long as it has not noticed, and its results go nowhere.

  The bandwidth tracker is not modelled; whether it makes a request wait is an input.
 */
module Reservations {
  type Peer = nat

  /** Who made a reservation: the user, or the library to undo the user's; the user's are numbered. */
  datatype Origin = User(id: nat) | Undo(id: nat)

  /** A number of bytes for a peer, asked for or granted; the origin is not on the wire. */
  datatype Msg = Msg(peer: Peer, amount: int, origin: Origin)

  /** A pending reservation; `live`: its callback is set. */
  datatype Pending = Pending(peer: Peer, size: int, live: bool, undo: bool, origin: Origin)

  datatype Client = Client(up: bool, pending: seq<Pending>)

  /** What the user asked for; `undo`: for a positive amount and with a callback. */
  datatype Made = Made(peer: Peer, size: int, undo: bool)

  /**
    The two ends, the messages on their way in both directions, the requests in connections that
    the client gave up, and a record of what happened: the user's reservations and which of them
    the user cancelled; amounts granted by the service; of these, the ones counted by a tracker and
    the ones given without; amounts told to callbacks, received without a callback, received for a
    cancelled reservation, received for an undo, and granted but lost with a connection; and
    requests that the service never served.
    `faulted`: a result did not belong to the first pending reservation.
   */
  datatype State = State(
    client: Client, requests: seq<Msg>, results: seq<Msg>, stale: seq<seq<Msg>>, trackers: set<Peer>, faulted: bool,
    made: seq<Made>, withdrawn: set<nat>, granted: seq<Msg>, consumed: seq<Msg>, free: seq<Msg>,
    told: seq<Msg>, silent: seq<Msg>, cancelled: seq<Msg>, undone: seq<Msg>,
    lost: seq<Msg>, unserved: seq<Msg>)

  // ----- Counting -----

  /** The messages for a peer, or those that belong to one reservation of the user. */
  datatype Among = ByPeer(peer: Peer) | ById(id: nat)

  datatype Part = Both | OnlyUsers | OnlyUndos

  /** Which messages count, and whether for their amount or for one. */
  datatype Query = Query(among: Among, part: Part, units: bool)

  predicate Counts(m: Msg, q: Query) {
    && (match q.among case ByPeer(p) => m.peer == p case ById(id) => m.origin.id == id)
    && (match q.part case Both => true case OnlyUsers => m.origin.User? case OnlyUndos => m.origin.Undo?)
  }

  function Of(m: Msg, q: Query): int {
    if !Counts(m, q) then 0 else if q.units then 1 else m.amount
  }

  function SumOf(log: seq<Msg>, q: Query): int {
    if log == [] then 0 else SumOf(log[..|log| - 1], q) + Of(log[|log| - 1], q)
  }

  /** The same over connections given up. */
  function StaleSum(stale: seq<seq<Msg>>, q: Query): int {
    if stale == [] then 0 else StaleSum(stale[..|stale| - 1], q) + SumOf(stale[|stale| - 1], q)
  }

  /** Amounts: all of them, the user's, and those of undos. */
  function Sum(log: seq<Msg>, k: Among): int {
    SumOf(log, Query(k, Both, false))
  }

  function Users(log: seq<Msg>, k: Among): int {
    SumOf(log, Query(k, OnlyUsers, false))
  }

  function Undos(log: seq<Msg>, k: Among): int {
    SumOf(log, Query(k, OnlyUndos, false))
  }

  function StaleUndos(stale: seq<seq<Msg>>, k: Among): int {
    StaleSum(stale, Query(k, OnlyUndos, false))
  }

  /** Numbers of messages of one reservation: its own, and those of its undo. */
  function Own(id: nat): Query {
    Query(ById(id), OnlyUsers, true)
  }

  function Back(id: nat): Query {
    Query(ById(id), OnlyUndos, true)
  }

  // ----- Steps -----

  /** The entry that GNUNET_ATS_reserve_bandwidth makes. */
  function Reservation(p: Peer, amount: int, callback: bool, origin: Origin): Pending {
    Pending(p, amount, callback, callback && amount > 0, origin)
  }

  /** GNUNET_ATS_reserve_bandwidth */
  function Reserve(s: State, p: Peer, amount: int, callback: bool, origin: Origin): State {
    if !s.client.up then s
    else s.(client := s.client.(pending := s.client.pending + [Reservation(p, amount, callback, origin)]),
            requests := s.requests + [Msg(p, amount, origin)])
  }

  /** The same, called by the user. */
  function UserReserve(s: State, p: Peer, amount: int, callback: bool): State {
    if !s.client.up then s
    else Reserve(s.(made := s.made + [Made(p, amount, callback && amount > 0)]), p, amount, callback, User(|s.made|))
  }

  /** GNUNET_ATS_reserve_bandwidth_cancel */
  function Cancel(s: State, i: nat): State
    requires i < |s.client.pending|
  {
    s.(client := s.client.(pending := s.client.pending[i := s.client.pending[i].(live := false)]))
  }

  /** The same, called by the user. */
  function UserCancel(s: State, i: nat): State
    requires i < |s.client.pending|
  {
    Cancel(s, i).(withdrawn := s.withdrawn + {s.client.pending[i].origin.id})
  }

  /** reservations_reserve: the amount that the result carries. */
  function Granted(m: Msg, trackers: set<Peer>, delayed: bool): Msg {
    if m.peer in trackers && m.amount >= 0 && delayed then m.(amount := 0) else m
  }

  /** What serving a request adds to the records. */
  function Granting(s: State, m: Msg, delayed: bool): State {
    var g := Granted(m, s.trackers, delayed);
    s.(granted := s.granted + [g],
       consumed := if m.peer in s.trackers then s.consumed + [g] else s.consumed,
       free := if m.peer in s.trackers then s.free else s.free + [g])
  }

  /** GAS_handle_reservation_request */
  function Serve(s: State, delayed: bool): State
    requires s.requests != []
  {
    var m := s.requests[0];
    Granting(s, m, delayed).(requests := s.requests[1..], results := s.results + [Granted(m, s.trackers, delayed)])
  }

  /** The same for a connection that the client gave up: the result is lost. */
  function ServeStale(s: State, j: nat, delayed: bool): State
    requires j < |s.stale| && s.stale[j] != []
  {
    var m := s.stale[j][0];
    Granting(s, m, delayed).(stale := s.stale[j := s.stale[j][1..]],
                             lost := s.lost + [Granted(m, s.trackers, delayed)])
  }

  /** The service notices that a connection is gone; what it has not served it never will. */
  function Discard(s: State, j: nat): State
    requires j < |s.stale|
  {
    s.(stale := s.stale[..j] + s.stale[j + 1..], unserved := s.unserved + s.stale[j])
  }

  /** handle_reservation_result for a result that belongs to the first pending reservation. */
  function Settle(s: State, rc: Pending, m: Msg): State {
    if rc.live then s.(told := s.told + [m])
    else if m.amount == 0 || !rc.undo then
      (if rc.origin.Undo? then s.(undone := s.undone + [m]) else s.(silent := s.silent + [m]))
    else Reserve(s.(cancelled := s.cancelled + [m]), m.peer, -m.amount, false, Undo(rc.origin.id))
  }

  /** handle_reservation_result */
  function Deliver(s: State): State
    requires s.results != []
  {
    var m, t := s.results[0], s.(results := s.results[1..]);
    if s.client.pending == [] || s.client.pending[0].peer != m.peer then t.(faulted := true)
    else Settle(t.(client := s.client.(pending := s.client.pending[1..])), s.client.pending[0], m)
  }

  /**
    do_reconnect: every pending reservation is dropped, the results on their way are lost, and the
    requests stay with the connection that the client gives up.
   */
  function Disconnect(s: State): State {
    s.(client := Client(false, []), requests := [], results := [], stale := s.stale + [s.requests],
       lost := s.lost + s.results)
  }

  datatype Event =
    | UserReserves(peer: Peer, amount: int, callback: bool)
    | UserCancels(index: nat)
    | Serves(delayed: bool)
    | Delivers
    | Bandwidth(peer: Peer, positive: bool)
    | ServesStale(connection: nat, delayed: bool)
    | Discards(connection: nat)
    | Fails
    | Reconnects

  /** The user can only cancel reservations of its own. */
  predicate Enabled(s: State, e: Event) {
    match e
    case UserCancels(i) => i < |s.client.pending| && s.client.pending[i].origin.User?
    case Serves(_) => s.requests != []
    case Delivers => s.results != []
    case ServesStale(j, _) => j < |s.stale| && s.stale[j] != []
    case Discards(j) => j < |s.stale|
    case Fails => s.client.up
    case Reconnects => !s.client.up
    case _ => true
  }

  function Next(s: State, e: Event): State
    requires Enabled(s, e)
  {
    match e
    case UserReserves(p, amount, callback) => UserReserve(s, p, amount, callback)
    case UserCancels(i) => UserCancel(s, i)
    case Serves(delayed) => Serve(s, delayed)
    case Delivers => Deliver(s)
    case Bandwidth(p, positive) => s.(trackers := if positive then s.trackers + {p} else s.trackers - {p})
    case ServesStale(j, delayed) => ServeStale(s, j, delayed)
    case Discards(j) => Discard(s, j)
    case Fails => Disconnect(s)
    case Reconnects => s.(client := s.client.(up := true))
  }

  ghost predicate Initial(s: State) {
    s == State(Client(true, []), [], [], [], s.trackers, false, [], {}, [], [], [], [], [], [], [], [], [])
  }

  ghost predicate Runs(s: State, es: seq<Event>, t: State)
    decreases |es|
  {
    if es == [] then s == t else Enabled(s, es[0]) && Runs(Next(s, es[0]), es[1..], t)
  }

  ghost predicate Reachable(t: State) {
    exists s: State, es: seq<Event> :: Initial(s) && Runs(s, es, t)
  }

  // ----- The invariant -----

  /** A result fits its reservation: all of it or nothing, and always all of a negative amount. */
  predicate Fits(m: Msg, rc: Pending) {
    m.peer == rc.peer && m.origin == rc.origin && (m.amount == rc.size || (m.amount == 0 && rc.size >= 0))
  }

  /** A pending reservation is as it was made. */
  predicate WellMade(rc: Pending, made: seq<Made>) {
    && rc.origin.id < |made|
    && (rc.undo ==> rc.size > 0)
    && (match rc.origin
        case User(id) => made[id] == Made(rc.peer, rc.size, rc.undo)
        case Undo(id) => rc.size < 0 && !rc.live && !rc.undo)
  }

  /** Pending reservations are, in order, the results on their way and then the requests. */
  ghost predicate InOrder(s: State) {
    && |s.client.pending| == |s.results| + |s.requests|
    && (forall i | 0 <= i < |s.client.pending| :: WellMade(s.client.pending[i], s.made))
    && (forall i | 0 <= i < |s.results| :: Fits(s.results[i], s.client.pending[i]))
    && (forall i | 0 <= i < |s.requests| :: Asks(s.requests[i], s.client.pending, |s.results| + i))
  }

  predicate Asks(m: Msg, pending: seq<Pending>, i: nat) {
    i < |pending| && m == Msg(pending[i].peer, pending[i].size, pending[i].origin)
  }

  /** Undos ask for negative amounts, which are always granted. */
  predicate Negative(m: Msg) {
    m.origin.Undo? ==> m.amount < 0
  }

  ghost predicate StaleNegative(stale: seq<seq<Msg>>) {
    forall j, i | 0 <= j < |stale| && 0 <= i < |stale[j]| :: Negative(stale[j][i])
  }

  /** What the service granted to the user, and where it went. */
  ghost predicate Accounted(s: State, k: Among) {
    && Users(s.granted, k) == Sum(s.told, k) + Sum(s.silent, k) + Sum(s.cancelled, k)
                              + Users(s.results, k) + Users(s.lost, k)
    && Undos(s.granted, k) == Undos(s.undone, k) + Undos(s.results, k) + Undos(s.lost, k)
  }

  /** What was granted for cancelled reservations is given back, is about to be, or never will be. */
  ghost predicate Compensated(s: State, k: Among) {
    Sum(s.cancelled, k) + Undos(s.granted, k) + Undos(s.requests, k) + StaleUndos(s.stale, k)
    + Undos(s.unserved, k) == 0
  }

  ghost predicate Tracked(s: State, k: Among) {
    Sum(s.granted, k) == Sum(s.consumed, k) + Sum(s.free, k) == Users(s.granted, k) + Undos(s.granted, k)
  }

  ghost predicate Balanced(s: State, k: Among) {
    Accounted(s, k) && Compensated(s, k) && Tracked(s, k)
  }

  function OnItsWay(s: State, q: Query): int {
    SumOf(s.requests, q) + SumOf(s.results, q) + StaleSum(s.stale, q) + SumOf(s.lost, q) + SumOf(s.unserved, q)
  }

  function Arrived(s: State, q: Query): int {
    SumOf(s.told, q) + SumOf(s.silent, q) + SumOf(s.cancelled, q)
  }

  /** Every reservation of the user is in one place, and so is the undo of each that was undone. */
  ghost predicate Placed(s: State, id: nat) {
    && OnItsWay(s, Own(id)) + Arrived(s, Own(id)) == (if id < |s.made| then 1 else 0)
    && OnItsWay(s, Back(id)) + SumOf(s.undone, Back(id)) == SumOf(s.cancelled, Own(id))
  }

  ghost predicate Books(s: State) {
    (forall k: Among :: Balanced(s, k)) && (forall id: nat :: Placed(s, id))
  }

  /** An amount was kept without a callback only for reservations not made to be undone. */
  predicate KeptSilently(m: Msg, made: seq<Made>) {
    m.origin.User? && m.origin.id < |made| && (m.amount == 0 || !made[m.origin.id].undo)
  }

  predicate MadeToBeUndone(m: Msg, made: seq<Made>) {
    m.origin.User? && m.origin.id < |made| && made[m.origin.id].undo
  }

  predicate ToldInTime(m: Msg, withdrawn: set<nat>) {
    m.origin.User? && m.origin.id !in withdrawn
  }

  predicate CallbackGone(rc: Pending, withdrawn: set<nat>) {
    rc.origin.User? && rc.origin.id in withdrawn ==> !rc.live
  }

  ghost predicate Logs(s: State) {
    && (forall i | 0 <= i < |s.silent| :: KeptSilently(s.silent[i], s.made))
    && (forall i | 0 <= i < |s.cancelled| :: MadeToBeUndone(s.cancelled[i], s.made))
  }

  /** The callback of a reservation that the user cancelled is not called. */
  ghost predicate Withdrawals(s: State) {
    && (forall i | 0 <= i < |s.told| :: ToldInTime(s.told[i], s.withdrawn))
    && (forall i | 0 <= i < |s.client.pending| :: CallbackGone(s.client.pending[i], s.withdrawn))
    && (forall id | id in s.withdrawn :: id < |s.made|)
  }

  ghost predicate Inv(s: State) {
    && !s.faulted && (!s.client.up ==> s.client.pending == [])
    && InOrder(s) && StaleNegative(s.stale) && Books(s) && Logs(s) && Withdrawals(s)
  }

  // ----- Sums -----

  lemma SumPush(log: seq<Msg>, m: Msg, q: Query)
    ensures SumOf(log + [m], q) == SumOf(log, q) + Of(m, q)
  {
    assert (log + [m])[..|log|] == log;
  }

  lemma {:induction false} SumAppend(a: seq<Msg>, b: seq<Msg>, q: Query)
    ensures SumOf(a + b, q) == SumOf(a, q) + SumOf(b, q)
  {
    if b == [] {
      assert a + b == a;
    } else {
      var front, last := b[..|b| - 1], b[|b| - 1];
      SumAppend(a, front, q);
      SumPush(a + front, last, q);
      assert a + b == a + front + [last];
    }
  }

  lemma SumPop(log: seq<Msg>, q: Query)
    requires log != []
    ensures SumOf(log, q) == Of(log[0], q) + SumOf(log[1..], q)
  {
    assert log == [log[0]] + log[1..];
    SumAppend([log[0]], log[1..], q);
    assert [log[0]] == [] + [log[0]];
    SumPush([], log[0], q);
  }

  /** One message more in a log, for every way of adding up amounts. */
  lemma Pushed(log: seq<Msg>, m: Msg, k: Among)
    ensures Sum(log + [m], k) == Sum(log, k) + Of(m, Query(k, Both, false))
    ensures Users(log + [m], k) == Users(log, k) + Of(m, Query(k, OnlyUsers, false))
    ensures Undos(log + [m], k) == Undos(log, k) + Of(m, Query(k, OnlyUndos, false))
  {
    SumPush(log, m, Query(k, Both, false));
    SumPush(log, m, Query(k, OnlyUsers, false));
    SumPush(log, m, Query(k, OnlyUndos, false));
  }

  lemma StalePush(stale: seq<seq<Msg>>, log: seq<Msg>, q: Query)
    ensures StaleSum(stale + [log], q) == StaleSum(stale, q) + SumOf(log, q)
  {
    assert (stale + [log])[..|stale|] == stale;
  }

  lemma {:induction false} StaleAppend(a: seq<seq<Msg>>, b: seq<seq<Msg>>, q: Query)
    ensures StaleSum(a + b, q) == StaleSum(a, q) + StaleSum(b, q)
  {
    if b == [] {
      assert a + b == a;
    } else {
      var front, last := b[..|b| - 1], b[|b| - 1];
      StaleAppend(a, front, q);
      StalePush(a + front, last, q);
      assert a + b == a + front + [last];
    }
  }

  lemma StaleSplit(stale: seq<seq<Msg>>, j: nat, log: seq<Msg>, q: Query)
    requires j < |stale|
    ensures StaleSum(stale[j := log], q) == StaleSum(stale[..j] + stale[j + 1..], q) + SumOf(log, q)
  {
    var a, b := stale[..j], stale[j + 1..];
    assert stale[j := log] == a + [log] + b;
    StaleAppend(a + [log], b, q);
    StalePush(a, log, q);
    StaleAppend(a, b, q);
  }

  /** The first request leaves a connection given up. */
  lemma StalePop(stale: seq<seq<Msg>>, j: nat, q: Query)
    requires j < |stale| && stale[j] != []
    ensures StaleSum(stale, q) == StaleSum(stale[j := stale[j][1..]], q) + Of(stale[j][0], q)
  {
    SumPop(stale[j], q);
    StaleSplit(stale, j, stale[j][1..], q);
    StaleSplit(stale, j, stale[j], q);
    assert stale[j := stale[j]] == stale;
  }

  lemma StaleRemoved(stale: seq<seq<Msg>>, j: nat, q: Query)
    requires j < |stale|
    ensures StaleSum(stale, q) == StaleSum(stale[..j] + stale[j + 1..], q) + SumOf(stale[j], q)
  {
    StaleSplit(stale, j, stale[j], q);
    assert stale[j := stale[j]] == stale;
  }

  // ----- Each step keeps the order -----

  lemma ReserveInOrder(s: State, p: Peer, amount: int, callback: bool, origin: Origin)
    requires InOrder(s) && WellMade(Reservation(p, amount, callback, origin), s.made)
    ensures InOrder(Reserve(s, p, amount, callback, origin))
  {
  }

  lemma UserReserveInOrder(s: State, p: Peer, amount: int, callback: bool)
    requires InOrder(s)
    ensures InOrder(UserReserve(s, p, amount, callback))
  {
    if s.client.up {
      var t := s.(made := s.made + [Made(p, amount, callback && amount > 0)]);
      assert InOrder(t) by {
        forall i | 0 <= i < |t.requests| ensures Asks(t.requests[i], t.client.pending, |t.results| + i) {
          assert Asks(s.requests[i], s.client.pending, |s.results| + i);
        }
        forall i | 0 <= i < |t.client.pending| ensures WellMade(t.client.pending[i], t.made) {
          assert WellMade(s.client.pending[i], s.made);
        }
      }
      ReserveInOrder(t, p, amount, callback, User(|s.made|));
    }
  }

  lemma CancelInOrder(s: State, i: nat)
    requires InOrder(s) && i < |s.client.pending|
    ensures InOrder(Cancel(s, i))
  {
    assert WellMade(s.client.pending[i], s.made);
  }

  lemma ServeInOrder(s: State, delayed: bool)
    requires InOrder(s) && s.requests != []
    ensures InOrder(Serve(s, delayed))
  {
    var t := Serve(s, delayed);
    assert Asks(s.requests[0], s.client.pending, |s.results| + 0);
    forall i | 0 <= i < |t.requests| ensures Asks(t.requests[i], t.client.pending, |t.results| + i) {
      assert Asks(s.requests[i + 1], s.client.pending, |s.results| + (i + 1));
    }
  }

  /** Taking the first result and the first reservation off both lists. */
  function Popped(s: State): State
    requires s.results != [] && s.client.pending != []
  {
    s.(results := s.results[1..], client := s.client.(pending := s.client.pending[1..]))
  }

  lemma PopInOrder(s: State)
    requires InOrder(s) && s.results != []
    ensures s.client.pending != [] && Fits(s.results[0], s.client.pending[0]) && WellMade(s.client.pending[0], s.made)
    ensures InOrder(Popped(s))
  {
    var t := Popped(s);
    forall i | 0 <= i < |t.requests| ensures Asks(t.requests[i], t.client.pending, |t.results| + i) {
      assert Asks(s.requests[i], s.client.pending, |s.results| + i);
    }
    forall i | 0 <= i < |t.results| ensures Fits(t.results[i], t.client.pending[i]) {
      assert Fits(s.results[i + 1], s.client.pending[i + 1]);
    }
  }

  // ----- Each step keeps the balance -----

  lemma ReserveBooks(s: State, p: Peer, amount: int, callback: bool, k: Among)
    requires Balanced(s, k)
    ensures Balanced(UserReserve(s, p, amount, callback), k)
  {
    Pushed(s.requests, Msg(p, amount, User(|s.made|)), k);
  }

  /** A message counts for the user or for an undo. */
  lemma OneOrigin(m: Msg, k: Among)
    ensures m.origin.User? ==> Of(m, Query(k, OnlyUsers, false)) == Of(m, Query(k, Both, false))
                               && Of(m, Query(k, OnlyUndos, false)) == 0
    ensures m.origin.Undo? ==> Of(m, Query(k, OnlyUndos, false)) == Of(m, Query(k, Both, false))
                               && Of(m, Query(k, OnlyUsers, false)) == 0
  {
  }

  lemma GrantTracked(s: State, g: Msg, tracked: bool, k: Among)
    requires Tracked(s, k)
    ensures Tracked(s.(granted := s.granted + [g],
                       consumed := if tracked then s.consumed + [g] else s.consumed,
                       free := if tracked then s.free else s.free + [g]), k)
  {
    OneOrigin(g, k);
    Pushed(s.granted, g, k);
    if tracked {
      Pushed(s.consumed, g, k);
    } else {
      Pushed(s.free, g, k);
    }
  }

  /** A request that is served: its grant is recorded, and an undo asked for is an undo granted. */
  lemma GrantingBooks(s: State, m: Msg, delayed: bool, k: Among)
    requires Negative(m) && Tracked(s, k)
    ensures Tracked(Granting(s, m, delayed), k)
    ensures Users(Granting(s, m, delayed).granted, k)
         == Users(s.granted, k) + Of(Granted(m, s.trackers, delayed), Query(k, OnlyUsers, false))
    ensures Undos(Granting(s, m, delayed).granted, k) == Undos(s.granted, k) + Of(m, Query(k, OnlyUndos, false))
    ensures Of(Granted(m, s.trackers, delayed), Query(k, OnlyUndos, false)) == Of(m, Query(k, OnlyUndos, false))
  {
    var g := Granted(m, s.trackers, delayed);
    GrantTracked(s, g, m.peer in s.trackers, k);
    Pushed(s.granted, g, k);
    UndoGranted(m, s.trackers, delayed, k);
  }

  lemma UndoGranted(m: Msg, trackers: set<Peer>, delayed: bool, k: Among)
    requires Negative(m)
    ensures Of(Granted(m, trackers, delayed), Query(k, OnlyUndos, false)) == Of(m, Query(k, OnlyUndos, false))
  {
  }

  lemma ServeBooks(s: State, delayed: bool, k: Among)
    requires Balanced(s, k) && s.requests != [] && Negative(s.requests[0])
    ensures Balanced(Serve(s, delayed), k)
  {
    GrantingBooks(s, s.requests[0], delayed, k);
    Pushed(s.results, Granted(s.requests[0], s.trackers, delayed), k);
    SumPop(s.requests, Query(k, OnlyUndos, false));
  }

  lemma ServeStaleBooks(s: State, j: nat, delayed: bool, k: Among)
    requires Balanced(s, k) && j < |s.stale| && s.stale[j] != [] && Negative(s.stale[j][0])
    ensures Balanced(ServeStale(s, j, delayed), k)
  {
    var m := s.stale[j][0];
    GrantingBooks(s, m, delayed, k);
    Pushed(s.lost, Granted(m, s.trackers, delayed), k);
    StalePop(s.stale, j, Query(k, OnlyUndos, false));
  }

  lemma DiscardBooks(s: State, j: nat, k: Among)
    requires Balanced(s, k) && j < |s.stale|
    ensures Balanced(Discard(s, j), k)
  {
    SumAppend(s.unserved, s.stale[j], Query(k, OnlyUndos, false));
    StaleRemoved(s.stale, j, Query(k, OnlyUndos, false));
  }

  lemma DisconnectBooks(s: State, k: Among)
    requires Balanced(s, k)
    ensures Balanced(Disconnect(s), k)
  {
    SumAppend(s.lost, s.results, Query(k, OnlyUsers, false));
    SumAppend(s.lost, s.results, Query(k, OnlyUndos, false));
    StalePush(s.stale, s.requests, Query(k, OnlyUndos, false));
  }

  /** The first result, taken off the list and not yet booked. */
  ghost predicate InHand(s: State, m: Msg, k: Among) {
    && Users(s.granted, k) == Sum(s.told, k) + Sum(s.silent, k) + Sum(s.cancelled, k)
                              + Users(s.results, k) + Users(s.lost, k) + Of(m, Query(k, OnlyUsers, false))
    && Undos(s.granted, k) == Undos(s.undone, k) + Undos(s.results, k) + Undos(s.lost, k)
                              + Of(m, Query(k, OnlyUndos, false))
    && Compensated(s, k) && Tracked(s, k)
  }

  lemma PopBooks(s: State, k: Among)
    requires Balanced(s, k) && s.results != [] && s.client.pending != []
    ensures InHand(Popped(s), s.results[0], k)
  {
    SumPop(s.results, Query(k, OnlyUsers, false));
    SumPop(s.results, Query(k, OnlyUndos, false));
  }

  /** An amount that stays with the user is booked once. */
  lemma KeptBooks(s: State, rc: Pending, m: Msg, k: Among)
    requires InHand(s, m, k) && Fits(m, rc) && WellMade(rc, s.made) && (rc.live || m.amount == 0 || !rc.undo)
    ensures Balanced(Settle(s, rc, m), k)
  {
    OneOrigin(m, k);
    if rc.live {
      Pushed(s.told, m, k);
    } else if rc.origin.Undo? {
      Pushed(s.undone, m, k);
    } else {
      Pushed(s.silent, m, k);
    }
  }

  /** A cancelled one is booked, and its undo is on its way. */
  lemma CancelledBooks(s: State, rc: Pending, m: Msg, k: Among)
    requires InHand(s, m, k) && Fits(m, rc) && rc.origin.User? && s.client.up
    requires !rc.live && m.amount != 0 && rc.undo
    ensures Balanced(Settle(s, rc, m), k)
  {
    Opposite(m, k);
    assert Sum(s.cancelled + [m], k) == Sum(s.cancelled, k) + Of(m, Query(k, Both, false)) by {
      Pushed(s.cancelled, m, k);
    }
    var undo := Msg(m.peer, -m.amount, Undo(m.origin.id));
    assert Undos(s.requests + [undo], k) == Undos(s.requests, k) + Of(undo, Query(k, OnlyUndos, false)) by {
      Pushed(s.requests, undo, k);
    }
  }

  lemma Opposite(m: Msg, k: Among)
    requires m.origin.User?
    ensures Of(Msg(m.peer, -m.amount, Undo(m.origin.id)), Query(k, OnlyUndos, false)) == -Of(m, Query(k, Both, false))
    ensures Of(m, Query(k, OnlyUsers, false)) == Of(m, Query(k, Both, false))
    ensures Of(m, Query(k, OnlyUndos, false)) == 0
  {
  }

  lemma SettleBooks(s: State, rc: Pending, m: Msg, k: Among)
    requires InHand(s, m, k) && Fits(m, rc) && WellMade(rc, s.made) && s.client.up
    ensures Balanced(Settle(s, rc, m), k)
  {
    if rc.live || m.amount == 0 || !rc.undo {
      KeptBooks(s, rc, m, k);
    } else {
      CancelledBooks(s, rc, m, k);
    }
  }

  // ----- Each step keeps every reservation in one place -----

  lemma ReservePlaces(s: State, p: Peer, amount: int, callback: bool, id: nat)
    requires Placed(s, id)
    ensures Placed(UserReserve(s, p, amount, callback), id)
  {
    var m := Msg(p, amount, User(|s.made|));
    SumPush(s.requests, m, Own(id));
    SumPush(s.requests, m, Back(id));
  }

  lemma SameMessage(m: Msg, trackers: set<Peer>, delayed: bool, id: nat)
    ensures Of(Granted(m, trackers, delayed), Own(id)) == Of(m, Own(id))
    ensures Of(Granted(m, trackers, delayed), Back(id)) == Of(m, Back(id))
  {
  }

  lemma ServePlaces(s: State, delayed: bool, id: nat)
    requires Placed(s, id) && s.requests != []
    ensures Placed(Serve(s, delayed), id)
  {
    var m := s.requests[0];
    SameMessage(m, s.trackers, delayed, id);
    SumPop(s.requests, Own(id));
    SumPop(s.requests, Back(id));
    SumPush(s.results, Granted(m, s.trackers, delayed), Own(id));
    SumPush(s.results, Granted(m, s.trackers, delayed), Back(id));
  }

  lemma ServeStalePlaces(s: State, j: nat, delayed: bool, id: nat)
    requires Placed(s, id) && j < |s.stale| && s.stale[j] != []
    ensures Placed(ServeStale(s, j, delayed), id)
  {
    var m := s.stale[j][0];
    SameMessage(m, s.trackers, delayed, id);
    StalePop(s.stale, j, Own(id));
    StalePop(s.stale, j, Back(id));
    SumPush(s.lost, Granted(m, s.trackers, delayed), Own(id));
    SumPush(s.lost, Granted(m, s.trackers, delayed), Back(id));
  }

  lemma DiscardPlaces(s: State, j: nat, id: nat)
    requires Placed(s, id) && j < |s.stale|
    ensures Placed(Discard(s, j), id)
  {
    StaleRemoved(s.stale, j, Own(id));
    StaleRemoved(s.stale, j, Back(id));
    SumAppend(s.unserved, s.stale[j], Own(id));
    SumAppend(s.unserved, s.stale[j], Back(id));
  }

  lemma DisconnectPlaces(s: State, id: nat)
    requires Placed(s, id)
    ensures Placed(Disconnect(s), id)
  {
    SumAppend(s.lost, s.results, Own(id));
    SumAppend(s.lost, s.results, Back(id));
    StalePush(s.stale, s.requests, Own(id));
    StalePush(s.stale, s.requests, Back(id));
  }

  /** The same with one message in hand. */
  ghost predicate PlacedButFor(s: State, m: Msg, id: nat) {
    && OnItsWay(s, Own(id)) + Arrived(s, Own(id)) + Of(m, Own(id)) == (if id < |s.made| then 1 else 0)
    && OnItsWay(s, Back(id)) + SumOf(s.undone, Back(id)) + Of(m, Back(id)) == SumOf(s.cancelled, Own(id))
  }

  lemma PopPlaces(s: State, id: nat)
    requires Placed(s, id) && s.results != [] && s.client.pending != []
    ensures PlacedButFor(Popped(s), s.results[0], id)
  {
    SumPop(s.results, Own(id));
    SumPop(s.results, Back(id));
  }

  lemma KeptPlaces(s: State, rc: Pending, m: Msg, id: nat)
    requires PlacedButFor(s, m, id) && Fits(m, rc) && WellMade(rc, s.made)
    requires rc.live || m.amount == 0 || !rc.undo
    ensures Placed(Settle(s, rc, m), id)
  {
    if rc.live {
      SumPush(s.told, m, Own(id));
    } else if rc.origin.Undo? {
      SumPush(s.undone, m, Back(id));
    } else {
      SumPush(s.silent, m, Own(id));
    }
  }

  lemma CancelledPlaces(s: State, rc: Pending, m: Msg, id: nat)
    requires PlacedButFor(s, m, id) && Fits(m, rc) && rc.origin.User? && s.client.up
    requires !rc.live && m.amount != 0 && rc.undo
    ensures Placed(Settle(s, rc, m), id)
  {
    SumPush(s.cancelled, m, Own(id));
    var undo := Msg(m.peer, -m.amount, Undo(m.origin.id));
    SumPush(s.requests, undo, Own(id));
    SumPush(s.requests, undo, Back(id));
  }

  lemma SettlePlaces(s: State, rc: Pending, m: Msg, id: nat)
    requires PlacedButFor(s, m, id) && Fits(m, rc) && WellMade(rc, s.made) && s.client.up
    ensures Placed(Settle(s, rc, m), id)
  {
    if rc.live || m.amount == 0 || !rc.undo {
      KeptPlaces(s, rc, m, id);
    } else {
      CancelledPlaces(s, rc, m, id);
    }
  }

  // ----- The first result belongs to the first pending reservation -----

  lemma SettleInOrder(s: State, rc: Pending, m: Msg)
    requires InOrder(s) && Fits(m, rc) && WellMade(rc, s.made)
    ensures InOrder(Settle(s, rc, m)) && Settle(s, rc, m).faulted == s.faulted && Settle(s, rc, m).stale == s.stale
  {
    if !rc.live && m.amount != 0 && rc.undo {
      ReserveInOrder(s.(cancelled := s.cancelled + [m]), m.peer, -m.amount, false, Undo(rc.origin.id));
    }
  }

  lemma SettleLogs(s: State, rc: Pending, m: Msg)
    requires Logs(s) && Withdrawals(s) && Fits(m, rc) && WellMade(rc, s.made) && CallbackGone(rc, s.withdrawn)
    ensures Logs(Settle(s, rc, m)) && Withdrawals(Settle(s, rc, m))
  {
  }

  lemma DeliverBooks(s: State)
    requires Inv(s) && s.results != []
    ensures Books(Deliver(s))
  {
    PopInOrder(s);
    var rc, m := s.client.pending[0], s.results[0];
    forall k: Among ensures Balanced(Deliver(s), k) {
      PopBooks(s, k);
      SettleBooks(Popped(s), rc, m, k);
    }
    forall id: nat ensures Placed(Deliver(s), id) {
      PopPlaces(s, id);
      SettlePlaces(Popped(s), rc, m, id);
    }
  }

  lemma DeliverKeepsInv(s: State)
    requires Inv(s) && s.results != []
    ensures Inv(Deliver(s))
  {
    PopInOrder(s);
    var rc, m := s.client.pending[0], s.results[0];
    assert CallbackGone(rc, s.withdrawn);
    SettleInOrder(Popped(s), rc, m);
    assert Logs(Popped(s)) && Withdrawals(Popped(s));
    SettleLogs(Popped(s), rc, m);
    DeliverBooks(s);
  }

  // ----- Every step -----

  lemma RequestsNegative(s: State, i: nat)
    requires InOrder(s) && i < |s.requests|
    ensures Negative(s.requests[i])
  {
    assert Asks(s.requests[i], s.client.pending, |s.results| + i);
    assert WellMade(s.client.pending[|s.results| + i], s.made);
  }

  lemma UserReserveKeepsInv(s: State, p: Peer, amount: int, callback: bool)
    requires Inv(s)
    ensures Inv(UserReserve(s, p, amount, callback))
  {
    var t := UserReserve(s, p, amount, callback);
    UserReserveInOrder(s, p, amount, callback);
    forall k: Among ensures Balanced(t, k) {
      assert Balanced(s, k);
      ReserveBooks(s, p, amount, callback, k);
    }
    forall id: nat ensures Placed(t, id) {
      assert Placed(s, id);
      ReservePlaces(s, p, amount, callback, id);
    }
    forall i | 0 <= i < |t.silent| ensures KeptSilently(t.silent[i], t.made) {
      assert KeptSilently(s.silent[i], s.made);
    }
    forall i | 0 <= i < |t.cancelled| ensures MadeToBeUndone(t.cancelled[i], t.made) {
      assert MadeToBeUndone(s.cancelled[i], s.made);
    }
  }

  lemma ServesKeepsInv(s: State, delayed: bool)
    requires Inv(s) && s.requests != []
    ensures Inv(Serve(s, delayed))
  {
    var t := Serve(s, delayed);
    RequestsNegative(s, 0);
    ServeInOrder(s, delayed);
    forall k: Among ensures Balanced(t, k) {
      ServeBooks(s, delayed, k);
    }
    forall id: nat ensures Placed(t, id) {
      ServePlaces(s, delayed, id);
    }
  }

  lemma FailsKeepsInv(s: State)
    requires Inv(s)
    ensures Inv(Disconnect(s))
  {
    var t := Disconnect(s);
    forall k: Among ensures Balanced(t, k) {
      DisconnectBooks(s, k);
    }
    forall id: nat ensures Placed(t, id) {
      DisconnectPlaces(s, id);
    }
    forall i | 0 <= i < |s.requests| ensures Negative(s.requests[i]) {
      RequestsNegative(s, i);
    }
  }

  lemma SameOrder(s: State, t: State)
    requires InOrder(s) && t.client.pending == s.client.pending && t.results == s.results && t.requests == s.requests
    requires t.made == s.made
    ensures InOrder(t)
  {
    forall i | 0 <= i < |t.requests| ensures Asks(t.requests[i], t.client.pending, |t.results| + i) {
      assert Asks(s.requests[i], s.client.pending, |s.results| + i);
    }
  }

  lemma ServesStaleKeepsInv(s: State, j: nat, delayed: bool)
    requires Inv(s) && j < |s.stale| && s.stale[j] != []
    ensures Inv(ServeStale(s, j, delayed))
  {
    var t := ServeStale(s, j, delayed);
    SameOrder(s, t);
    forall k: Among ensures Balanced(t, k) {
      ServeStaleBooks(s, j, delayed, k);
    }
    forall id: nat ensures Placed(t, id) {
      ServeStalePlaces(s, j, delayed, id);
    }
  }

  lemma DiscardsKeepsInv(s: State, j: nat)
    requires Inv(s) && j < |s.stale|
    ensures Inv(Discard(s, j))
  {
    var t := Discard(s, j);
    SameOrder(s, t);
    forall k: Among ensures Balanced(t, k) {
      DiscardBooks(s, j, k);
    }
    forall id: nat ensures Placed(t, id) {
      DiscardPlaces(s, j, id);
    }
  }

  /** Neither trackers nor the connection flag are in the books. */
  lemma QuietKeepsInv(s: State, trackers: set<Peer>, up: bool)
    requires Inv(s) && (s.client.up ==> up)
    ensures Inv(s.(trackers := trackers, client := s.client.(up := up)))
  {
    var t := s.(trackers := trackers, client := s.client.(up := up));
    SameOrder(s, t);
    forall k: Among ensures Balanced(t, k) {
      assert Balanced(s, k);
    }
    forall id: nat ensures Placed(t, id) {
      assert Placed(s, id);
    }
  }

  // ----- Numbers and places -----

  lemma {:induction false} NoneCounted(log: seq<Msg>, q: Query)
    requires forall i | 0 <= i < |log| :: Of(log[i], q) == 0
    ensures SumOf(log, q) == 0
  {
    if log != [] {
      NoneCounted(log[..|log| - 1], q);
    }
  }

  lemma {:induction false} NotNegative(log: seq<Msg>, q: Query)
    requires q.units
    ensures SumOf(log, q) >= 0
  {
    if log != [] {
      NotNegative(log[..|log| - 1], q);
    }
  }

  lemma {:induction false} StaleNotNegative(stale: seq<seq<Msg>>, q: Query)
    requires q.units
    ensures StaleSum(stale, q) >= 0
  {
    if stale != [] {
      StaleNotNegative(stale[..|stale| - 1], q);
      NotNegative(stale[|stale| - 1], q);
    }
  }

  lemma {:induction false} CountedOnce(log: seq<Msg>, i: nat, q: Query)
    requires i < |log| && q.units && Counts(log[i], q)
    ensures SumOf(log, q) >= 1
  {
    var last := |log| - 1;
    if i < last {
      CountedOnce(log[..last], i, q);
    } else {
      NotNegative(log[..last], q);
    }
  }

  lemma {:induction false} CountedTwice(log: seq<Msg>, i: nat, j: nat, q: Query)
    requires i < j < |log| && q.units && Counts(log[i], q) && Counts(log[j], q)
    ensures SumOf(log, q) >= 2
  {
    var last := |log| - 1;
    if j < last {
      CountedTwice(log[..last], i, j, q);
    } else {
      CountedOnce(log[..last], i, q);
    }
  }

  /** The messages of the pending reservations, in order. */
  lemma PendingMessage(s: State, i: nat)
    requires InOrder(s) && i < |s.client.pending|
    ensures (s.results + s.requests)[i].origin == s.client.pending[i].origin
  {
    if i < |s.results| {
      assert Fits(s.results[i], s.client.pending[i]);
    } else {
      assert Asks(s.requests[i - |s.results|], s.client.pending, |s.results| + (i - |s.results|));
    }
  }

  /** A reservation of the user that is pending once has not arrived. */
  lemma PendingOnce(s: State, id: nat)
    requires Inv(s)
    ensures SumOf(s.results + s.requests, Own(id)) + SumOf(s.told, Own(id)) <= 1
  {
    SumAppend(s.results, s.requests, Own(id));
    RestNotNegative(s, id);
    assert Placed(s, id);
  }

  lemma PendingNotTold(s: State, i: nat, j: nat)
    requires Inv(s) && i < |s.client.pending| && s.client.pending[i].origin.User? && j < |s.told|
    ensures s.told[j].origin != s.client.pending[i].origin
  {
    var id := s.client.pending[i].origin.id;
    PendingMessage(s, i);
    CountedOnce(s.results + s.requests, i, Own(id));
    PendingOnce(s, id);
    if s.told[j].origin == User(id) {
      CountedOnce(s.told, j, Own(id));
    }
  }

  lemma PendingDistinct(s: State, i: nat, j: nat)
    requires Inv(s) && i < j < |s.client.pending| && s.client.pending[i].origin.User?
    ensures s.client.pending[j].origin != s.client.pending[i].origin
  {
    var id := s.client.pending[i].origin.id;
    PendingMessage(s, i);
    PendingMessage(s, j);
    PendingOnce(s, id);
    NotNegative(s.told, Own(id));
    if s.client.pending[j].origin == User(id) {
      CountedTwice(s.results + s.requests, i, j, Own(id));
    }
  }

  lemma RestNotNegative(s: State, id: nat)
    ensures StaleSum(s.stale, Own(id)) >= 0 && SumOf(s.lost, Own(id)) >= 0 && SumOf(s.unserved, Own(id)) >= 0
    ensures SumOf(s.silent, Own(id)) >= 0 && SumOf(s.cancelled, Own(id)) >= 0
  {
    StaleNotNegative(s.stale, Own(id));
    NotNegative(s.lost, Own(id));
    NotNegative(s.unserved, Own(id));
    NotNegative(s.silent, Own(id));
    NotNegative(s.cancelled, Own(id));
  }

  lemma CancelWithdrawals(s: State, i: nat)
    requires Inv(s) && i < |s.client.pending| && s.client.pending[i].origin.User?
    ensures Withdrawals(UserCancel(s, i))
  {
    var t := UserCancel(s, i);
    forall j | 0 <= j < |t.told| ensures ToldInTime(t.told[j], t.withdrawn) {
      PendingNotTold(s, i, j);
      assert ToldInTime(s.told[j], s.withdrawn);
    }
    assert WellMade(s.client.pending[i], s.made);
    forall j | 0 <= j < |t.client.pending| ensures CallbackGone(t.client.pending[j], t.withdrawn) {
      assert CallbackGone(s.client.pending[j], s.withdrawn);
      if j < i && s.client.pending[j].origin.User? {
        PendingDistinct(s, j, i);
      } else if j > i {
        PendingDistinct(s, i, j);
      }
    }
  }

  lemma CancelKeepsInv(s: State, i: nat)
    requires Inv(s) && i < |s.client.pending| && s.client.pending[i].origin.User?
    ensures Inv(UserCancel(s, i))
  {
    var t := UserCancel(s, i);
    CancelInOrder(s, i);
    SameOrder(Cancel(s, i), t);
    CancelWithdrawals(s, i);
    forall k: Among ensures Balanced(t, k) {
      assert Balanced(s, k);
    }
    forall id: nat ensures Placed(t, id) {
      assert Placed(s, id);
    }
  }

  lemma NextKeepsInv(s: State, e: Event)
    requires Inv(s) && Enabled(s, e)
    ensures Inv(Next(s, e))
  {
    match e
    case UserReserves(p, amount, callback) => UserReserveKeepsInv(s, p, amount, callback);
    case UserCancels(i) => CancelKeepsInv(s, i);
    case Serves(delayed) => ServesKeepsInv(s, delayed);
    case Delivers => DeliverKeepsInv(s);
    case Bandwidth(p, positive) =>
      QuietKeepsInv(s, if positive then s.trackers + {p} else s.trackers - {p}, s.client.up);
    case ServesStale(j, delayed) => ServesStaleKeepsInv(s, j, delayed);
    case Discards(j) => DiscardsKeepsInv(s, j);
    case Fails => FailsKeepsInv(s);
    case Reconnects => QuietKeepsInv(s, s.trackers, true);
  }

  // ----- Every run -----

  lemma {:induction false} RunKeepsInv(s: State, es: seq<Event>, t: State)
    requires Inv(s) && Runs(s, es, t)
    ensures Inv(t)
    decreases |es|
  {
    if es != [] {
      NextKeepsInv(s, es[0]);
      RunKeepsInv(Next(s, es[0]), es[1..], t);
    }
  }

  lemma ReachableInv(t: State)
    requires Reachable(t)
    ensures Inv(t)
  {
    var s, es :| Initial(s) && Runs(s, es, t);
    RunKeepsInv(s, es, t);
  }

  /** In every run each result meets the reservation it answers, with all of its amount or nothing. */
  lemma ResultsMatch(t: State)
    requires Reachable(t)
    ensures !t.faulted
    ensures t.results != [] ==> t.client.pending != [] && Fits(t.results[0], t.client.pending[0])
  {
    ReachableInv(t);
  }

  /**
    In every run, for a peer or for one reservation, what the service granted is what callbacks
    were told and what came without a callback, but for the user's amounts that are on their way
    or were lost, and for the undos that are on their way, in a connection given up, or were never
    served.
   */
  lemma GrantsAccountedFor(t: State, k: Among)
    requires Reachable(t)
    ensures Sum(t.granted, k) == Sum(t.told, k) + Sum(t.silent, k) + Users(t.results, k) + Users(t.lost, k)
                                 - Undos(t.requests, k) - StaleUndos(t.stale, k) - Undos(t.unserved, k)
    ensures Sum(t.granted, k) == Sum(t.consumed, k) + Sum(t.free, k)
  {
    ReachableInv(t);
    assert Balanced(t, k);
  }
}
