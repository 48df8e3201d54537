/**
  What cancelled reservations cost.  A user who cancels is not told of the amount; the library is
  meant to give it back with an undo.
 */
module ReservationCosts {
  import opened Reservations

  /** What the service granted for one reservation of the user, without and with its undo. */
  function Grant(s: State, id: nat): int {
    Users(s.granted, ById(id))
  }

  function Cost(s: State, id: nat): int {
    Sum(s.granted, ById(id))
  }

  predicate Has(log: seq<Msg>, origin: Origin) {
    exists i :: 0 <= i < |log| && log[i].origin == origin
  }

  /** Neither the reservation nor its undo is pending or in a connection given up. */
  ghost predicate Settled(s: State, id: nat) {
    && (forall i | 0 <= i < |s.client.pending| :: s.client.pending[i].origin.id != id)
    && (forall j, i | 0 <= j < |s.stale| && 0 <= i < |s.stale[j]| :: s.stale[j][i].origin.id != id)
  }

  // ----- Nothing on its way -----

  lemma {:induction false} NoneStale(stale: seq<seq<Msg>>, q: Query)
    requires forall j, i | 0 <= j < |stale| && 0 <= i < |stale[j]| :: !Counts(stale[j][i], q)
    ensures StaleSum(stale, q) == 0
  {
    if stale != [] {
      NoneStale(stale[..|stale| - 1], q);
      NoneCounted(stale[|stale| - 1], q);
    }
  }

  lemma NothingOnItsWay(s: State, id: nat, q: Query)
    requires InOrder(s) && Settled(s, id) && q.among == ById(id)
    ensures SumOf(s.requests, q) == SumOf(s.results, q) == StaleSum(s.stale, q) == 0
  {
    NoneStale(s.stale, q);
    forall i | 0 <= i < |s.results| ensures Of(s.results[i], q) == 0 {
      PendingMessage(s, i);
    }
    NoneCounted(s.results, q);
    forall i | 0 <= i < |s.requests| ensures Of(s.requests[i], q) == 0 {
      PendingMessage(s, |s.results| + i);
    }
    NoneCounted(s.requests, q);
  }

  /** A log without a message of one kind has no amount of it. */
  lemma {:induction false} NoneNoAmount(log: seq<Msg>, id: nat, part: Part)
    requires SumOf(log, Query(ById(id), part, true)) == 0
    ensures SumOf(log, Query(ById(id), part, false)) == 0
  {
    if log != [] {
      var front := log[..|log| - 1];
      NotNegative(front, Query(ById(id), part, true));
      NoneNoAmount(front, id, part);
    }
  }

  lemma HasIffCounted(log: seq<Msg>, id: nat)
    ensures Has(log, User(id)) <==> SumOf(log, Own(id)) >= 1
    ensures Has(log, Undo(id)) <==> SumOf(log, Back(id)) >= 1
  {
    if Has(log, User(id)) {
      var i :| 0 <= i < |log| && log[i].origin == User(id);
      CountedOnce(log, i, Own(id));
    } else {
      NoneCounted(log, Own(id));
    }
    if Has(log, Undo(id)) {
      var i :| 0 <= i < |log| && log[i].origin == Undo(id);
      CountedOnce(log, i, Back(id));
    } else {
      NoneCounted(log, Back(id));
    }
  }

  // ----- Where a cancelled reservation ends -----

  /** A settled reservation that the user cancelled came silently, was undone, was lost or never served. */
  lemma CancelledEnds(s: State, id: nat)
    requires Inv(s) && id in s.withdrawn && Settled(s, id)
    ensures id < |s.made|
    ensures SumOf(s.silent, Own(id)) + SumOf(s.cancelled, Own(id)) + SumOf(s.lost, Own(id))
            + SumOf(s.unserved, Own(id)) == 1
    ensures SumOf(s.undone, Back(id)) + SumOf(s.lost, Back(id)) + SumOf(s.unserved, Back(id))
         == SumOf(s.cancelled, Own(id))
    ensures SumOf(s.told, Own(id)) == 0
  {
    NothingOnItsWay(s, id, Own(id));
    NothingOnItsWay(s, id, Back(id));
    forall i | 0 <= i < |s.told| ensures Of(s.told[i], Own(id)) == 0 {
      assert ToldInTime(s.told[i], s.withdrawn);
    }
    NoneCounted(s.told, Own(id));
    assert Placed(s, id);
  }

  /** Logs of the user's amounts have no others. */
  lemma {:induction false} OnlyOwn(log: seq<Msg>, id: nat)
    requires forall i | 0 <= i < |log| :: log[i].origin.User?
    ensures Sum(log, ById(id)) == Users(log, ById(id))
  {
    if log != [] {
      OnlyOwn(log[..|log| - 1], id);
    }
  }

  /** The amounts of a settled and cancelled reservation. */
  lemma CancelledAmounts(s: State, id: nat)
    requires Inv(s) && id in s.withdrawn && Settled(s, id)
    ensures Grant(s, id) == Users(s.silent, ById(id)) + Users(s.cancelled, ById(id)) + Users(s.lost, ById(id))
    ensures Users(s.cancelled, ById(id)) + Undos(s.granted, ById(id)) + Undos(s.unserved, ById(id)) == 0
    ensures Cost(s, id) == Grant(s, id) + Undos(s.granted, ById(id))
  {
    var k := ById(id);
    NothingOnItsWay(s, id, Query(k, OnlyUsers, false));
    NothingOnItsWay(s, id, Query(k, OnlyUndos, false));
    CancelledEnds(s, id);
    forall i | 0 <= i < |s.told| ensures s.told[i].origin.User? {
      assert ToldInTime(s.told[i], s.withdrawn);
    }
    OnlyOwn(s.told, id);
    NoneNoAmount(s.told, id, OnlyUsers);
    forall i | 0 <= i < |s.silent| ensures s.silent[i].origin.User? {
      assert KeptSilently(s.silent[i], s.made);
    }
    OnlyOwn(s.silent, id);
    forall i | 0 <= i < |s.cancelled| ensures s.cancelled[i].origin.User? {
      assert MadeToBeUndone(s.cancelled[i], s.made);
    }
    OnlyOwn(s.cancelled, id);
    assert Balanced(s, k);
  }

  /** What came silently for a reservation made to be undone is nothing. */
  lemma SilentAmount(s: State, id: nat)
    requires Logs(s) && id < |s.made| && s.made[id].undo
    ensures Users(s.silent, ById(id)) == 0
  {
    forall i | 0 <= i < |s.silent| ensures Of(s.silent[i], Query(ById(id), OnlyUsers, false)) == 0 {
      assert KeptSilently(s.silent[i], s.made);
    }
    NoneCounted(s.silent, Query(ById(id), OnlyUsers, false));
  }

  lemma NotMadeToBeUndone(s: State, id: nat)
    requires Logs(s) && id < |s.made| && !s.made[id].undo
    ensures SumOf(s.cancelled, Own(id)) == 0
  {
    forall i | 0 <= i < |s.cancelled| ensures Of(s.cancelled[i], Own(id)) == 0 {
      assert MadeToBeUndone(s.cancelled[i], s.made);
    }
    NoneCounted(s.cancelled, Own(id));
  }

  /** A reservation whose undo was not served, or that has none, costs what was granted. */
  lemma NotUndone(s: State, id: nat)
    requires Inv(s) && id in s.withdrawn && Settled(s, id)
    requires SumOf(s.cancelled, Own(id)) == 0 || SumOf(s.unserved, Back(id)) >= 1
    ensures Cost(s, id) == Grant(s, id)
  {
    CancelledEnds(s, id);
    CancelledAmounts(s, id);
    RestNotNegative(s, id);
    NotNegative(s.undone, Back(id));
    NotNegative(s.lost, Back(id));
    NotNegative(s.unserved, Back(id));
    if SumOf(s.cancelled, Own(id)) == 0 {
      NoneNoAmount(s.cancelled, id, OnlyUsers);
      NoneNoAmount(s.unserved, id, OnlyUndos);
    } else {
      NothingOnItsWay(s, id, Query(ById(id), OnlyUndos, false));
      NoneNoAmount(s.lost, id, OnlyUndos);
      NoneNoAmount(s.undone, id, OnlyUndos);
      assert Balanced(s, ById(id));
    }
  }

  /**
    Once it is settled, a reservation that the user cancelled costs nothing exactly when nothing was
    granted, or when it was made with a callback and for a positive amount, its grant was not lost
    with a connection, and its undo was not left unserved.
   */
  lemma CancelledCostNothing(t: State, id: nat)
    requires Reachable(t) && id in t.withdrawn && Settled(t, id)
    ensures id < |t.made|
    ensures Cost(t, id) == 0 <==>
              Grant(t, id) == 0 || (t.made[id].undo && !Has(t.lost, User(id)) && !Has(t.unserved, Undo(id)))
  {
    ReachableInv(t);
    CancelledEnds(t, id);
    CancelledAmounts(t, id);
    RestNotNegative(t, id);
    HasIffCounted(t.lost, id);
    HasIffCounted(t.unserved, id);
    if SumOf(t.cancelled, Own(id)) == 0 || SumOf(t.unserved, Back(id)) >= 1 {
      NotUndone(t, id);
      if t.made[id].undo && !Has(t.lost, User(id)) && SumOf(t.cancelled, Own(id)) == 0 {
        SilentAmount(t, id);
        NoneNoAmount(t.cancelled, id, OnlyUsers);
        NoneNoAmount(t.lost, id, OnlyUsers);
      }
    } else {
      UndoServed(t, id);
      if !t.made[id].undo {
        NotMadeToBeUndone(t, id);
      }
    }
  }

  /** A reservation whose undo was served costs nothing. */
  lemma UndoServed(s: State, id: nat)
    requires Inv(s) && id in s.withdrawn && Settled(s, id)
    requires SumOf(s.cancelled, Own(id)) != 0 && SumOf(s.unserved, Back(id)) < 1
    ensures Cost(s, id) == 0 && SumOf(s.lost, Own(id)) == 0 && SumOf(s.cancelled, Own(id)) >= 1
  {
    CancelledEnds(s, id);
    CancelledAmounts(s, id);
    RestNotNegative(s, id);
    NotNegative(s.unserved, Back(id));
    NoneNoAmount(s.unserved, id, OnlyUndos);
    NoneNoAmount(s.silent, id, OnlyUsers);
    NoneNoAmount(s.lost, id, OnlyUsers);
  }

  // ----- Runs without a lost connection -----

  /** No connection fails. */
  ghost predicate NoneFails(es: seq<Event>) {
    forall i | 0 <= i < |es| :: !es[i].Fails?
  }

  lemma {:induction false} NothingLost(s: State, es: seq<Event>, t: State)
    requires Runs(s, es, t) && NoneFails(es) && s.stale == [] && s.lost == [] && s.unserved == []
    ensures t.stale == [] && t.lost == [] && t.unserved == []
    decreases |es|
  {
    if es != [] {
      NothingLost(Next(s, es[0]), es[1..], t);
    }
  }

  /** While no connection fails, a callback and a positive amount are all it takes. */
  lemma CancelledWithoutLoss(s: State, es: seq<Event>, t: State, id: nat)
    requires Initial(s) && Runs(s, es, t) && NoneFails(es) && id in t.withdrawn && Settled(t, id)
    ensures id < |t.made|
    ensures Cost(t, id) == 0 <==> Grant(t, id) == 0 || t.made[id].undo
  {
    NothingLost(s, es, t);
    CancelledCostNothing(t, id);
  }

  /** While a peer has its tracker nothing is given to it for free. */
  lemma {:induction false} TrackerCountsAll(s: State, es: seq<Event>, t: State, p: Peer)
    requires Runs(s, es, t) && p in s.trackers && Sum(s.free, ByPeer(p)) == 0
    requires forall i | 0 <= i < |es| :: es[i] != Bandwidth(p, false)
    ensures p in t.trackers && Sum(t.free, ByPeer(p)) == 0
    decreases |es|
  {
    if es != [] {
      TrackerStep(s, es[0], p);
      TrackerCountsAll(Next(s, es[0]), es[1..], t, p);
    }
  }

  lemma TrackedNotFree(s: State, m: Msg, delayed: bool, p: Peer)
    requires p in s.trackers
    ensures Sum(Granting(s, m, delayed).free, ByPeer(p)) == Sum(s.free, ByPeer(p))
  {
    if m.peer !in s.trackers {
      SumPush(s.free, Granted(m, s.trackers, delayed), Query(ByPeer(p), Both, false));
    }
  }

  lemma OthersKeepFree(s: State, e: Event)
    requires Enabled(s, e) && !e.Serves? && !e.ServesStale?
    ensures Next(s, e).free == s.free && (e.Bandwidth? || Next(s, e).trackers == s.trackers)
  {
  }

  lemma TrackerStep(s: State, e: Event, p: Peer)
    requires Enabled(s, e) && p in s.trackers && e != Bandwidth(p, false)
    ensures p in Next(s, e).trackers && Sum(Next(s, e).free, ByPeer(p)) == Sum(s.free, ByPeer(p))
  {
    match e
    case Serves(delayed) => TrackedNotFree(s, s.requests[0], delayed, p);
    case ServesStale(j, delayed) => TrackedNotFree(s, s.stale[j][0], delayed, p);
    case _ => OthersKeepFree(s, e);
  }

  /**
    With a tracker throughout and no connection failing, the tracker is charged, once nothing is
    pending, exactly what callbacks were told and what came without one.
   */
  lemma TrackerCharged(s: State, es: seq<Event>, t: State, p: Peer)
    requires Initial(s) && Runs(s, es, t) && NoneFails(es) && p in s.trackers
    requires forall i | 0 <= i < |es| :: es[i] != Bandwidth(p, false)
    ensures t.client.pending == [] ==> Sum(t.consumed, ByPeer(p)) == Sum(t.told, ByPeer(p)) + Sum(t.silent, ByPeer(p))
  {
    TrackerCountsAll(s, es, t, p);
    NothingLost(s, es, t);
    ReachableInv(t);
    GrantsAccountedFor(t, ByPeer(p));
  }

  // ----- Runs in which a cancelled reservation costs -----

  lemma {:induction false} RunsOn(s: State, es: seq<Event>, t: State, e: Event)
    requires Runs(s, es, t) && Enabled(t, e)
    ensures Runs(s, es + [e], Next(t, e))
    decreases |es|
  {
    if es == [] {
      assert (es + [e])[1..] == [];
    } else {
      RunsOn(Next(s, es[0]), es[1..], t, e);
      assert (es + [e])[1..] == es[1..] + [e];
    }
  }

  lemma ReachableNext(s: State, e: Event)
    requires Reachable(s) && Enabled(s, e)
    ensures Reachable(Next(s, e))
  {
    var s0, es :| Initial(s0) && Runs(s0, es, s);
    RunsOn(s0, es, s, e);
  }

  /** A start with a tracker for peer 1. */
  function Fresh(): State {
    State(Client(true, []), [], [], [], {1}, false, [], {}, [], [], [], [], [], [], [], [], [])
  }

  /** The user's request in these runs, and what is pending for it after the cancellation. */
  function Asked(): Msg {
    Msg(1, 100, User(0))
  }

  function Gone(callback: bool): Pending {
    Pending(1, 100, false, callback, User(0))
  }

  /** The state after the user asked for 100 bytes and cancelled. */
  function Cancelled(callback: bool): State {
    Fresh().(client := Client(true, [Gone(callback)]), requests := [Asked()], made := [Made(1, 100, callback)],
             withdrawn := {0})
  }

  /** The state before the cancellation. */
  function Reserved(callback: bool): State {
    Cancelled(callback).(client := Client(true, [Gone(callback).(live := callback)]), withdrawn := {})
  }

  lemma ReservedReachable(callback: bool)
    ensures Reachable(Reserved(callback))
  {
    var s0 := Fresh();
    assert Runs(s0, [], s0) && Initial(s0);
    ReachableNext(s0, UserReserves(1, 100, callback));
    assert Next(s0, UserReserves(1, 100, callback)) == Reserved(callback);
  }

  lemma CancelledReachable(callback: bool)
    ensures Reachable(Cancelled(callback))
  {
    ReservedReachable(callback);
    ReachableNext(Reserved(callback), UserCancels(0));
    assert [Gone(callback).(live := callback)][0 := Gone(callback)] == [Gone(callback)];
    assert Next(Reserved(callback), UserCancels(0)) == Cancelled(callback);
  }

  /** After the request was granted. */
  function Answered(callback: bool): State {
    Cancelled(callback).(requests := [], results := [Asked()], granted := [Asked()], consumed := [Asked()])
  }

  lemma AnsweredReachable(callback: bool)
    ensures Reachable(Answered(callback))
  {
    CancelledReachable(callback);
    ReachableNext(Cancelled(callback), Serves(false));
    assert [Asked()][1..] == [];
    assert Next(Cancelled(callback), Serves(false)) == Answered(callback);
  }

  lemma OneGrant(t: State)
    requires t.granted == [Asked()]
    ensures Cost(t, 0) == Grant(t, 0) == 100
  {
    assert [] + [Asked()] == [Asked()];
    Pushed([], Asked(), ById(0));
  }

  /** A reservation without a callback: nothing is lost, and cancelling it does not give it back. */
  lemma SilentCosts() returns (t: State)
    ensures Reachable(t) && 0 in t.withdrawn && Settled(t, 0) && t.lost == [] && t.unserved == []
    ensures Cost(t, 0) == 100
  {
    AnsweredReachable(false);
    ReachableNext(Answered(false), Delivers);
    t := Next(Answered(false), Delivers);
    assert [Gone(false)][1..] == [] && [Asked()][1..] == [];
    OneGrant(t);
  }

  /** A reservation whose result was lost with the connection. */
  lemma LostGrantCosts() returns (t: State)
    ensures Reachable(t) && 0 in t.withdrawn && Settled(t, 0) && Has(t.lost, User(0))
    ensures t.made == [Made(1, 100, true)]
    ensures Cost(t, 0) == 100
  {
    AnsweredReachable(true);
    ReachableNext(Answered(true), Fails);
    t := Next(Answered(true), Fails);
    assert t.stale == [[]] && t.lost[0] == Asked();
    OneGrant(t);
  }

  /** A reservation whose undo the service never saw. */
  lemma UnservedUndoCosts() returns (t: State)
    ensures Reachable(t) && 0 in t.withdrawn && Settled(t, 0) && Has(t.unserved, Undo(0))
    ensures t.made == [Made(1, 100, true)]
    ensures Cost(t, 0) == 100
  {
    var undo := Msg(1, -100, Undo(0));
    AnsweredReachable(true);
    ReachableNext(Answered(true), Delivers);
    var s := Next(Answered(true), Delivers);
    assert [Gone(true)][1..] == [] && [Asked()][1..] == [];
    assert s.requests == [undo] && s.granted == [Asked()];
    ReachableNext(s, Fails);
    var u := Next(s, Fails);
    assert u.stale == [[undo]];
    ReachableNext(u, Discards(0));
    t := Next(u, Discards(0));
    assert t.unserved == [undo] && t.unserved[0] == undo && t.stale == [];
    OneGrant(t);
  }
}
