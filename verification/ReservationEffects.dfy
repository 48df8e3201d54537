/**
  What the events of the reservation protocol do, read off the state before and after a step of the
  state machine in module Reservations.
 */
module ReservationEffects {
  import opened Reservations

  /**
    A served request is granted in full, unless the peer has a tracker that makes a non-negative
    amount wait; then nothing is.  A tracker is charged what is granted.
   */
  ghost predicate Grants(s: State, m: Msg, delayed: bool, result: Msg, t: State) {
    && result.peer == m.peer && result.origin == m.origin
    && result.amount == (if m.peer in s.trackers && m.amount >= 0 && delayed then 0 else m.amount)
    && (forall p: Peer :: Charges(s, m, result.amount, t, p))
  }

  ghost predicate Charges(s: State, m: Msg, amount: int, t: State, p: Peer) {
    && Sum(t.granted, ByPeer(p)) == Sum(s.granted, ByPeer(p)) + (if p == m.peer then amount else 0)
    && Sum(t.consumed, ByPeer(p))
       == Sum(s.consumed, ByPeer(p)) + (if p == m.peer && m.peer in s.trackers then amount else 0)
  }

  lemma GrantingCharges(s: State, m: Msg, delayed: bool, t: State)
    requires t.granted == Granting(s, m, delayed).granted && t.consumed == Granting(s, m, delayed).consumed
    ensures Grants(s, m, delayed, Granted(m, s.trackers, delayed), t)
  {
    var g := Granted(m, s.trackers, delayed);
    forall p: Peer ensures Charges(s, m, g.amount, t, p) {
      SumPush(s.granted, g, Query(ByPeer(p), Both, false));
      SumPush(s.consumed, g, Query(ByPeer(p), Both, false));
    }
  }

  /** The oldest request is served, and its result is sent. */
  lemma ServesOldest(s: State, delayed: bool) returns (result: Msg)
    requires Enabled(s, Serves(delayed))
    ensures var t := Next(s, Serves(delayed));
            && Grants(s, s.requests[0], delayed, result, t)
            && t.requests == s.requests[1..] && t.results == s.results + [result] && t.client == s.client
  {
    result := Granted(s.requests[0], s.trackers, delayed);
    GrantingCharges(s, s.requests[0], delayed, Next(s, Serves(delayed)));
  }

  /** So is the oldest request of a connection given up, and its result is lost. */
  lemma ServesStaleOldest(s: State, j: nat, delayed: bool) returns (result: Msg)
    requires Enabled(s, ServesStale(j, delayed))
    ensures var t := Next(s, ServesStale(j, delayed));
            && Grants(s, s.stale[j][0], delayed, result, t)
            && t.stale == s.stale[j := s.stale[j][1..]] && t.lost == s.lost + [result]
            && t.results == s.results && t.client == s.client
  {
    result := Granted(s.stale[j][0], s.trackers, delayed);
    GrantingCharges(s, s.stale[j][0], delayed, Next(s, ServesStale(j, delayed)));
  }

  /** A reservation is remembered with its callback, and asked for; without a connection it is refused. */
  lemma ReservationIsAsked(s: State, p: Peer, amount: int, callback: bool)
    ensures var t, id := Next(s, UserReserves(p, amount, callback)), |s.made|;
            if !s.client.up then t == s
            else
              && t.client.pending == s.client.pending + [Pending(p, amount, callback, callback && amount > 0, User(id))]
              && t.requests == s.requests + [Msg(p, amount, User(id))]
              && t.made == s.made + [Made(p, amount, callback && amount > 0)]
              && t.results == s.results && t.told == s.told && t.withdrawn == s.withdrawn
  {
  }

  /** Cancelling takes the callback and nothing else. */
  lemma CancellingTakesCallback(s: State, i: nat)
    requires Enabled(s, UserCancels(i))
    ensures var t := Next(s, UserCancels(i));
            && |t.client.pending| == |s.client.pending| && !t.client.pending[i].live
            && (forall k | 0 <= k < |s.client.pending| ::
                  t.client.pending[k].(live := s.client.pending[k].live) == s.client.pending[k]
                  && (k != i ==> t.client.pending[k] == s.client.pending[k]))
            && t.requests == s.requests && t.results == s.results
            && t.withdrawn == s.withdrawn + {s.client.pending[i].origin.id}
  {
  }

  /** The undo of a result. */
  function UndoOf(m: Msg): Msg {
    Msg(m.peer, -m.amount, Undo(m.origin.id))
  }

  /**
    A result tells the callback of its reservation if it is still set; otherwise a non-zero amount of
    a reservation that was made with a callback and for a positive amount is asked back.
   */
  lemma ResultIsTold(s: State)
    requires Reachable(s) && Enabled(s, Delivers)
    ensures s.client.pending != []
    ensures var t, rc, m := Next(s, Delivers), s.client.pending[0], s.results[0];
            var back := !rc.live && m.amount != 0 && rc.undo;
            && t.results == s.results[1..] && !t.faulted
            && t.told == (if rc.live then s.told + [m] else s.told)
            && t.requests == (if back then s.requests + [UndoOf(m)] else s.requests)
            && t.cancelled == (if back then s.cancelled + [m] else s.cancelled)
            && |t.client.pending| == |s.client.pending| - (if back then 0 else 1)
            && (rc.origin.User? ==> rc.origin.id < |s.made| && rc.undo == s.made[rc.origin.id].undo)
  {
    ReachableInv(s);
    PopInOrder(s);
  }

  /** A lost connection drops what is pending and loses the results on their way. */
  lemma LossDropsPending(s: State)
    requires Enabled(s, Fails)
    ensures var t := Next(s, Fails);
            && t.client == Client(false, []) && t.requests == [] && t.results == []
            && t.lost == s.lost + s.results && t.stale == s.stale + [s.requests]
            && t.granted == s.granted && t.told == s.told
  {
  }
}
