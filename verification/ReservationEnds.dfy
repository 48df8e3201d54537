/**
  The two ends of the reservation protocol as they update their state, each proved to take the
  step of the state machine in module Reservations.
 */
module ReservationEnds {
  import opened Common
  import opened Reservations

  function Live(pending: seq<Pending>): seq<Pending> {
    if pending == [] then [] else (if pending[0].live then [pending[0]] else []) + Live(pending[1..])
  }

  function Flags(pending: seq<Pending>): (r: seq<bool>)
    ensures |r| == |pending|
  {
    seq(|pending|, i requires 0 <= i < |pending| => pending[i].live)
  }

  /** The reservations whose callback is set, and no other, in order. */
  ghost predicate SetCallbacks(told: seq<Pending>, pending: seq<Pending>) {
    exists places: seq<nat> :: Picks(places, Flags(pending)) && |told| == |places|
                               && forall k | 0 <= k < |places| :: places[k] < |pending| && told[k] == pending[places[k]]
  }

  lemma LiveAppend(a: seq<Pending>, rc: Pending)
    ensures Live(a + [rc]) == Live(a) + (if rc.live then [rc] else [])
  {
    if a == [] {
      assert [rc][1..] == [] && a + [rc] == [rc];
    } else {
      LiveAppend(a[1..], rc);
      assert (a + [rc])[1..] == a[1..] + [rc];
    }
  }

  lemma {:induction false} LiveAt(pending: seq<Pending>)
    ensures var places := PlacesOf(Flags(pending));
            && |Live(pending)| == |places|
            && forall k | 0 <= k < |places| :: Live(pending)[k] == pending[places[k]]
  {
    if pending != [] {
      var n := |pending| - 1;
      LiveAt(pending[..n]);
      LiveAppend(pending[..n], pending[n]);
      assert pending == pending[..n] + [pending[n]];
      assert Flags(pending)[..n] == Flags(pending[..n]);
    }
  }

  lemma LiveIsSet(pending: seq<Pending>)
    ensures SetCallbacks(Live(pending), pending)
  {
    LiveAt(pending);
    PlacesPick(Flags(pending));
  }

  class PerformanceHandle {
    var up: bool
    var pending: seq<Pending>
    var requests: seq<Msg>
    var faulted: bool
    var told: seq<Msg>
    var silent: seq<Msg>
    var cancelled: seq<Msg>
    var undone: seq<Msg>

    /** The callbacks that were told of a lost connection. */
    var flushed: seq<Pending>

    /** The client's part in a state of the whole system. */
    ghost function In(s: State): State
      reads this
    {
      s.(client := Client(up, pending), requests := requests, faulted := faulted, told := told, silent := silent,
         cancelled := cancelled, undone := undone)
    }

    /** GNUNET_ATS_reserve_bandwidth; `accepted` is false where it returns NULL. */
    method ReserveBandwidth(ghost s: State, p: Peer, amount: int, callback: bool, origin: Origin)
      returns (accepted: bool)
      modifies `pending, `requests
      ensures In(s) == Reserve(old(In(s)), p, amount, callback, origin) && accepted == up
    {
      if !up {
        return false;
      }
      pending := pending + [Pending(p, amount, callback, callback && amount > 0, origin)];
      requests := requests + [Msg(p, amount, origin)];
      accepted := true;
    }

    /** GNUNET_ATS_reserve_bandwidth_cancel */
    method CancelReservation(ghost s: State, i: nat)
      requires i < |pending|
      modifies `pending
      ensures In(s) == Cancel(old(In(s)), i)
    {
      pending := pending[i := pending[i].(live := false)];
    }

    /** handle_reservation_result for the first result on its way. */
    method HandleReservationResult(ghost s: State, m: Msg)
      requires s.results != [] && s.results[0] == m
      modifies this
      ensures In(s.(results := s.results[1..])) == Deliver(old(In(s))) && flushed == old(flushed)
    {
      if pending == [] || pending[0].peer != m.peer {
        faulted := true;
        return;
      }
      var rc := pending[0];
      pending := pending[1..];
      if m.amount == 0 || rc.live {
        if rc.live {
          told := told + [m];
        } else if rc.origin.Undo? {
          undone := undone + [m];
        } else {
          silent := silent + [m];
        }
        return;
      }
      if !rc.undo {
        if rc.origin.Undo? {
          undone := undone + [m];
        } else {
          silent := silent + [m];
        }
        return;
      }
      cancelled := cancelled + [m];
      var _ := ReserveBandwidth(s.(results := s.results[1..]), m.peer, -m.amount, false, Undo(rc.origin.id));
    }

    /** do_reconnect: the callbacks that are set learn of it, in order. */
    method DoReconnect(ghost s: State)
      modifies this
      ensures In(s.(results := [], lost := s.lost + s.results, stale := s.stale + [old(requests)]))
           == Disconnect(old(In(s)))
      ensures flushed == old(flushed) + Live(old(pending))
    {
      up := false;
      requests := [];
      FlushPending();
    }

    method FlushPending()
      modifies `pending, `flushed
      ensures pending == [] && flushed == old(flushed) + Live(old(pending))
    {
      while pending != []
        invariant flushed + Live(pending) == old(flushed) + Live(old(pending))
        decreases |pending|
      {
        var rc := pending[0];
        pending := pending[1..];
        if rc.live {
          flushed := flushed + [rc];
        }
      }
    }
  }

  class ReservationService {
    var trackers: set<Peer>

    /** GAS_handle_reservation_request; `delay` is what the tracker would make the request wait. */
    method HandleRequest(m: Msg, delay: nat) returns (result: Msg, consumed: int)
      ensures result == Granted(m, trackers, delay > 0)
      ensures consumed == if m.peer in trackers then result.amount else 0
      ensures result.peer == m.peer && result.origin == m.origin
      ensures m.peer in trackers && m.amount >= 0 && delay == 0 ==> result.amount == m.amount == consumed
      ensures m.peer in trackers && m.amount >= 0 && delay > 0 ==> result.amount == 0 == consumed
      ensures m.peer in trackers && m.amount < 0 ==> result.amount == m.amount == consumed
      ensures m.peer !in trackers ==> result.amount == m.amount && consumed == 0
    {
      var amount := m.amount;
      consumed := 0;
      if m.peer in trackers {
        if amount >= 0 && delay > 0 {
          amount := 0;
        } else {
          consumed := amount;
        }
      }
      result := m.(amount := amount);
    }

    /** GAS_reservations_set_bandwidth */
    method SetBandwidth(p: Peer, bandwidth: nat)
      modifies this
      ensures trackers == if bandwidth > 0 then old(trackers) + {p} else old(trackers) - {p}
    {
      if bandwidth == 0 {
        if p !in trackers {
          return;
        }
        trackers := trackers - {p};
        return;
      }
      if p !in trackers {
        trackers := trackers + {p};
      }
    }
  }
}
