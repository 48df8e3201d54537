/**
  The supervisor's event handlers as they update its global state, each proved to take the step
  of the state machine in module Arm.
 */
module ArmService {
  import opened Common
  import opened Arm

  /** One round of a loop that unlinks some of the services it passes. */
  lemma PassStep(kept: seq<Service>, was: seq<Service>, k: nat, services: seq<Service>)
    requires k < |was| && services == kept + was[k..]
    ensures services[|kept|] == was[k]
    ensures services == (kept + [was[k]]) + was[k + 1..]
    ensures services[..|kept|] + services[|kept| + 1..] == kept + was[k + 1..]
  {
  }

  lemma RunningStep(was: seq<Service>, k: nat)
    requires k < |was|
    ensures Running(was[..k + 1]) == if was[k].proc then Running(was[..k]) + [was[k]] else Running(was[..k])
  {
    assert was[..k + 1][..k] == was[..k];
  }

  lemma KillersFromStep(was: seq<Service>, i: nat, c: Client, base: multiset<Request>)
    requires i < |was|
    ensures base + KillersFrom(was[..i + 1], c)
         == if was[i].killer.Some? && was[i].killer.value.client == c
            then base + KillersFrom(was[..i], c) + multiset{was[i].killer.value}
            else base + KillersFrom(was[..i], c)
  {
    assert was[..i + 1][..i] == was[..i];
  }

  lemma ForgetStep(was: seq<Service>, i: nat, c: Client, services: seq<Service>)
    requires i < |was| && services == ForgetAll(was[..i], c) + was[i..]
    ensures services[i] == was[i]
    ensures services[i := Forget(was[i], c)] == ForgetAll(was[..i + 1], c) + was[i + 1..]
    ensures Forget(was[i], c) == was[i] ==> services == services[i := Forget(was[i], c)]
  {
  }

  /** The timer has passed the first i services. */
  ghost predicate TimedTo(was: seq<Service>, oks: seq<bool>, now: Time, i: nat, services: seq<Service>)
    requires |oks| == |was|
  {
    |services| == |was|
    && forall k | 0 <= k < |was| :: services[k] == if k < i then AfterTimer(was[k], now, oks[k]) else was[k]
  }

  lemma TimedAll(was: seq<Service>, oks: seq<bool>, now: Time, services: seq<Service>)
    requires |oks| == |was| && TimedTo(was, oks, now, |was|, services)
    ensures services == AfterTimers(was, now, oks)
  {
  }

  function Earlier(t: Time, sv: Service, now: Time): Time {
    if !sv.proc && !Due(sv, now) && sv.restartAt < t then sv.restartAt else t
  }

  ghost predicate EarlierAt(was: seq<Service>, now: Time, table: seq<Time>, k: nat)
    requires k < |was| && |table| == |was| + 1
  {
    table[k + 1] == Earlier(table[k], was[k], now)
  }

  /** The earliest restart among the first k services, for every k. */
  lemma {:induction false} EarliestSoFar(was: seq<Service>, now: Time) returns (table: seq<Time>)
    ensures |table| == |was| + 1 && table[0] == FOREVER && table[|was|] == EarliestRestart(was, now)
    ensures forall k | 0 <= k < |was| :: EarlierAt(was, now, table, k)
  {
    table := [FOREVER];
    if was != [] {
      var n := |was| - 1;
      var front := EarliestSoFar(was[..n], now);
      table := front + [EarliestRestart(was, now)];
      assert forall k | 0 <= k < n :: EarlierAt(was[..n], now, front, k) ==> EarlierAt(was, now, table, k);
    }
  }

  // ----- The loop of maint_child_death -----

  /** What the loop has left, sent and noticed on its way. */
  datatype Progress = Progress(left: seq<Service>, sent: seq<Answer>, raised: bool, crash: bool)

  /** What one round leaves of its service. */
  function LeftOf(sv: Service, fate: Fate, now: Time, inShutdown: bool): (r: seq<Service>)
    ensures |r| <= 1
  {
    if inShutdown then (if sv.proc && fate.Alive? then [sv] else []) else [AfterFate(sv, fate, now)]
  }

  predicate Raises(sv: Service, fate: Fate, inShutdown: bool) {
    if inShutdown then !(sv.proc && fate.Alive?) && |sv.accepts| != 0
    else sv.proc && fate.Clean? && Armed(sv)
  }

  predicate Crashes(sv: Service, fate: Fate, inShutdown: bool) {
    !inShutdown && sv.proc && fate.Crashed?
  }

  function Advance(p: Progress, sv: Service, fate: Fate, now: Time, inShutdown: bool): Progress {
    Progress(p.left + LeftOf(sv, fate, now, inShutdown), p.sent + StoppedAnswer(sv, fate),
             p.raised || Raises(sv, fate, inShutdown), p.crash || Crashes(sv, fate, inShutdown))
  }

  /** Where the loop stands after the last service, in the terms of the state machine. */
  function Whole(was: seq<Service>, fates: seq<Fate>, now: Time, inShutdown: bool): Progress
    requires |fates| == |was|
  {
    Progress(if inShutdown then Survivors(was, fates) else AfterFates(was, fates, now), StoppedAnswers(was, fates),
             if inShutdown then FreesListening(was, fates) else RearmsArmed(was, fates),
             !inShutdown && SomeCrash(was, fates))
  }

  lemma FlagStep(was: seq<Service>, n: nat, fates: seq<Fate>)
    requires |was| == |fates| == n + 1
    ensures SomeCrash(was, fates) <==> SomeCrash(was[..n], fates[..n]) || (was[n].proc && fates[n].Crashed?)
    ensures RearmsArmed(was, fates)
       <==> RearmsArmed(was[..n], fates[..n]) || (was[n].proc && fates[n].Clean? && Armed(was[n]))
    ensures FreesListening(was, fates)
       <==> FreesListening(was[..n], fates[..n]) || (!(was[n].proc && fates[n].Alive?) && |was[n].accepts| != 0)
  {
    assert forall k | 0 <= k < n :: was[k] == was[..n][k] && fates[k] == fates[..n][k];
  }

  lemma WholeStep(was: seq<Service>, fates: seq<Fate>, now: Time, inShutdown: bool, n: nat)
    requires |was| == |fates| == n + 1
    ensures Whole(was, fates, now, inShutdown)
         == Advance(Whole(was[..n], fates[..n], now, inShutdown), was[n], fates[n], now, inShutdown)
  {
    FlagStep(was, n, fates);
    assert AfterFates(was, fates, now) == AfterFates(was[..n], fates[..n], now) + [AfterFate(was[n], fates[n], now)];
  }

  ghost predicate AdvanceAt(was: seq<Service>, fates: seq<Fate>, now: Time, inShutdown: bool,
                            table: seq<Progress>, k: nat)
    requires k < |was| == |fates| && |table| == |was| + 1
  {
    table[k + 1] == Advance(table[k], was[k], fates[k], now, inShutdown)
  }

  /** Where the loop stands after the first k services, for every k. */
  lemma {:induction false} ProgressSoFar(was: seq<Service>, fates: seq<Fate>, now: Time, inShutdown: bool)
    returns (table: seq<Progress>)
    requires |fates| == |was|
    ensures |table| == |was| + 1 && table[0] == Progress([], [], false, false)
    ensures table[|was|] == Whole(was, fates, now, inShutdown)
    ensures forall k | 0 <= k < |was| :: AdvanceAt(was, fates, now, inShutdown, table, k)
  {
    table := [Progress([], [], false, false)];
    if was != [] {
      var n := |was| - 1;
      var front := ProgressSoFar(was[..n], fates[..n], now, inShutdown);
      WholeStep(was, fates, now, inShutdown, n);
      table := front + [Whole(was, fates, now, inShutdown)];
      assert forall k | 0 <= k < n :: AdvanceAt(was[..n], fates[..n], now, inShutdown, front, k)
                                      ==> AdvanceAt(was, fates, now, inShutdown, table, k);
    }
  }

  lemma LeftStep(left: seq<Service>, rest: seq<Service>, services: seq<Service>, more: seq<Service>)
    requires rest != [] && services == left + rest
    ensures services[|left|] == rest[0]
    ensures services[..|left|] + more + services[|left| + 1..] == (left + more) + rest[1..]
  {
  }

  lemma Grow(base: seq<Answer>, sent: seq<Answer>, more: seq<Answer>)
    ensures base + (sent + more) == (base + sent) + more
  {
  }

  class Supervisor {
    var services: seq<Service>
    var clients: set<Client>
    var restartTask: Option<Time>
    var deathTask: bool
    var shutdownTask: bool
    var inShutdown: bool
    var now: Time
    var aborted: bool
    var finished: nat
    var asked: multiset<Request>
    var log: seq<Answer>
    var dropped: multiset<Request>

    ghost function View(): State
      reads this
    {
      State(services, clients, restartTask, deathTask, shutdownTask, inShutdown, now, aborted, finished,
            asked, log, dropped)
    }

    /** The state before the last loop of run: configured services, no client, no task but two. */
    constructor (configured: seq<Service>, time: Time)
      ensures View() == State(configured, {}, None, true, true, false, time, false, 0, multiset{}, [], multiset{})
    {
      services, clients, restartTask, deathTask, shutdownTask := configured, {}, None, true, true;
      inShutdown, now, aborted, finished := false, time, false, 0;
      asked, log, dropped := multiset{}, [], multiset{};
    }

    /** The last loop of run: start the services that are not on demand. */
    method StartDefaults(oks: seq<bool>)
      requires |oks| == |services| && forall i | 0 <= i < |services| :: !services[i].proc
      modifies `services, `aborted
      ensures services == Booted(old(services), oks) && aborted == old(aborted)
    {
      ghost var was := services;
      var i := 0;
      while i < |services|
        invariant i <= |services| == |was|
        invariant forall k | 0 <= k < |was| ::
                    services[k] == if k < i && was[k].forceStart then Started(was[k], oks[k]) else was[k]
        invariant aborted == old(aborted)
      {
        if services[i].forceStart {
          StartProcess(i, oks[i]);
        }
        i := i + 1;
      }
    }

    /** find_service */
    method FindService(name: string) returns (i: nat)
      ensures i == Find(services, name)
    {
      i := 0;
      while i < |services| && !SameName(services[i].name, name)
        invariant i <= |services|
        invariant Find(services, name) == i + Find(services[i..], name)
      {
        assert services[i..][1..] == services[i + 1..];
        i := i + 1;
      }
    }

    /** start_process: cancel the accept tasks one by one, then fork. */
    method StartProcess(i: nat, ok: bool)
      requires i < |services|
      modifies `services, `aborted
      ensures View() == old(View()).(services := services, aborted := aborted)
      ensures services == Arm.StartProcess(old(View()), i, ok).services
      ensures aborted == Arm.StartProcess(old(View()), i, ok).aborted
    {
      var sv := services[i];
      var j := 0;
      var accepts := sv.accepts;
      while j < |accepts|
        invariant j <= |accepts| == |sv.accepts|
        invariant forall k | 0 <= k < j :: !accepts[k]
      {
        if accepts[j] {
          accepts := accepts[j := false];
        }
        j := j + 1;
      }
      assert accepts == AllFlags(|sv.accepts|, false);
      aborted := aborted || sv.proc;
      services := services[i := sv.(accepts := accepts, proc := ok, owed := sv.owed && !ok)];
    }

    /** accept_connection */
    method AcceptConnection(i: nat, j: nat, ok: bool)
      requires i < |services| && j < |services[i].accepts|
      modifies `services, `aborted
      ensures View() == Arm.AcceptConnection(old(View()), i, j, ok)
    {
      services := services[i := services[i].(accepts := services[i].accepts[j := false])];
      aborted := aborted || inShutdown;
      StartProcess(i, ok);
    }

    /** signal_result */
    method SignalResult(r: Request, result: Result)
      modifies `log
      ensures log == old(log) + [Answer(r, result)]
    {
      log := log + [Answer(r, result)];
    }

    /** handle_start */
    method HandleStart(r: Request, name: string, ok: bool)
      modifies `services, `aborted, `log
      ensures View() == Arm.HandleStart(old(View()), r, name, ok)
    {
      if inShutdown {
        SignalResult(r, InShutdown);
        return;
      }
      var i := FindService(name);
      if i == |services| {
        SignalResult(r, IsNotKnown);
        return;
      }
      services := services[i := services[i].(forceStart := true)];
      if services[i].proc {
        SignalResult(r, IsStartedAlready);
        return;
      }
      StartProcess(i, ok);
      SignalResult(r, if ok then Starting else StartFailed);
    }

    /** handle_stop; the signal to the process is not modelled. */
    method HandleStop(r: Request, name: string)
      modifies `services, `log
      ensures View() == Arm.HandleStop(old(View()), r, name)
    {
      if SameName(name, "arm") {
        SignalResult(r, Stopping);
        return;
      }
      var i := FindService(name);
      if i == |services| {
        SignalResult(r, IsNotKnown);
        return;
      }
      services := services[i := services[i].(forceStart := false)];
      if inShutdown {
        SignalResult(r, InShutdown);
        return;
      }
      if services[i].killer.Some? {
        SignalResult(r, IsStoppingAlready);
        return;
      }
      if !services[i].proc {
        SignalResult(r, IsStoppedAlready);
        return;
      }
      services := services[i := services[i].(killer := Some(r))];
    }

    /** The loop of client_disconnect_cb. */
    method ForgetClient(c: Client)
      modifies `services, `dropped
      ensures services == ForgetAll(old(services), c)
      ensures dropped == old(dropped) + KillersFrom(old(services), c)
    {
      ghost var was := services;
      var i := 0;
      while i < |services|
        invariant i <= |services| == |was|
        invariant services == ForgetAll(was[..i], c) + was[i..]
        invariant dropped == old(dropped) + KillersFrom(was[..i], c)
      {
        KillersFromStep(was, i, c, old(dropped));
        ForgetStep(was, i, c, services);
        if services[i].killer.Some? && services[i].killer.value.client == c {
          dropped := dropped + multiset{services[i].killer.value};
          services := services[i := services[i].(killer := None)];
        }
        i := i + 1;
      }
      assert was[..i] == was;
    }

    /** client_disconnect_cb */
    method ClientDisconnect(c: Client)
      modifies `services, `clients, `dropped
      ensures View() == Disconnect(old(View()), c)
    {
      ForgetClient(c);
      clients := clients - {c};
    }

    /** free_service: unlink the service at position i. */
    method FreeService(i: nat)
      requires i < |services|
      modifies `services, `aborted
      ensures services == old(services)[..i] + old(services)[i + 1..]
      ensures inShutdown && |old(services)[i].accepts| == 0 ==> aborted == old(aborted)
      ensures !inShutdown || |old(services)[i].accepts| != 0 ==> aborted
    {
      aborted := aborted || !inShutdown || |services[i].accepts| != 0;
      services := services[..i] + services[i + 1..];
    }

    /** do_shutdown */
    method DoShutdown()
      modifies `finished, `deathTask
      ensures finished == old(finished) + 1 && !deathTask
    {
      finished := finished + 1;
      deathTask := false;
    }

    /** The first loop of shutdown_task: close every listen socket of every service. */
    method StopListening()
      modifies `services
      ensures services == WithoutListening(old(services))
    {
      var i := 0;
      while i < |services|
        invariant i <= |services| == |old(services)|
        invariant forall k | 0 <= k < |services| ::
                    services[k] == if k < i then old(services)[k].(accepts := []) else old(services)[k]
      {
        while services[i].accepts != []
          invariant |services| == |old(services)|
          invariant forall k | 0 <= k < |services| && k != i ::
                      services[k] == if k < i then old(services)[k].(accepts := []) else old(services)[k]
          invariant services[i] == old(services)[i].(accepts := services[i].accepts)
          decreases |services[i].accepts|
        {
          services := services[i := services[i].(accepts := services[i].accepts[1..])];
        }
        i := i + 1;
      }
    }

    /** The second loop of shutdown_task: drop the services that have no process. */
    method DropStopped()
      requires inShutdown && forall k | 0 <= k < |services| :: |services[k].accepts| == 0
      modifies `services, `aborted
      ensures services == Running(old(services)) && aborted == old(aborted)
    {
      ghost var was, kept, k := services, [], 0;
      var i := 0;
      while i < |services|
        invariant k <= |was| && i == |kept| && kept == Running(was[..k])
        invariant services == kept + was[k..]
        invariant aborted == old(aborted)
        decreases |was| - k
      {
        PassStep(kept, was, k, services);
        RunningStep(was, k);
        assert |was[k].accepts| == 0;
        if services[i].proc {
          i := i + 1;
          kept := kept + [was[k]];
        } else {
          FreeService(i);
        }
        k := k + 1;
      }
      assert was[..k] == was;
    }

    /** Both loops of shutdown_task. */
    method LeaveRunning()
      requires inShutdown
      modifies `services, `aborted
      ensures services == Running(WithoutListening(old(services)))
      ensures View() == old(View()).(services := services)
    {
      StopListening();
      DropStopped();
    }

    /** The end of both handlers: all is done when no service is left. */
    method ShutdownIfEmpty()
      modifies `finished, `deathTask
      ensures View() == if |old(services)| == 0 then Finish(old(View())) else old(View())
    {
      if |services| == 0 {
        DoShutdown();
      }
    }

    method BeginShutdown()
      modifies `restartTask, `inShutdown, `shutdownTask
      ensures inShutdown && View() == old(View()).(restartTask := None, inShutdown := true, shutdownTask := false)
    {
      restartTask := None;
      inShutdown := true;
      shutdownTask := false;
    }

    /** shutdown_task */
    method ShutdownTask()
      modifies this
      ensures View() == Arm.ShutdownTask(old(View()))
    {
      BeginShutdown();
      LeaveRunning();
      ShutdownIfEmpty();
    }

    /** The loop of delayed_restart_task over one service's listen sockets. */
    method RearmAccepts(i: nat)
      requires i < |services|
      modifies `services
      ensures services == old(services)[i := Rearmed(old(services)[i])]
    {
      var accepts := services[i].accepts;
      var j := 0;
      while j < |accepts|
        invariant j <= |accepts| == |services[i].accepts|
        invariant forall k | 0 <= k < j :: accepts[k]
      {
        if !accepts[j] {
          accepts := accepts[j := true];
        }
        j := j + 1;
      }
      assert accepts == AllFlags(|services[i].accepts|, true);
      services := services[i := services[i].(accepts := accepts, owed := false)];
    }

    /** One round of delayed_restart_task for a service that may restart now. */
    method Restart(i: nat, ok: bool)
      requires i < |services| && !services[i].proc && Due(services[i], now)
      modifies `services, `aborted
      ensures services == old(services)[i := AfterTimer(old(services)[i], now, ok)]
      ensures aborted == old(aborted)
    {
      if services[i].forceStart {
        StartProcess(i, ok);
        services := services[i := services[i].(owed := false)];
      } else {
        RearmAccepts(i);
      }
    }

    /** One round of delayed_restart_task. */
    method RestartOne(ghost was: seq<Service>, i: nat, oks: seq<bool>, lowest: Time) returns (lower: Time)
      requires i < |was| == |oks| && TimedTo(was, oks, now, i, services)
      modifies `services, `aborted
      ensures TimedTo(was, oks, now, i + 1, services)
      ensures lower == Earlier(lowest, was[i], now) && aborted == old(aborted)
    {
      lower := lowest;
      if !services[i].proc {
        if Due(services[i], now) {
          Restart(i, oks[i]);
        } else if services[i].restartAt < lowest {
          lower := services[i].restartAt;
        }
      }
    }

    /** The loop of delayed_restart_task. */
    method RestartServices(oks: seq<bool>) returns (lowest: Time)
      requires |oks| == |services|
      modifies `services, `aborted
      ensures services == AfterTimers(old(services), now, oks)
      ensures lowest == EarliestRestart(old(services), now)
      ensures aborted == old(aborted)
    {
      ghost var was := services;
      ghost var table := EarliestSoFar(services, now);
      lowest := FOREVER;
      var i := 0;
      while i < |services|
        invariant i <= |services| && TimedTo(was, oks, now, i, services)
        invariant lowest == table[i]
        invariant aborted == old(aborted)
      {
        assert EarlierAt(was, now, table, i);
        lowest := RestartOne(was, i, oks, lowest);
        i := i + 1;
      }
      TimedAll(was, oks, now, services);
    }

    /** delayed_restart_task */
    method DelayedRestartTask(oks: seq<bool>)
      requires |oks| == |services|
      modifies this
      ensures View() == DelayedRestart(old(View()), oks)
    {
      aborted := aborted || inShutdown;
      var lowest := RestartServices(oks);
      restartTask := if lowest == FOREVER then None else Some(lowest);
    }

    /** Arming the accept tasks of a service that exited cleanly. */
    method ArmAccepts(i: nat)
      requires i < |services|
      modifies `services, `aborted
      ensures services == old(services)[i := Rearmed(old(services)[i])]
      ensures aborted == if Armed(old(services)[i]) then true else old(aborted)
    {
      ghost var was := services[i].accepts;
      var accepts := services[i].accepts;
      var j := 0;
      while j < |accepts|
        invariant j <= |accepts| == |was|
        invariant forall k | 0 <= k < |was| :: if k < j then accepts[k] else accepts[k] == was[k]
        invariant aborted == if exists k :: 0 <= k < j && was[k] then true else old(aborted)
        invariant services == old(services)
      {
        if accepts[j] {
          aborted := true;
        }
        accepts := accepts[j := true];
        j := j + 1;
      }
      assert accepts == AllFlags(|services[i].accepts|, true);
      services := services[i := services[i].(accepts := accepts, owed := false)];
    }

    /** The part of maint_child_death that answers the client that asked for the death. */
    method Reap(i: nat, fate: Fate)
      requires i < |services| && services[i].proc && !fate.Alive?
      modifies `services, `log
      ensures services == old(services)[i := old(services)[i].(proc := false, killer := None)]
      ensures log == old(log) + StoppedAnswer(old(services)[i], fate)
    {
      services := services[i := services[i].(proc := false)];
      if services[i].killer.Some? {
        SignalResult(services[i].killer.value, Stopped);
        services := services[i := services[i].(killer := None)];
      }
    }

    /** The part of maint_child_death that decides about the restart. */
    method ScheduleRestart(i: nat, fate: Fate)
      requires i < |services| && !services[i].proc && services[i].killer.None? && !fate.Alive?
      modifies `services, `restartTask, `aborted
      ensures var sv := old(services)[i].(proc := true);
              && services == old(services)[i := AfterFate(sv, fate, now)]
              && restartTask == (if fate.Crashed? then Some(now) else old(restartTask))
              && aborted == (if fate.Clean? && Armed(old(services)[i]) then true else old(aborted))
    {
      if fate.Clean? {
        services := services[i := services[i].(restartAt := 0)];
        ArmAccepts(i);
      } else {
        var sv := services[i];
        services := services[i := sv.(restartAt := now + sv.backoff, backoff := NextBackoff(sv.backoff),
                                      owed := true, crashes := sv.crashes + 1)];
        restartTask := Some(now);
      }
    }

    /** One round of maint_child_death; next is the position of the service that follows. */
    method MaintainOne(i: nat, fate: Fate) returns (next: nat)
      requires i < |services|
      modifies `services, `log, `restartTask, `aborted
      ensures var sv := old(services)[i];
              && services == old(services)[..i] + LeftOf(sv, fate, now, inShutdown) + old(services)[i + 1..]
              && next == i + |LeftOf(sv, fate, now, inShutdown)|
              && log == old(log) + StoppedAnswer(sv, fate)
              && restartTask == (if Crashes(sv, fate, inShutdown) then Some(now) else old(restartTask))
              && aborted == (if Raises(sv, fate, inShutdown) then true else old(aborted))
    {
      next := i + 1;
      if !services[i].proc {
        if inShutdown {
          FreeService(i);
          next := i;
        }
      } else if !fate.Alive? {
        Reap(i, fate);
        if !inShutdown {
          ScheduleRestart(i, fate);
        } else {
          FreeService(i);
          next := i;
        }
      }
    }

    /** The state after a part of the loop, when `rest` is still to come and `was` was the state before it. */
    ghost predicate Standing(was: State, p: Progress, rest: seq<Service>)
      reads this
    {
      && services == p.left + rest && log == was.log + p.sent
      && restartTask == (if p.crash then Some(was.now) else was.restartTask)
      && aborted == (if p.raised then true else was.aborted)
      && now == was.now && inShutdown == was.inShutdown
    }

    method MaintainNext(ghost was: State, ghost p: Progress, ghost rest: seq<Service>, i: nat, fate: Fate)
      returns (next: nat)
      requires rest != [] && Standing(was, p, rest) && i == |p.left|
      modifies `services, `log, `restartTask, `aborted
      ensures var q := Advance(p, rest[0], fate, was.now, was.inShutdown);
              Standing(was, q, rest[1..]) && next == |q.left|
    {
      LeftStep(p.left, rest, services, LeftOf(rest[0], fate, now, inShutdown));
      Grow(was.log, p.sent, StoppedAnswer(rest[0], fate));
      next := MaintainOne(i, fate);
    }

    /** The loop of maint_child_death. */
    method MaintainAll(fates: seq<Fate>)
      requires |fates| == |services|
      modifies `services, `log, `restartTask, `aborted
      ensures Standing(old(View()), Whole(old(services), fates, now, inShutdown), [])
    {
      ghost var was, s := services, View();
      ghost var table := ProgressSoFar(services, fates, now, inShutdown);
      var i, k := 0, 0;
      while i < |services|
        invariant k <= |was| && i == |table[k].left|
        invariant Standing(s, table[k], was[k..])
        decreases |was| - k
      {
        assert AdvanceAt(was, fates, s.now, s.inShutdown, table, k);
        assert was[k..][0] == was[k] && was[k..][1..] == was[k + 1..];
        i := MaintainNext(s, table[k], was[k..], i, fates[k]);
        k := k + 1;
      }
    }

    /** maint_child_death, up to setting its task again. */
    method MaintainPhase(fates: seq<Fate>)
      requires |fates| == |services|
      modifies `services, `log, `restartTask, `aborted, `deathTask
      ensures View() == var p := Whole(old(services), fates, now, inShutdown);
                        old(View()).(services := p.left, log := old(log) + p.sent,
                                     restartTask := if p.crash then Some(now) else old(restartTask),
                                     aborted := if p.raised then true else old(aborted),
                                     deathTask := true)
    {
      deathTask := false;
      MaintainAll(fates);
      deathTask := true;
    }

    /** maint_child_death */
    method MaintChildDeath(fates: seq<Fate>)
      requires |fates| == |services| && deathTask
      modifies this
      ensures View() == Arm.MaintChildDeath(old(View()), fates)
    {
      MaintainPhase(fates);
      if inShutdown {
        ShutdownIfEmpty();
      }
    }
  }
}
