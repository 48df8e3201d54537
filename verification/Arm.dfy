/**
  The process supervisor of src/arm/gnunet-service-arm.c as an event-driven state machine.

  Starting a process either succeeds or fails, and a child found dead exited cleanly or not;
  both are inputs.  Everything else, including the clock, is state.
 */
module Arm {
  import opened Common

  /** Microseconds. */
  type Time = nat

  const FOREVER: Time := 0xFFFF_FFFF_FFFF_FFFF
  const BACKOFF_LIMIT: Time := 900_000_000
  const CLOCK_LIMIT: Time := 0x7FFF_FFFF_FFFF_FFFF

  type Client = nat

  datatype Request = Request(client: Client, id: nat)

  datatype Result =
    | Stopped
    | Stopping
    | Starting
    | IsStoppingAlready
    | IsStartedAlready
    | IsStoppedAlready
    | IsNotKnown
    | StartFailed
    | InShutdown

  datatype Answer = Answer(request: Request, result: Result)

  /**
    `accepts` has one flag per listen socket: whether its accept task is armed.  `killer` is the
    client, and its request, to tell when the process is gone.  `owed` is a history flag: the
    process crashed and its restart has not been carried out.  `crashes` counts those deaths.
   */
  datatype Service = Service(
    name: string, binary: string, proc: bool, accepts: seq<bool>, killer: Option<Request>,
    restartAt: Time, backoff: Time, forceStart: bool, owed: bool, crashes: nat)

  /** What waiting for a child finds. */
  datatype Fate = Alive | Clean | Crashed

  /**
    `aborted`: a GNUNET_assert or GNUNET_break failed.  `finished`: how often do_shutdown ran.
    `asked`, `log` and `dropped` record the requests, the results sent, and the requests whose
    client left before the result.
   */
  datatype State = State(
    services: seq<Service>, clients: set<Client>, restartTask: Option<Time>, deathTask: bool, shutdownTask: bool,
    inShutdown: bool, now: Time, aborted: bool, finished: nat,
    asked: multiset<Request>, log: seq<Answer>, dropped: multiset<Request>)

  // ----- One service -----

  function AllFlags(n: nat, b: bool): (fs: seq<bool>)
    ensures |fs| == n && forall i | 0 <= i < n :: fs[i] == b
  {
    seq(n, _ => b)
  }

  predicate Armed(sv: Service) {
    exists j :: 0 <= j < |sv.accepts| && sv.accepts[j]
  }

  /** GNUNET_TIME_STD_BACKOFF */
  function NextBackoff(b: Time): Time {
    Min(BACKOFF_LIMIT, 2 * (if b < 1000 then 1000 else b))
  }

  /** start_process: stop listening, then try. */
  function Started(sv: Service, ok: bool): Service {
    sv.(accepts := AllFlags(|sv.accepts|, false), proc := ok, owed := sv.owed && !ok)
  }

  function Rearmed(sv: Service): Service {
    sv.(accepts := AllFlags(|sv.accepts|, true), owed := false)
  }

  /** The part of maint_child_death for one service, outside shutdown. */
  function AfterFate(sv: Service, fate: Fate, now: Time): Service {
    if !sv.proc || fate.Alive? then sv
    else if fate.Clean? then Rearmed(sv.(proc := false, killer := None, restartAt := 0))
    else sv.(proc := false, killer := None, restartAt := now + sv.backoff, backoff := NextBackoff(sv.backoff),
             owed := true, crashes := sv.crashes + 1)
  }

  /** The restart time has come. */
  predicate Due(sv: Service, now: Time) {
    sv.restartAt != FOREVER && sv.restartAt <= now
  }

  /** The part of delayed_restart_task for one service. */
  function AfterTimer(sv: Service, now: Time, ok: bool): Service {
    if sv.proc || !Due(sv, now) then sv
    else if sv.forceStart then Started(sv, ok).(owed := false)
    else Rearmed(sv)
  }

  // ----- All services -----

  function KillerOf(sv: Service): multiset<Request> {
    match sv.killer case None => multiset{} case Some(r) => multiset{r}
  }

  /** The STOP requests that wait for a process to die. */
  function Killers(services: seq<Service>): multiset<Request> {
    if services == [] then multiset{}
    else Killers(services[..|services| - 1]) + KillerOf(services[|services| - 1])
  }

  /** The waiting requests of one client. */
  function KillersFrom(services: seq<Service>, c: Client): multiset<Request> {
    if services == [] then multiset{}
    else
      var sv := services[|services| - 1];
      KillersFrom(services[..|services| - 1], c)
      + (if sv.killer.Some? && sv.killer.value.client == c then multiset{sv.killer.value} else multiset{})
  }

  function Answered(log: seq<Answer>): multiset<Request> {
    if log == [] then multiset{}
    else Answered(log[..|log| - 1]) + multiset{log[|log| - 1].request}
  }

  /** The result that the death of one service sends. */
  function StoppedAnswer(sv: Service, fate: Fate): seq<Answer> {
    if sv.proc && !fate.Alive? && sv.killer.Some? then [Answer(sv.killer.value, Stopped)] else []
  }

  function StoppedAnswers(services: seq<Service>, fates: seq<Fate>): seq<Answer>
    requires |fates| == |services|
  {
    if services == [] then []
    else
      var n := |services| - 1;
      StoppedAnswers(services[..n], fates[..n]) + StoppedAnswer(services[n], fates[n])
  }

  function AfterFates(services: seq<Service>, fates: seq<Fate>, now: Time): (r: seq<Service>)
    requires |fates| == |services|
    ensures |r| == |services|
  {
    seq(|services|, i requires 0 <= i < |services| => AfterFate(services[i], fates[i], now))
  }

  /** During shutdown only processes that are still alive stay. */
  function Survivors(services: seq<Service>, fates: seq<Fate>): (r: seq<Service>)
    requires |fates| == |services|
    ensures |r| <= |services|
  {
    if services == [] then []
    else
      var n := |services| - 1;
      Survivors(services[..n], fates[..n]) + (if services[n].proc && fates[n].Alive? then [services[n]] else [])
  }

  predicate SomeCrash(services: seq<Service>, fates: seq<Fate>)
    requires |fates| == |services|
  {
    exists i :: 0 <= i < |services| && services[i].proc && fates[i].Crashed?
  }

  function AfterTimers(services: seq<Service>, now: Time, oks: seq<bool>): (r: seq<Service>)
    requires |oks| == |services|
    ensures |r| == |services|
  {
    seq(|services|, i requires 0 <= i < |services| => AfterTimer(services[i], now, oks[i]))
  }

  /** The earliest time at which a stopped service may restart, among those that must still wait. */
  function EarliestRestart(services: seq<Service>, now: Time): (t: Time) {
    if services == [] then FOREVER
    else
      var n := |services| - 1;
      var sv, t := services[n], EarliestRestart(services[..n], now);
      if !sv.proc && !Due(sv, now) && sv.restartAt < t then sv.restartAt else t
  }

  function WithoutListening(services: seq<Service>): (r: seq<Service>)
    ensures |r| == |services|
  {
    seq(|services|, i requires 0 <= i < |services| => services[i].(accepts := []))
  }

  function Running(services: seq<Service>): (r: seq<Service>)
    ensures |r| <= |services|
  {
    if services == [] then []
    else
      var n := |services| - 1;
      Running(services[..n]) + (if services[n].proc then [services[n]] else [])
  }

  function Forget(sv: Service, c: Client): Service {
    if sv.killer.Some? && sv.killer.value.client == c then sv.(killer := None) else sv
  }

  function ForgetAll(services: seq<Service>, c: Client): (r: seq<Service>)
    ensures |r| == |services|
  {
    seq(|services|, i requires 0 <= i < |services| => Forget(services[i], c))
  }

  function Lower(c: char): char {
    if 'A' <= c <= 'Z' then c - 'A' + 'a' else c
  }

  /** strcasecmp (a, b) == 0 */
  predicate SameName(a: string, b: string) {
    |a| == |b| && forall i | 0 <= i < |a| :: Lower(a[i]) == Lower(b[i])
  }

  /** find_service: the first service of that name, or the number of services. */
  function Find(services: seq<Service>, name: string): (i: nat)
    ensures i <= |services|
    ensures forall k | 0 <= k < i :: !SameName(services[k].name, name)
    ensures i < |services| ==> SameName(services[i].name, name)
  {
    if services == [] || SameName(services[0].name, name) then 0 else 1 + Find(services[1..], name)
  }

  // ----- Events -----

  datatype Event =
    | Accept(index: nat, socket: nat, ok: bool)
    | StartRequest(request: Request, name: string, ok: bool)
    | StopRequest(request: Request, name: string)
    | ChildDeath(fates: seq<Fate>)
    | RestartTimer(oks: seq<bool>)
    | Shutdown
    | Joins(client: Client)
    | Leaves(client: Client)
    | Tick(later: Time)

  /** Tasks run when armed, requests come from connected clients, and the clock moves forward. */
  predicate Enabled(s: State, e: Event) {
    match e
    case Accept(i, j, _) => i < |s.services| && j < |s.services[i].accepts| && s.services[i].accepts[j]
    case StartRequest(r, _, _) => r.client in s.clients
    case StopRequest(r, _) => r.client in s.clients
    case ChildDeath(fates) => s.deathTask && |fates| == |s.services|
    case RestartTimer(oks) => s.restartTask.Some? && s.restartTask.value <= s.now && |oks| == |s.services|
    case Shutdown => s.shutdownTask
    case Joins(c) => c !in s.clients
    case Leaves(c) => c in s.clients
    case Tick(t) => s.now <= t <= CLOCK_LIMIT
  }

  function Put(s: State, i: nat, sv: Service): State
    requires i < |s.services|
  {
    s.(services := s.services[i := sv])
  }

  function Reply(s: State, r: Request, result: Result): State {
    s.(log := s.log + [Answer(r, result)])
  }

  /** start_process asserts that there is no process yet. */
  function StartProcess(s: State, i: nat, ok: bool): State
    requires i < |s.services|
  {
    Put(s, i, Started(s.services[i], ok)).(aborted := s.aborted || s.services[i].proc)
  }

  /** accept_connection */
  function AcceptConnection(s: State, i: nat, j: nat, ok: bool): State
    requires i < |s.services| && j < |s.services[i].accepts|
  {
    var sv := s.services[i];
    StartProcess(Put(s, i, sv.(accepts := sv.accepts[j := false])), i, ok)
      .(aborted := s.aborted || s.inShutdown || sv.proc)
  }

  /** handle_start */
  function HandleStart(s: State, r: Request, name: string, ok: bool): State {
    var i := Find(s.services, name);
    if s.inShutdown then Reply(s, r, InShutdown)
    else if i == |s.services| then Reply(s, r, IsNotKnown)
    else
      var t := Put(s, i, s.services[i].(forceStart := true));
      if s.services[i].proc then Reply(t, r, IsStartedAlready)
      else Reply(StartProcess(t, i, ok), r, if ok then Starting else StartFailed)
  }

  /** handle_stop: the result of an accepted request waits for the process to die. */
  function HandleStop(s: State, r: Request, name: string): State {
    var i := Find(s.services, name);
    if SameName(name, "arm") then Reply(s, r, Stopping)
    else if i == |s.services| then Reply(s, r, IsNotKnown)
    else
      var sv := s.services[i].(forceStart := false);
      var t := Put(s, i, sv);
      if s.inShutdown then Reply(t, r, InShutdown)
      else if sv.killer.Some? then Reply(t, r, IsStoppingAlready)
      else if !sv.proc then Reply(t, r, IsStoppedAlready)
      else Put(s, i, sv.(killer := Some(r)))
  }

  function Finish(s: State): State {
    s.(finished := s.finished + 1, deathTask := false)
  }

  /** shutdown_task; its free_service asserts that listening is over. */
  function ShutdownTask(s: State): State {
    var left := Running(WithoutListening(s.services));
    var t := s.(services := left, restartTask := None, inShutdown := true, shutdownTask := false);
    if |left| == 0 then Finish(t) else t
  }

  /** free_service, called during shutdown, asserts that no listen socket is left. */
  predicate FreesListening(services: seq<Service>, fates: seq<Fate>)
    requires |fates| == |services|
  {
    exists i :: 0 <= i < |services| && !(services[i].proc && fates[i].Alive?) && services[i].accepts != []
  }

  /** Re-arming an accept task that is already armed trips a GNUNET_break. */
  predicate RearmsArmed(services: seq<Service>, fates: seq<Fate>)
    requires |fates| == |services|
  {
    exists i :: 0 <= i < |services| && services[i].proc && fates[i].Clean? && Armed(services[i])
  }

  /** maint_child_death */
  function MaintChildDeath(s: State, fates: seq<Fate>): State
    requires |fates| == |s.services|
  {
    var t := s.(log := s.log + StoppedAnswers(s.services, fates));
    if s.inShutdown then
      var left := Survivors(s.services, fates);
      var u := t.(services := left, aborted := s.aborted || FreesListening(s.services, fates));
      if |left| == 0 then Finish(u) else u
    else
      t.(services := AfterFates(s.services, fates, s.now),
         restartTask := if SomeCrash(s.services, fates) then Some(s.now) else s.restartTask,
         aborted := s.aborted || RearmsArmed(s.services, fates))
  }

  /** delayed_restart_task */
  function DelayedRestart(s: State, oks: seq<bool>): State
    requires |oks| == |s.services|
  {
    var t := EarliestRestart(s.services, s.now);
    s.(services := AfterTimers(s.services, s.now, oks),
       restartTask := if t == FOREVER then None else Some(t),
       aborted := s.aborted || s.inShutdown)
  }

  /** client_disconnect_cb */
  function Disconnect(s: State, c: Client): State {
    s.(services := ForgetAll(s.services, c), clients := s.clients - {c},
       dropped := s.dropped + KillersFrom(s.services, c))
  }

  function Next(s: State, e: Event): State
    requires Enabled(s, e)
  {
    match e
    case Accept(i, j, ok) => AcceptConnection(s, i, j, ok)
    case StartRequest(r, name, ok) => HandleStart(s.(asked := s.asked + multiset{r}), r, name, ok)
    case StopRequest(r, name) => HandleStop(s.(asked := s.asked + multiset{r}), r, name)
    case ChildDeath(fates) => MaintChildDeath(s, fates)
    case RestartTimer(oks) => DelayedRestart(s, oks)
    case Shutdown => ShutdownTask(s)
    case Joins(c) => s.(clients := s.clients + {c})
    case Leaves(c) => Disconnect(s, c)
    case Tick(t) => s.(now := t)
  }

  // ----- Start -----

  /** What setup_service makes of a configured service: listening, not started. */
  predicate Configured(sv: Service) {
    && !sv.proc && sv.killer.None? && !sv.owed && sv.crashes == 0
    && sv.restartAt == FOREVER && sv.backoff == 1000
    && forall j | 0 <= j < |sv.accepts| :: sv.accepts[j]
  }

  /** The last loop of run starts the services that are not on demand. */
  function Booted(services: seq<Service>, oks: seq<bool>): (r: seq<Service>)
    requires |oks| == |services|
    ensures |r| == |services|
  {
    seq(|services|, i requires 0 <= i < |services| =>
      if services[i].forceStart then Started(services[i], oks[i]) else services[i])
  }

  ghost predicate Initial(s: State) {
    && (exists services: seq<Service>, oks: seq<bool> ::
          && |oks| == |services|
          && (forall i | 0 <= i < |services| :: Configured(services[i]))
          && s.services == Booted(services, oks))
    && s.clients == {} && s.restartTask.None? && s.deathTask && s.shutdownTask
    && !s.inShutdown && s.now <= CLOCK_LIMIT && !s.aborted && s.finished == 0
    && s.asked == multiset{} && s.log == [] && s.dropped == multiset{}
  }

  ghost predicate Runs(s: State, es: seq<Event>, t: State)
    decreases |es|
  {
    if es == [] then s == t
    else Enabled(s, es[0]) && Runs(Next(s, es[0]), es[1..], t)
  }

  ghost predicate Reachable(t: State) {
    exists s: State, es: seq<Event> :: Initial(s) && Runs(s, es, t)
  }

  // ----- The invariant -----

  /**
    A running service does not listen and is owed no restart; an armed accept task belongs to a
    service that is not waiting out its backoff; a STOP waits only on a running process and for
    a connected client; a stopped service whose restart lies ahead is owed it.
   */
  ghost predicate ServiceOk(sv: Service, now: Time, clients: set<Client>) {
    && (sv.proc ==> !Armed(sv) && !sv.owed)
    && (Armed(sv) ==> !sv.owed && (sv.restartAt == FOREVER || sv.restartAt <= now))
    && (sv.killer.Some? ==> sv.proc && sv.killer.value.client in clients)
    && (!sv.proc && now < sv.restartAt < FOREVER ==> sv.owed)
    && (sv.owed ==> sv.restartAt < FOREVER)
    && sv.backoff == Min(BACKOFF_LIMIT, 1000 * Pow2(sv.crashes))
  }

  ghost predicate ServicesOk(s: State) {
    forall i | 0 <= i < |s.services| :: ServiceOk(s.services[i], s.now, s.clients)
  }

  /** A restart that is owed has a timer that is due already or no later than the restart. */
  ghost predicate Covered(sv: Service, restartTask: Option<Time>, now: Time) {
    sv.owed ==> restartTask.Some? && (restartTask.value <= sv.restartAt || restartTask.value <= now)
  }

  ghost predicate Covers(s: State) {
    forall i | 0 <= i < |s.services| :: Covered(s.services[i], s.restartTask, s.now)
  }

  /** In shutdown nothing listens, nothing is timed and only running processes are left. */
  ghost predicate WindingDown(s: State) {
    && s.restartTask.None?
    && forall i | 0 <= i < |s.services| :: s.services[i].proc && s.services[i].accepts == []
  }

  ghost predicate Phase(s: State) {
    && !s.aborted && s.now <= CLOCK_LIMIT
    && s.shutdownTask == !s.inShutdown
    && s.finished == (if s.inShutdown && s.services == [] then 1 else 0)
    && s.deathTask == (s.finished == 0)
  }

  /** Every request was answered, waits for a process to die, lost its client, or is in hand. */
  ghost predicate Balanced(s: State, inHand: multiset<Request>) {
    s.asked == Answered(s.log) + Killers(s.services) + s.dropped + inHand
  }

  ghost predicate Sound(s: State) {
    ServicesOk(s) && (if s.inShutdown then WindingDown(s) else Covers(s)) && Phase(s)
  }

  ghost predicate Inv(s: State) {
    Sound(s) && Balanced(s, multiset{})
  }

  // ----- The books -----

  lemma AddBalances(k: multiset<Request>, l: multiset<Request>, a: multiset<Request>, b: multiset<Request>,
                    x: multiset<Request>, y: multiset<Request>)
    requires k == a + x && l == b + y
    ensures k + l == (a + b) + (x + y)
  {
  }

  lemma KillersPush(services: seq<Service>, sv: Service)
    ensures Killers(services + [sv]) == Killers(services) + KillerOf(sv)
  {
    assert (services + [sv])[..|services|] == services;
  }

  lemma {:induction false} KillersAppend(a: seq<Service>, b: seq<Service>)
    ensures Killers(a + b) == Killers(a) + Killers(b)
  {
    if b == [] {
      assert a + b == a;
    } else {
      var front, last := b[..|b| - 1], b[|b| - 1];
      assert b == front + [last] && a + b == a + front + [last];
      calc {
        Killers(a + b);
      ==
        Killers(a + front + [last]);
      == { KillersPush(a + front, last); }
        Killers(a + front) + KillerOf(last);
      == { KillersAppend(a, front); }
        Killers(a) + Killers(front) + KillerOf(last);
      ==
        Killers(a) + (Killers(front) + KillerOf(last));
      == { KillersPush(front, last); }
        Killers(a) + Killers(b);
      }
    }
  }

  lemma KillersAround(a: seq<Service>, sv: Service, b: seq<Service>)
    ensures Killers(a + [sv] + b) == Killers(a) + KillerOf(sv) + Killers(b)
  {
    KillersAppend(a + [sv], b);
    KillersPush(a, sv);
  }

  lemma Swap(a: multiset<Request>, x: multiset<Request>, y: multiset<Request>, b: multiset<Request>)
    ensures (a + x + b) + y == (a + y + b) + x
  {
  }

  lemma KillersPut(services: seq<Service>, i: nat, sv: Service)
    requires i < |services|
    ensures Killers(services[i := sv]) + KillerOf(services[i]) == Killers(services) + KillerOf(sv)
  {
    var a, was, b := services[..i], services[i], services[i + 1..];
    assert services == a + [was] + b;
    assert services[i := sv] == a + [sv] + b;
    KillersAround(a, was, b);
    KillersAround(a, sv, b);
    Swap(Killers(a), KillerOf(sv), KillerOf(was), Killers(b));
  }

  lemma {:induction false} AnsweredAppend(a: seq<Answer>, b: seq<Answer>)
    ensures Answered(a + b) == Answered(a) + Answered(b)
  {
    if b == [] {
      assert a + b == a;
    } else {
      var front, last := b[..|b| - 1], b[|b| - 1];
      assert (a + b)[..|a + b| - 1] == a + front;
      calc {
        Answered(a + b);
      ==
        Answered(a + front) + multiset{last.request};
      == { AnsweredAppend(a, front); }
        Answered(a) + Answered(front) + multiset{last.request};
      ==
        Answered(a) + (Answered(front) + multiset{last.request});
      ==
        Answered(a) + Answered(b);
      }
    }
  }

  lemma AnsweredOne(a: Answer)
    ensures Answered([a]) == multiset{a.request}
  {
    assert [a][..0] == [];
  }

  /** What a death takes from the waiting requests it answers. */
  lemma FateBalance(sv: Service, fate: Fate, now: Time)
    ensures KillerOf(sv) == KillerOf(AfterFate(sv, fate, now)) + Answered(StoppedAnswer(sv, fate))
  {
    if sv.proc && !fate.Alive? && sv.killer.Some? {
      AnsweredOne(Answer(sv.killer.value, Stopped));
    }
  }

  lemma FatesStep(services: seq<Service>, fates: seq<Fate>, now: Time, n: nat)
    requires |fates| == |services| == n + 1
    ensures Killers(AfterFates(services, fates, now))
         == Killers(AfterFates(services[..n], fates[..n], now)) + KillerOf(AfterFate(services[n], fates[n], now))
  {
    var after := AfterFates(services[..n], fates[..n], now);
    assert AfterFates(services, fates, now) == after + [AfterFate(services[n], fates[n], now)];
    KillersPush(after, AfterFate(services[n], fates[n], now));
  }

  lemma AnswersStep(services: seq<Service>, fates: seq<Fate>, n: nat)
    requires |fates| == |services| == n + 1
    ensures Answered(StoppedAnswers(services, fates))
         == Answered(StoppedAnswers(services[..n], fates[..n])) + Answered(StoppedAnswer(services[n], fates[n]))
  {
    AnsweredAppend(StoppedAnswers(services[..n], fates[..n]), StoppedAnswer(services[n], fates[n]));
  }

  lemma {:induction false} FatesBalance(services: seq<Service>, fates: seq<Fate>, now: Time)
    requires |fates| == |services|
    ensures Killers(services) == Killers(AfterFates(services, fates, now)) + Answered(StoppedAnswers(services, fates))
  {
    if services != [] {
      var n := |services| - 1;
      FatesBalance(services[..n], fates[..n], now);
      FateBalance(services[n], fates[n], now);
      FatesStep(services, fates, now, n);
      AnswersStep(services, fates, n);
      AddBalances(Killers(services[..n]), KillerOf(services[n]),
                  Killers(AfterFates(services[..n], fates[..n], now)), KillerOf(AfterFate(services[n], fates[n], now)),
                  Answered(StoppedAnswers(services[..n], fates[..n])), Answered(StoppedAnswer(services[n], fates[n])));
    }
  }

  lemma SurvivorBalance(left: seq<Service>, sv: Service, fate: Fate)
    requires sv.proc
    ensures Killers(left) + KillerOf(sv)
         == Killers(left + (if sv.proc && fate.Alive? then [sv] else [])) + Answered(StoppedAnswer(sv, fate))
  {
    KillersPush(left, sv);
    assert left + [] == left;
    if !fate.Alive? && sv.killer.Some? {
      AnsweredOne(Answer(sv.killer.value, Stopped));
    }
  }

  lemma Exchange(k: multiset<Request>, l: multiset<Request>, a: multiset<Request>, b: multiset<Request>,
                 x: multiset<Request>, y: multiset<Request>)
    requires k == a + x && a + l == b + y
    ensures k + l == b + (x + y)
  {
    assert k + l == (a + l) + x;
  }

  lemma {:induction false} SurvivorsBalance(services: seq<Service>, fates: seq<Fate>)
    requires |fates| == |services|
    requires forall i | 0 <= i < |services| :: services[i].proc
    ensures Killers(services) == Killers(Survivors(services, fates)) + Answered(StoppedAnswers(services, fates))
  {
    if services != [] {
      var n := |services| - 1;
      SurvivorsBalance(services[..n], fates[..n]);
      AnswersStep(services, fates, n);
      var left := Survivors(services[..n], fates[..n]);
      SurvivorBalance(left, services[n], fates[n]);
      Exchange(Killers(services[..n]), KillerOf(services[n]), Killers(left), Killers(Survivors(services, fates)),
               Answered(StoppedAnswers(services[..n], fates[..n])), Answered(StoppedAnswer(services[n], fates[n])));
    }
  }

  lemma {:induction false} RunningBalance(services: seq<Service>)
    requires forall i | 0 <= i < |services| :: services[i].killer.Some? ==> services[i].proc
    ensures Killers(Running(WithoutListening(services))) == Killers(services)
  {
    if services != [] {
      var n := |services| - 1;
      RunningBalance(services[..n]);
      assert WithoutListening(services)[..n] == WithoutListening(services[..n]);
      var left, sv := Running(WithoutListening(services[..n])), WithoutListening(services)[n];
      KillersPush(left, sv);
      assert left + [] == left;
    }
  }

  lemma ForgetOne(sv: Service, c: Client)
    ensures KillerOf(sv)
         == KillerOf(Forget(sv, c))
            + (if sv.killer.Some? && sv.killer.value.client == c then multiset{sv.killer.value} else multiset{})
  {
  }

  lemma {:induction false} ForgetBalance(services: seq<Service>, c: Client)
    ensures Killers(services) == Killers(ForgetAll(services, c)) + KillersFrom(services, c)
  {
    if services != [] {
      var n := |services| - 1;
      ForgetBalance(services[..n], c);
      assert ForgetAll(services, c)[..n] == ForgetAll(services[..n], c);
      ForgetOne(services[n], c);
    }
  }

  // ----- Requests -----

  lemma Cancel(k: multiset<Request>, l: multiset<Request>, m: multiset<Request>)
    requires k + m == l + m
    ensures k == l
  {
    assert k == (k + m) - m && l == (l + m) - m;
  }

  /** Requests that stop waiting go to the log or are dropped. */
  lemma Transfer(asked: multiset<Request>, log: multiset<Request>, waiting: multiset<Request>,
                 dropped: multiset<Request>, left: multiset<Request>, moved: multiset<Request>)
    requires asked == log + waiting + dropped + multiset{} && waiting == left + moved
    ensures asked == (log + moved) + left + dropped + multiset{}
    ensures asked == log + left + (dropped + moved) + multiset{}
  {
  }

  lemma PutSound(s: State, i: nat, sv: Service)
    requires Sound(s) && i < |s.services| && ServiceOk(sv, s.now, s.clients)
    requires if s.inShutdown then sv.proc && sv.accepts == [] else Covered(sv, s.restartTask, s.now)
    ensures Sound(Put(s, i, sv))
  {
  }

  lemma PutKeeps(s: State, i: nat, sv: Service, inHand: multiset<Request>)
    requires Sound(s) && Balanced(s, inHand) && i < |s.services|
    requires ServiceOk(sv, s.now, s.clients) && KillerOf(sv) == KillerOf(s.services[i])
    requires if s.inShutdown then sv.proc && sv.accepts == [] else Covered(sv, s.restartTask, s.now)
    ensures Sound(Put(s, i, sv)) && Balanced(Put(s, i, sv), inHand)
  {
    PutSound(s, i, sv);
    KillersPut(s.services, i, sv);
    Cancel(Killers(s.services[i := sv]), Killers(s.services), KillerOf(sv));
  }

  lemma ReplyKeeps(s: State, r: Request, result: Result)
    requires Sound(s) && Balanced(s, multiset{r})
    ensures Inv(Reply(s, r, result))
  {
    AnsweredAppend(s.log, [Answer(r, result)]);
    AnsweredOne(Answer(r, result));
  }

  lemma StartedOk(sv: Service, ok: bool, now: Time, clients: set<Client>)
    requires ServiceOk(sv, now, clients) && !sv.proc
    ensures ServiceOk(Started(sv, ok), now, clients) && !Armed(Started(sv, ok))
  {
  }

  lemma AcceptKeepsInv(s: State, i: nat, j: nat, ok: bool)
    requires Inv(s) && Enabled(s, Accept(i, j, ok))
    ensures Inv(AcceptConnection(s, i, j, ok))
  {
    var sv := s.services[i];
    assert Armed(sv);
    var idle := sv.(accepts := sv.accepts[j := false]);
    assert forall k | 0 <= k < |idle.accepts| :: idle.accepts[k] ==> sv.accepts[k];
    assert s.services[i := idle][i := Started(idle, ok)] == s.services[i := Started(idle, ok)];
    PutKeeps(s, i, Started(idle, ok), multiset{});
  }

  lemma StartKeepsInv(s: State, r: Request, name: string, ok: bool)
    requires Sound(s) && Balanced(s, multiset{r})
    ensures Inv(HandleStart(s, r, name, ok))
  {
    var i := Find(s.services, name);
    if s.inShutdown {
      ReplyKeeps(s, r, InShutdown);
    } else if i == |s.services| {
      ReplyKeeps(s, r, IsNotKnown);
    } else {
      var sv := s.services[i].(forceStart := true);
      PutKeeps(s, i, sv, multiset{r});
      var t := Put(s, i, sv);
      if sv.proc {
        ReplyKeeps(t, r, IsStartedAlready);
      } else {
        StartedOk(sv, ok, s.now, s.clients);
        PutKeeps(t, i, Started(sv, ok), multiset{r});
        ReplyKeeps(StartProcess(t, i, ok), r, if ok then Starting else StartFailed);
      }
    }
  }

  /** An accepted STOP moves from the caller's hand to the service. */
  lemma WaitKeeps(s: State, i: nat, sv: Service, r: Request)
    requires Sound(s) && Balanced(s, multiset{r}) && i < |s.services| && !s.inShutdown
    requires s.services[i].killer.None? && s.services[i].proc && r.client in s.clients
    requires sv == s.services[i].(forceStart := false, killer := Some(r))
    ensures Inv(Put(s, i, sv))
  {
    KillersPut(s.services, i, sv);
    assert Killers(s.services[i := sv]) == Killers(s.services) + multiset{r};
  }

  lemma StopKeepsInv(s: State, r: Request, name: string)
    requires Sound(s) && Balanced(s, multiset{r}) && r.client in s.clients
    ensures Inv(HandleStop(s, r, name))
  {
    var i := Find(s.services, name);
    if SameName(name, "arm") {
      ReplyKeeps(s, r, Stopping);
    } else if i == |s.services| {
      ReplyKeeps(s, r, IsNotKnown);
    } else {
      var sv := s.services[i].(forceStart := false);
      PutKeeps(s, i, sv, multiset{r});
      var t := Put(s, i, sv);
      if s.inShutdown {
        ReplyKeeps(t, r, InShutdown);
      } else if sv.killer.Some? {
        ReplyKeeps(t, r, IsStoppingAlready);
      } else if !sv.proc {
        ReplyKeeps(t, r, IsStoppedAlready);
      } else {
        WaitKeeps(s, i, sv.(killer := Some(r)), r);
      }
    }
  }

  lemma DisconnectSound(s: State, c: Client)
    requires Sound(s)
    ensures Sound(Disconnect(s, c))
  {
    forall i | 0 <= i < |s.services| ensures ServiceOk(Forget(s.services[i], c), s.now, s.clients - {c}) {
      assert ServiceOk(s.services[i], s.now, s.clients);
    }
  }

  lemma DisconnectKeepsInv(s: State, c: Client)
    requires Inv(s)
    ensures Inv(Disconnect(s, c))
  {
    DisconnectSound(s, c);
    ForgetBalance(s.services, c);
    Transfer(s.asked, Answered(s.log), Killers(s.services), s.dropped,
             Killers(ForgetAll(s.services, c)), KillersFrom(s.services, c));
  }

  // ----- Deaths, timers and shutdown -----

  lemma BackoffStep(crashes: nat)
    ensures NextBackoff(Min(BACKOFF_LIMIT, 1000 * Pow2(crashes))) == Min(BACKOFF_LIMIT, 1000 * Pow2(crashes + 1))
  {
  }

  lemma FateOk(sv: Service, fate: Fate, now: Time, clients: set<Client>)
    requires ServiceOk(sv, now, clients) && now <= CLOCK_LIMIT
    ensures ServiceOk(AfterFate(sv, fate, now), now, clients)
    ensures AfterFate(sv, fate, now).owed ==> sv.owed || (fate.Crashed? && now <= AfterFate(sv, fate, now).restartAt)
  {
    BackoffStep(sv.crashes);
  }

  lemma DeathSound(s: State, fates: seq<Fate>)
    requires Sound(s) && Enabled(s, ChildDeath(fates)) && !s.inShutdown
    ensures Sound(MaintChildDeath(s, fates))
  {
    var t := MaintChildDeath(s, fates);
    forall i | 0 <= i < |s.services|
      ensures ServiceOk(t.services[i], s.now, s.clients) && Covered(t.services[i], t.restartTask, s.now)
      ensures s.services[i].proc ==> !Armed(s.services[i])
    {
      assert ServiceOk(s.services[i], s.now, s.clients) && Covered(s.services[i], s.restartTask, s.now);
      FateOk(s.services[i], fates[i], s.now, s.clients);
    }
  }

  lemma {:induction false} SurvivorsAreServices(services: seq<Service>, fates: seq<Fate>)
    requires |fates| == |services|
    ensures forall sv | sv in Survivors(services, fates) :: sv in services && sv.proc
  {
    if services != [] {
      var n := |services| - 1;
      SurvivorsAreServices(services[..n], fates[..n]);
    }
  }

  lemma ReapSound(s: State, fates: seq<Fate>)
    requires Sound(s) && Enabled(s, ChildDeath(fates)) && s.inShutdown
    ensures Sound(MaintChildDeath(s, fates))
  {
    var t := MaintChildDeath(s, fates);
    SurvivorsAreServices(s.services, fates);
    forall i | 0 <= i < |t.services|
      ensures ServiceOk(t.services[i], s.now, s.clients) && t.services[i].proc && t.services[i].accepts == []
    {
      assert t.services[i] in s.services;
    }
  }

  lemma DeathKeepsInv(s: State, fates: seq<Fate>)
    requires Inv(s) && Enabled(s, ChildDeath(fates))
    ensures Inv(MaintChildDeath(s, fates))
  {
    if s.inShutdown {
      ReapSound(s, fates);
      SurvivorsBalance(s.services, fates);
    } else {
      DeathSound(s, fates);
      FatesBalance(s.services, fates, s.now);
    }
    AnsweredAppend(s.log, StoppedAnswers(s.services, fates));
    Transfer(s.asked, Answered(s.log), Killers(s.services), s.dropped,
             Killers(MaintChildDeath(s, fates).services), Answered(StoppedAnswers(s.services, fates)));
  }

  lemma {:induction false} EarliestRestartIsMin(services: seq<Service>, now: Time)
    ensures forall i | 0 <= i < |services| ::
              !services[i].proc && !Due(services[i], now) ==> EarliestRestart(services, now) <= services[i].restartAt
    ensures EarliestRestart(services, now) < FOREVER ==>
              exists i :: 0 <= i < |services| && !services[i].proc && !Due(services[i], now)
                          && services[i].restartAt == EarliestRestart(services, now)
    ensures EarliestRestart(services, now) <= FOREVER
  {
    if services != [] {
      EarliestRestartIsMin(services[..|services| - 1], now);
    }
  }

  lemma TimerOk(sv: Service, now: Time, ok: bool, clients: set<Client>)
    requires ServiceOk(sv, now, clients)
    ensures ServiceOk(AfterTimer(sv, now, ok), now, clients)
    ensures AfterTimer(sv, now, ok).owed ==> AfterTimer(sv, now, ok) == sv && !sv.proc && now < sv.restartAt < FOREVER
  {
  }

  lemma TimersKeepKillers(services: seq<Service>, now: Time, oks: seq<bool>)
    requires |oks| == |services|
    ensures Killers(AfterTimers(services, now, oks)) == Killers(services)
  {
    SameKillers(services, AfterTimers(services, now, oks));
  }

  lemma {:induction false} SameKillers(a: seq<Service>, b: seq<Service>)
    requires |a| == |b| && forall i | 0 <= i < |a| :: a[i].killer == b[i].killer
    ensures Killers(a) == Killers(b)
  {
    if a != [] {
      SameKillers(a[..|a| - 1], b[..|b| - 1]);
    }
  }

  lemma TimerKeepsInv(s: State, oks: seq<bool>)
    requires Inv(s) && Enabled(s, RestartTimer(oks))
    ensures Inv(DelayedRestart(s, oks))
  {
    var t := DelayedRestart(s, oks);
    EarliestRestartIsMin(s.services, s.now);
    forall i | 0 <= i < |s.services|
      ensures ServiceOk(t.services[i], s.now, s.clients) && Covered(t.services[i], t.restartTask, s.now)
    {
      TimerOk(s.services[i], s.now, oks[i], s.clients);
    }
    TimersKeepKillers(s.services, s.now, oks);
  }

  lemma {:induction false} RunningAreServices(services: seq<Service>)
    ensures forall sv | sv in Running(services) :: sv in services && sv.proc
  {
    if services != [] {
      RunningAreServices(services[..|services| - 1]);
    }
  }

  lemma ShutdownKeepsInv(s: State)
    requires Inv(s) && Enabled(s, Shutdown)
    ensures Inv(ShutdownTask(s))
  {
    var t := ShutdownTask(s);
    RunningAreServices(WithoutListening(s.services));
    forall i | 0 <= i < |t.services|
      ensures ServiceOk(t.services[i], s.now, s.clients) && t.services[i].proc && t.services[i].accepts == []
    {
      assert t.services[i] in WithoutListening(s.services);
      var k :| 0 <= k < |s.services| && t.services[i] == s.services[k].(accepts := []);
      assert ServiceOk(s.services[k], s.now, s.clients);
    }
    forall i | 0 <= i < |s.services| ensures s.services[i].killer.Some? ==> s.services[i].proc {
      assert ServiceOk(s.services[i], s.now, s.clients);
    }
    RunningBalance(s.services);
  }

  lemma JoinKeepsInv(s: State, c: Client)
    requires Inv(s)
    ensures Inv(s.(clients := s.clients + {c}))
  {
    forall i | 0 <= i < |s.services| ensures ServiceOk(s.services[i], s.now, s.clients + {c}) {
      assert ServiceOk(s.services[i], s.now, s.clients);
    }
  }

  lemma TickKeepsInv(s: State, later: Time)
    requires Inv(s) && s.now <= later <= CLOCK_LIMIT
    ensures Inv(s.(now := later))
  {
    forall i | 0 <= i < |s.services| ensures ServiceOk(s.services[i], later, s.clients) {
      assert ServiceOk(s.services[i], s.now, s.clients);
    }
    if !s.inShutdown {
      forall i | 0 <= i < |s.services| ensures Covered(s.services[i], s.restartTask, later) {
        assert Covered(s.services[i], s.restartTask, s.now);
      }
    }
  }

  // ----- Every run -----

  lemma NextKeepsInv(s: State, e: Event)
    requires Inv(s) && Enabled(s, e)
    ensures Inv(Next(s, e))
  {
    match e
    case Accept(i, j, ok) => AcceptKeepsInv(s, i, j, ok);
    case StartRequest(r, name, ok) => StartKeepsInv(s.(asked := s.asked + multiset{r}), r, name, ok);
    case StopRequest(r, name) => StopKeepsInv(s.(asked := s.asked + multiset{r}), r, name);
    case ChildDeath(fates) => DeathKeepsInv(s, fates);
    case RestartTimer(oks) => TimerKeepsInv(s, oks);
    case Shutdown => ShutdownKeepsInv(s);
    case Joins(c) => JoinKeepsInv(s, c);
    case Leaves(c) => DisconnectKeepsInv(s, c);
    case Tick(t) => TickKeepsInv(s, t);
  }

  lemma {:induction false} NoKillers(services: seq<Service>)
    requires forall i | 0 <= i < |services| :: services[i].killer.None?
    ensures Killers(services) == multiset{}
  {
    if services != [] {
      NoKillers(services[..|services| - 1]);
    }
  }

  lemma InitialInv(s: State)
    requires Initial(s)
    ensures Inv(s)
  {
    NoKillers(s.services);
  }

  lemma {:induction false} RunKeepsInv(s: State, es: seq<Event>, t: State)
    requires Inv(s) && Runs(s, es, t)
    ensures Inv(t)
    decreases |es|
  {
    if es != [] {
      NextKeepsInv(s, es[0]);
      RunKeepsInv(Next(s, es[0]), es[1..], t);
    }
  }

  lemma ReachableInv(t: State)
    requires Reachable(t)
    ensures Inv(t)
  {
    var s, es :| Initial(s) && Runs(s, es, t);
    InitialInv(s);
    RunKeepsInv(s, es, t);
  }

  /** In no run does an assertion fail, nor the last phase of the shutdown run twice or too early. */
  lemma SupervisorSafety(t: State)
    requires Reachable(t)
    ensures !t.aborted
    ensures t.inShutdown ==> t.restartTask.None?
    ensures t.finished == if t.inShutdown && t.services == [] then 1 else 0
  {
    ReachableInv(t);
  }

  /**
    A running service does not listen, a service that waits out its backoff does not listen, and
    in shutdown none does.  A STOP waits for a running process and a connected client.  The delay
    before the next restart is 2^k milliseconds after k crashes, up to 15 minutes.
   */
  lemma ServiceSafety(t: State, i: nat)
    requires Reachable(t) && i < |t.services|
    ensures var sv := t.services[i];
            && (sv.proc ==> !Armed(sv))
            && (t.now < sv.restartAt < FOREVER ==> !Armed(sv))
            && (t.inShutdown ==> sv.proc && sv.accepts == [])
            && (sv.killer.Some? ==> sv.proc && sv.killer.value.client in t.clients)
            && sv.backoff == Min(BACKOFF_LIMIT, 1000 * Pow2(sv.crashes))
  {
    ReachableInv(t);
    assert ServiceOk(t.services[i], t.now, t.clients);
  }

  /** In every run, each request is answered once, waits for a process to die, or lost its client. */
  lemma RequestsConserved(t: State)
    requires Reachable(t)
    ensures t.asked == Answered(t.log) + Killers(t.services) + t.dropped
    ensures (forall i | 0 <= i < |t.services| :: !t.services[i].proc) ==> t.asked == Answered(t.log) + t.dropped
  {
    ReachableInv(t);
    if forall i | 0 <= i < |t.services| :: !t.services[i].proc {
      forall i | 0 <= i < |t.services| ensures t.services[i].killer.None? {
        assert ServiceOk(t.services[i], t.now, t.clients);
      }
      NoKillers(t.services);
    }
  }

  // ----- One service over one step -----

  function StartedBy(sv: Service, ok: bool): Service {
    if sv.proc then sv.(forceStart := true) else Started(sv.(forceStart := true), ok)
  }

  function StoppedBy(sv: Service, r: Request, inShutdown: bool): Service {
    if inShutdown || sv.killer.Some? || !sv.proc then sv.(forceStart := false)
    else sv.(forceStart := false, killer := Some(r))
  }

  /** What a step other than the start of the shutdown, or a death during it, makes of one service. */
  function ServiceNext(s: State, e: Event, i: nat): Service
    requires Enabled(s, e) && i < |s.services|
  {
    var sv := s.services[i];
    match e
    case Accept(k, _, ok) => if k == i then Started(sv, ok) else sv
    case StartRequest(r, name, ok) => if !s.inShutdown && Find(s.services, name) == i then StartedBy(sv, ok) else sv
    case StopRequest(r, name) =>
      if !SameName(name, "arm") && Find(s.services, name) == i then StoppedBy(sv, r, s.inShutdown) else sv
    case ChildDeath(fates) => AfterFate(sv, fates[i], s.now)
    case RestartTimer(oks) => AfterTimer(sv, s.now, oks[i])
    case Leaves(c) => Forget(sv, c)
    case _ => sv
  }

  ghost predicate Pointwise(s: State, e: Event, t: State)
    requires Enabled(s, e)
  {
    && |t.services| == |s.services| && t.inShutdown == s.inShutdown
    && (e.ChildDeath? || e.RestartTimer? || t.restartTask == s.restartTask)
    && (e.ChildDeath? ==> SomeCrash(s.services, e.fates) || t.restartTask == s.restartTask)
    && forall i | 0 <= i < |s.services| :: t.services[i] == ServiceNext(s, e, i)
  }

  lemma AcceptPointwise(s: State, i: nat, j: nat, ok: bool)
    requires Enabled(s, Accept(i, j, ok))
    ensures Pointwise(s, Accept(i, j, ok), AcceptConnection(s, i, j, ok))
  {
    var sv := s.services[i];
    assert AllFlags(|sv.accepts[j := false]|, false) == AllFlags(|sv.accepts|, false);
  }

  lemma StartTouchesOne(s: State, r: Request, name: string, ok: bool)
    ensures var t, i := HandleStart(s, r, name, ok), Find(s.services, name);
            && t.inShutdown == s.inShutdown && t.restartTask == s.restartTask
            && t.services == if s.inShutdown || i == |s.services| then s.services
                             else s.services[i := StartedBy(s.services[i], ok)]
  {
    var i := Find(s.services, name);
    if !s.inShutdown && i < |s.services| && !s.services[i].proc {
      var sv := s.services[i].(forceStart := true);
      assert s.services[i := sv][i := Started(sv, ok)] == s.services[i := Started(sv, ok)];
    }
  }

  lemma StopTouchesOne(s: State, r: Request, name: string)
    ensures var t, i := HandleStop(s, r, name), Find(s.services, name);
            && t.inShutdown == s.inShutdown && t.restartTask == s.restartTask
            && t.services == if SameName(name, "arm") || i == |s.services| then s.services
                             else s.services[i := StoppedBy(s.services[i], r, s.inShutdown)]
  {
  }

  lemma StartPointwise(s: State, r: Request, name: string, ok: bool)
    requires Enabled(s, StartRequest(r, name, ok))
    ensures Pointwise(s, StartRequest(r, name, ok), HandleStart(s.(asked := s.asked + multiset{r}), r, name, ok))
  {
    StartTouchesOne(s.(asked := s.asked + multiset{r}), r, name, ok);
  }

  lemma StopPointwise(s: State, r: Request, name: string)
    requires Enabled(s, StopRequest(r, name))
    ensures Pointwise(s, StopRequest(r, name), HandleStop(s.(asked := s.asked + multiset{r}), r, name))
  {
    StopTouchesOne(s.(asked := s.asked + multiset{r}), r, name);
  }

  lemma NextPointwise(s: State, e: Event)
    requires Enabled(s, e) && !e.Shutdown? && (e.ChildDeath? ==> !s.inShutdown)
    ensures Pointwise(s, e, Next(s, e))
  {
    match e
    case Accept(i, j, ok) => AcceptPointwise(s, i, j, ok);
    case StartRequest(r, name, ok) => StartPointwise(s, r, name, ok);
    case StopRequest(r, name) => StopPointwise(s, r, name);
    case _ =>
  }

  // ----- Restarts -----

  lemma CrashServiceNext(s: State, fates: seq<Fate>, i: nat)
    requires Enabled(s, ChildDeath(fates)) && i < |s.services| && s.services[i].proc && fates[i].Crashed?
    requires ServiceOk(s.services[i], s.now, s.clients)
    ensures var sv := ServiceNext(s, ChildDeath(fates), i);
            sv.owed && sv.restartAt == s.now + Min(BACKOFF_LIMIT, 1000 * Pow2(s.services[i].crashes))
  {
  }

  /** A crash outside shutdown puts the restart off by the backoff and owes it to the service. */
  lemma CrashOwesRestart(s: State, fates: seq<Fate>, i: nat)
    requires Reachable(s) && Enabled(s, ChildDeath(fates)) && !s.inShutdown && i < |s.services|
    requires s.services[i].proc && fates[i].Crashed?
    ensures var sv := Next(s, ChildDeath(fates)).services[i];
            sv.owed && sv.restartAt == s.now + Min(BACKOFF_LIMIT, 1000 * Pow2(s.services[i].crashes))
  {
    ReachableInv(s);
    CrashServiceNext(s, fates, i);
    NextPointwise(s, ChildDeath(fates));
  }

  lemma OwedServiceNext(s: State, e: Event, i: nat)
    requires Enabled(s, e) && i < |s.services| && s.services[i].owed && ServiceOk(s.services[i], s.now, s.clients)
    ensures var sv := ServiceNext(s, e, i);
            || sv.proc
            || (sv.owed && sv.restartAt == s.services[i].restartAt)
            || (e.RestartTimer? && s.services[i].restartAt <= s.now)
  {
  }

  /** An owed restart ends only by a running process or by the timer after the restart time. */
  lemma OwedUntilCarriedOut(s: State, e: Event, i: nat)
    requires Reachable(s) && Enabled(s, e) && !s.inShutdown && !e.Shutdown?
    requires i < |s.services| && s.services[i].owed
    ensures var t := Next(s, e);
            && !t.inShutdown && |t.services| == |s.services|
            && (|| t.services[i].proc
                || (t.services[i].owed && t.services[i].restartAt == s.services[i].restartAt)
                || (e.RestartTimer? && s.services[i].restartAt <= s.now))
  {
    ReachableInv(s);
    OwedServiceNext(s, e, i);
    NextPointwise(s, e);
  }

  /** Once its time has come the timer is due, and it starts the service or lets it listen. */
  lemma OwedRestartHappens(s: State, i: nat, oks: seq<bool>)
    requires Reachable(s) && !s.inShutdown && i < |s.services| && s.services[i].owed
    requires s.services[i].restartAt <= s.now && |oks| == |s.services|
    ensures Enabled(s, RestartTimer(oks))
    ensures var sv := Next(s, RestartTimer(oks)).services[i];
            && !sv.owed
            && if s.services[i].forceStart then sv.proc == oks[i]
               else sv.accepts == AllFlags(|s.services[i].accepts|, true)
  {
    ReachableInv(s);
    assert ServiceOk(s.services[i], s.now, s.clients);
    assert Covered(s.services[i], s.restartTask, s.now);
  }

  /** Outside shutdown a stopped service whose restart lies ahead has a timer set for no later than that. */
  lemma RestartCovered(t: State, i: nat)
    requires Reachable(t) && !t.inShutdown && i < |t.services|
    requires !t.services[i].proc && t.now < t.services[i].restartAt < FOREVER
    ensures t.restartTask.Some? && t.restartTask.value <= t.services[i].restartAt
  {
    ReachableInv(t);
    assert ServiceOk(t.services[i], t.now, t.clients);
    assert Covered(t.services[i], t.restartTask, t.now);
  }

  /** The timer is set again exactly when some stopped service still waits. */
  lemma TimerSetAgain(s: State, oks: seq<bool>)
    requires |oks| == |s.services|
    ensures DelayedRestart(s, oks).restartTask.Some? <==>
            exists i :: 0 <= i < |s.services| && !s.services[i].proc && s.now < s.services[i].restartAt < FOREVER
  {
    EarliestRestartIsMin(s.services, s.now);
  }

  /** A service that is neither running nor listening. */
  ghost predicate Idle(s: State, i: nat) {
    !s.inShutdown && i < |s.services| && !s.services[i].proc && !Armed(s.services[i])
  }

  /** An idle service that no timer serves: none is set, or the service has no restart time. */
  ghost predicate Abandoned(s: State, i: nat) {
    Idle(s, i) && (s.restartTask.None? || s.services[i].restartAt == FOREVER)
  }

  /** A restart that fails is not tried again unless another service's restart is pending. */
  lemma FailedRestartAbandons(s: State, oks: seq<bool>, i: nat)
    requires Reachable(s) && Enabled(s, RestartTimer(oks)) && i < |s.services|
    requires s.services[i].forceStart && !s.services[i].proc && Due(s.services[i], s.now) && !oks[i]
    ensures Abandoned(Next(s, RestartTimer(oks)), i) <==>
            !exists k :: 0 <= k < |s.services| && !s.services[k].proc && s.now < s.services[k].restartAt < FOREVER
  {
    ReachableInv(s);
    TimerSetAgain(s, oks);
  }

  /** A START for the service that succeeds. */
  predicate StartsIt(s: State, e: Event, i: nat) {
    e.StartRequest? && e.ok && Find(s.services, e.name) == i
  }

  /** What ends it; another service's crash only for one that has a restart time. */
  predicate Ends(s: State, e: Event, i: nat)
    requires Enabled(s, e) && i < |s.services|
  {
    || e.Shutdown? || StartsIt(s, e, i)
    || (s.services[i].restartAt != FOREVER && e.ChildDeath? && SomeCrash(s.services, e.fates))
  }

  lemma IdleServiceNext(s: State, e: Event, i: nat)
    requires Enabled(s, e) && Idle(s, i) && (e.RestartTimer? ==> s.services[i].restartAt == FOREVER)
    ensures ServiceNext(s, e, i).proc <==> StartsIt(s, e, i)
    ensures !Armed(ServiceNext(s, e, i)) && ServiceNext(s, e, i).restartAt == s.services[i].restartAt
  {
  }

  /**
    Exactly a START for the service that succeeds, the shutdown or, if the service has a restart
    time, another service's crash end that state.
   */
  lemma AbandonedStays(s: State, e: Event, i: nat)
    requires Enabled(s, e) && Abandoned(s, i)
    ensures Abandoned(Next(s, e), i) <==> !Ends(s, e, i)
    ensures !Ends(s, e, i) ==> Next(s, e).services[i].restartAt == s.services[i].restartAt
  {
    if !e.Shutdown? {
      IdleServiceNext(s, e, i);
      NextPointwise(s, e);
    }
  }

  /** The service is left alone in all states of the run. */
  ghost predicate AbandonedThroughout(s: State, es: seq<Event>, i: nat)
    decreases |es|
  {
    Abandoned(s, i) && (es == [] || (Enabled(s, es[0]) && AbandonedThroughout(Next(s, es[0]), es[1..], i)))
  }

  /** No step of the run ends that. */
  ghost predicate NoneEnds(s: State, es: seq<Event>, i: nat)
    decreases |es|
  {
    es == [] || (Enabled(s, es[0]) && i < |s.services| && !Ends(s, es[0], i) && NoneEnds(Next(s, es[0]), es[1..], i))
  }

  /** A run leaves the service alone throughout exactly when none of its steps ends that. */
  lemma {:induction false} AbandonedInRun(s: State, es: seq<Event>, t: State, i: nat)
    requires Runs(s, es, t) && Abandoned(s, i)
    ensures AbandonedThroughout(s, es, i) <==> NoneEnds(s, es, i)
    ensures AbandonedThroughout(s, es, i) ==> Abandoned(t, i)
    decreases |es|
  {
    if es != [] {
      AbandonedStays(s, es[0], i);
      if !Ends(s, es[0], i) {
        AbandonedInRun(Next(s, es[0]), es[1..], t, i);
      } else if !es[0].Shutdown? {
        assert !Abandoned(Next(s, es[0]), i);
      }
    }
  }

  /** A service without a restart time gets one only by running first: the shutdown or a START has to end it. */
  predicate Helps(services: seq<Service>, e: Event, i: nat) {
    e.Shutdown? || (e.StartRequest? && e.ok && Find(services, e.name) == i)
  }

  ghost predicate SameNames(a: seq<Service>, b: seq<Service>) {
    |a| == |b| && forall k | 0 <= k < |a| :: a[k].name == b[k].name
  }

  lemma FindByName(a: seq<Service>, b: seq<Service>, name: string)
    requires SameNames(a, b)
    ensures Find(a, name) == Find(b, name)
  {
    assert Find(a, name) <= |a| && Find(b, name) <= |b|;
  }

  lemma NamesStay(s: State, e: Event)
    requires Enabled(s, e) && !e.Shutdown? && !s.inShutdown
    ensures SameNames(s.services, Next(s, e).services)
  {
    NextPointwise(s, e);
    forall k | 0 <= k < |s.services| ensures Next(s, e).services[k].name == s.services[k].name {
      assert Next(s, e).services[k] == ServiceNext(s, e, k);
    }
  }

  lemma {:induction false} NeverStartedAmong(s: State, es: seq<Event>, t: State, i: nat, services: seq<Service>)
    requires Runs(s, es, t) && Abandoned(s, i) && s.services[i].restartAt == FOREVER
    requires SameNames(s.services, services)
    ensures AbandonedThroughout(s, es, i) <==> forall j | 0 <= j < |es| :: !Helps(services, es[j], i)
    decreases |es|
  {
    if es != [] {
      var e := es[0];
      AbandonedStays(s, e, i);
      if e.StartRequest? {
        FindByName(s.services, services, e.name);
      }
      assert Ends(s, e, i) <==> Helps(services, e, i);
      if !Ends(s, e, i) {
        NamesStay(s, e);
        NeverStartedAmong(Next(s, e), es[1..], t, i, services);
        assert (forall j | 0 <= j < |es| :: !Helps(services, es[j], i))
          <==> forall j | 0 <= j < |es[1..]| :: !Helps(services, es[1..][j], i);
      }
    }
  }

  /**
    A service whose first start failed is left alone, whatever other services and timers do,
    exactly until a START for it succeeds or the supervisor shuts down.
   */
  lemma NeverStartedInRun(s: State, es: seq<Event>, t: State, i: nat)
    requires Runs(s, es, t) && Abandoned(s, i) && s.services[i].restartAt == FOREVER
    ensures AbandonedThroughout(s, es, i) <==> forall j | 0 <= j < |es| :: !Helps(s.services, es[j], i)
  {
    NeverStartedAmong(s, es, t, i, s.services);
  }

  /** At the start exactly the services whose first start failed, or that have no socket, are in that state. */
  lemma FailedBootAbandons(s: State, i: nat)
    requires Initial(s) && i < |s.services|
    ensures s.services[i].restartAt == FOREVER
    ensures Abandoned(s, i) <==> !s.services[i].proc && (s.services[i].forceStart || s.services[i].accepts == [])
  {
    var services: seq<Service>, oks: seq<bool> :|
      && |oks| == |services| && (forall k | 0 <= k < |services| :: Configured(services[k]))
      && s.services == Booted(services, oks);
    var sv := services[i];
    assert Configured(sv);
    if !sv.forceStart && sv.accepts != [] {
      assert sv.accepts[0];
    }
  }

  /** A start for a connection or a START that fails. */
  predicate FailsToStart(s: State, e: Event, i: nat) {
    || (e.Accept? && e.index == i && !e.ok)
    || (e.StartRequest? && Find(s.services, e.name) == i < |s.services| && !s.services[i].proc && !e.ok)
  }

  /** It leaves the service alone exactly when no timer is set or the service never ran. */
  lemma FailedStartAbandons(s: State, e: Event, i: nat)
    requires Enabled(s, e) && !s.inShutdown && FailsToStart(s, e, i)
    ensures i < |s.services| && Idle(Next(s, e), i)
    ensures Abandoned(Next(s, e), i) <==> s.restartTask.None? || s.services[i].restartAt == FOREVER
  {
    NextPointwise(s, e);
    assert Next(s, e).services[i] == ServiceNext(s, e, i);
  }

  lemma RunsStep(s: State, e: Event, es: seq<Event>, t: State)
    requires Enabled(s, e) && Runs(Next(s, e), es, t)
    ensures Runs(s, [e] + es, t)
  {
    assert ([e] + es)[0] == e && ([e] + es)[1..] == es;
  }

  /** It does happen: one service, one crash, one failed restart. */
  lemma AbandonedIsReachable(t: State)
    requires t == State([Service("s", "b", false, [], None, 1000, 2000, true, false, 1)], {}, None, true, true,
                        false, 1000, false, 0, multiset{}, [], multiset{})
    ensures Reachable(t) && Abandoned(t, 0)
  {
    var configured := Service("s", "b", false, [], None, FOREVER, 1000, true, false, 0);
    var up := configured.(proc := true);
    var down := Service("s", "b", false, [], None, 1000, 2000, true, true, 1);
    assert AllFlags(0, false) == [];
    assert Booted([configured], [true]) == [up];
    var s0 := t.(services := [up], now := 0);
    var s1 := t.(services := [down], now := 0, restartTask := Some(0));
    var s2 := s1.(restartTask := Some(1000));
    var s3 := s2.(now := 1000);
    CrashExample(s0, up, down, s1);
    TimerExample(s1, s2, down, 0);
    TimerExample(s3, t, down, 1000);
    assert Runs(t, [], t);
    RunsStep(s3, RestartTimer([false]), [], t);
    RunsStep(s2, Tick(1000), [RestartTimer([false])] + [], t);
    RunsStep(s1, RestartTimer([false]), [Tick(1000)] + ([RestartTimer([false])] + []), t);
    RunsStep(s0, ChildDeath([Crashed]), [RestartTimer([false])] + ([Tick(1000)] + ([RestartTimer([false])] + [])), t);
    assert Initial(s0);
  }

  lemma CrashExample(s0: State, up: Service, down: Service, s1: State)
    requires s0.services == [up] && s0.now == 0 && !s0.inShutdown && !s0.aborted
    requires up == Service("s", "b", true, [], None, FOREVER, 1000, true, false, 0)
    requires down == Service("s", "b", false, [], None, 1000, 2000, true, true, 1)
    requires s1 == s0.(services := [down], restartTask := Some(0))
    ensures MaintChildDeath(s0, [Crashed]) == s1
  {
    assert StoppedAnswers([], []) == [];
    assert [up][..0] == [] && [Crashed][..0] == [];
    assert StoppedAnswers([up], [Crashed]) == [];
    assert AfterFates([up], [Crashed], 0) == [down];
    assert [up][0].proc && [Crashed][0].Crashed?;
    assert s0.log + [] == s0.log;
  }

  lemma TimerExample(s: State, t: State, down: Service, now: Time)
    requires s.services == [down] && s.now == now <= 1000 && !s.inShutdown && !s.aborted
    requires down == Service("s", "b", false, [], None, 1000, 2000, true, true, 1)
    requires t == if now < 1000 then s.(restartTask := Some(1000))
                  else s.(restartTask := None, services := [down.(owed := false)])
    ensures DelayedRestart(s, [false]) == t
  {
    assert [down][..0] == [];
    assert EarliestRestart([], now) == FOREVER;
    assert AllFlags(0, false) == [];
    assert AfterTimers([down], now, [false]) == [if now < 1000 then down else down.(owed := false)];
  }

  // ----- Shutdown -----

  /** The same service: only the STOP that waits for it and its default may differ. */
  ghost predicate SameProcess(a: Service, b: Service) {
    a.proc && b == a.(killer := b.killer, forceStart := b.forceStart)
  }

  /** Where the services of t stood in s. */
  ghost predicate Places(s: State, t: State, places: seq<nat>) {
    && |places| == |t.services|
    && (forall k | 0 <= k < |places| :: places[k] < |s.services| && SameProcess(s.services[places[k]], t.services[k]))
    && (forall k, l | 0 <= k < l < |places| :: places[k] < places[l])
  }

  /** The processes of t are some of those of s, each once and in the same order. */
  ghost predicate NothingStarted(s: State, t: State) {
    exists places: seq<nat> :: Places(s, t, places)
  }

  /** The positions of the processes that are still alive. */
  function AliveAt(services: seq<Service>, fates: seq<Fate>): (r: seq<nat>)
    requires |fates| == |services|
    ensures forall k | 0 <= k < |r| :: r[k] < |services|
  {
    if services == [] then []
    else
      var n := |services| - 1;
      AliveAt(services[..n], fates[..n]) + (if services[n].proc && fates[n].Alive? then [n] else [])
  }

  lemma {:induction false} AliveAreSurvivors(services: seq<Service>, fates: seq<Fate>)
    requires |fates| == |services|
    ensures var places, left := AliveAt(services, fates), Survivors(services, fates);
            && |places| == |left|
            && (forall k | 0 <= k < |places| :: services[places[k]].proc && services[places[k]] == left[k])
            && (forall k, l | 0 <= k < l < |places| :: places[k] < places[l])
  {
    if services != [] {
      var n := |services| - 1;
      AliveAreSurvivors(services[..n], fates[..n]);
    }
  }

  lemma ReapStartsNothing(s: State, fates: seq<Fate>)
    requires |fates| == |s.services|
    ensures NothingStarted(s, s.(services := Survivors(s.services, fates)))
  {
    AliveAreSurvivors(s.services, fates);
    assert Places(s, s.(services := Survivors(s.services, fates)), AliveAt(s.services, fates));
  }

  /** In shutdown an event leaves the processes as they are. */
  lemma SameServiceNext(s: State, e: Event, i: nat)
    requires Enabled(s, e) && i < |s.services| && ServiceOk(s.services[i], s.now, s.clients)
    requires s.services[i].proc && s.services[i].accepts == [] && !e.ChildDeath?
    ensures SameProcess(s.services[i], ServiceNext(s, e, i))
  {
  }

  lemma StepStartsNothing(s: State, e: Event, t: State)
    requires Enabled(s, e) && Pointwise(s, e, t) && !e.ChildDeath?
    requires forall k | 0 <= k < |s.services| ::
               ServiceOk(s.services[k], s.now, s.clients) && s.services[k].proc && s.services[k].accepts == []
    ensures NothingStarted(s, t)
  {
    var places := seq(|s.services|, k => k);
    forall k | 0 <= k < |places| ensures SameProcess(s.services[places[k]], t.services[k]) {
      SameServiceNext(s, e, k);
      assert t.services[k] == ServiceNext(s, e, k);
    }
    assert Places(s, t, places);
  }

  lemma SameServicesStart(s: State, t: State, u: State)
    requires NothingStarted(s, t) && u.services == t.services
    ensures NothingStarted(s, u)
  {
    var places :| Places(s, t, places);
    assert Places(s, u, places);
  }

  /** No step of a shutdown starts a process; the last death, and only it, finishes. */
  lemma ShutdownStep(s: State, e: Event)
    requires Reachable(s) && Enabled(s, e) && s.inShutdown
    ensures var t := Next(s, e);
            && t.inShutdown && NothingStarted(s, t) && |t.services| <= |s.services|
            && t.finished == s.finished + (if s.services != [] && t.services == [] then 1 else 0)
  {
    ReachableInv(s);
    NextKeepsInv(s, e);
    if e.ChildDeath? {
      ReapStartsNothing(s, e.fates);
      SameServicesStart(s, s.(services := Survivors(s.services, e.fates)), Next(s, e));
    } else {
      NextPointwise(s, e);
      StepStartsNothing(s, e, Next(s, e));
    }
  }

  lemma {:induction false} NoSurvivors(services: seq<Service>, fates: seq<Fate>)
    requires |fates| == |services| && forall i | 0 <= i < |fates| :: !fates[i].Alive?
    ensures Survivors(services, fates) == []
  {
    if services != [] {
      NoSurvivors(services[..|services| - 1], fates[..|services| - 1]);
    }
  }

  /** When every process has died in a shutdown, it is finished and no request waits. */
  lemma ShutdownFinishes(s: State, fates: seq<Fate>)
    requires Reachable(s) && s.inShutdown && s.services != []
    requires |fates| == |s.services| && forall i | 0 <= i < |fates| :: !fates[i].Alive?
    ensures Enabled(s, ChildDeath(fates))
    ensures var t := Next(s, ChildDeath(fates));
            t.services == [] && t.finished == 1 && !t.deathTask && t.asked == Answered(t.log) + t.dropped
  {
    ReachableInv(s);
    NoSurvivors(s.services, fates);
    NextKeepsInv(s, ChildDeath(fates));
  }
}
