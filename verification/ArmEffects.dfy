/**
  What the supervisor's events do, read off the services and the log before and after a step of
  the state machine in module Arm: which result a request gets, and what becomes of each service.
 */
module ArmEffects {
  import opened Common
  import opened Arm

  // ----- Results of requests -----

  /** Names are compared without regard to the case of letters. */
  lemma SameNameIs(a: string, b: string)
    ensures SameName(a, b) <==> |a| == |b| && forall i | 0 <= i < |a| :: SameLetter(a[i], b[i])
  {
  }

  predicate SameLetter(c: char, d: char) {
    || c == d
    || ('A' <= c <= 'Z' && d as int == c as int + 32)
    || ('A' <= d <= 'Z' && c as int == d as int + 32)
  }

  /** The service is the first of that name. */
  ghost predicate Named(services: seq<Service>, name: string, i: nat) {
    i < |services| && SameName(services[i].name, name) && forall k | 0 <= k < i :: !SameName(services[k].name, name)
  }

  ghost predicate Unknown(services: seq<Service>, name: string) {
    forall k | 0 <= k < |services| :: !SameName(services[k].name, name)
  }

  /** The step answers the request, and nothing else, with the result. */
  ghost predicate Replied(s: State, t: State, r: Request, result: Result) {
    t.log == s.log + [Answer(r, result)]
  }

  lemma FindIsNamed(services: seq<Service>, name: string)
    ensures Find(services, name) == |services| <==> Unknown(services, name)
    ensures forall i: nat :: Named(services, name, i) <==> i == Find(services, name) < |services|
  {
    assert Find(services, name) <= |services|;
  }

  lemma OneReply(s: State, t: State, r: Request, a: Result, b: Result)
    requires Replied(s, t, r, a) && Replied(s, t, r, b)
    ensures a == b
  {
    assert t.log[|s.log|] == Answer(r, a) && t.log[|s.log|] == Answer(r, b);
  }

  /** The result with which a START leaves, and what it says of the service before and after. */
  ghost predicate StartTells(s: State, t: State, name: string, result: Result, ok: bool) {
    && (result == InShutdown <==> s.inShutdown)
    && (result == IsNotKnown <==> !s.inShutdown && Unknown(s.services, name))
    && (s.inShutdown || Unknown(s.services, name) ==> t.services == s.services)
    && (forall i: nat | Named(s.services, name, i) && !s.inShutdown :: StartTellsOf(s, t, i, result, ok))
  }

  ghost predicate StartTellsOf(s: State, t: State, i: nat, result: Result, ok: bool) {
    && i < |s.services| == |t.services| && t.services[i].forceStart
    && (result == IsStartedAlready <==> s.services[i].proc)
    && (result == Starting <==> !s.services[i].proc && t.services[i].proc)
    && (result == StartFailed <==> !s.services[i].proc && !t.services[i].proc)
    && (t.services[i].proc <==> s.services[i].proc || ok)
    && (forall k | 0 <= k < |s.services| && k != i :: t.services[k] == s.services[k])
  }

  function StartResult(s: State, name: string, ok: bool): Result {
    var i := Find(s.services, name);
    if s.inShutdown then InShutdown
    else if i == |s.services| then IsNotKnown
    else if s.services[i].proc then IsStartedAlready
    else if ok then Starting
    else StartFailed
  }

  lemma StartLogged(s: State, r: Request, name: string, ok: bool)
    ensures Replied(s, HandleStart(s, r, name, ok), r, StartResult(s, name, ok))
  {
  }

  lemma StartTellsOne(s: State, t: State, name: string, i: nat, ok: bool)
    requires i == Find(s.services, name) < |s.services| && !s.inShutdown
    requires t.services == s.services[i := StartedBy(s.services[i], ok)]
    ensures StartTellsOf(s, t, i, StartResult(s, name, ok), ok)
  {
  }

  /** START is answered at once, with the truth about the service. */
  lemma StartAnswered(s: State, r: Request, name: string, ok: bool) returns (result: Result)
    requires Enabled(s, StartRequest(r, name, ok))
    ensures var t := Next(s, StartRequest(r, name, ok));
            Replied(s, t, r, result) && StartTells(s, t, name, result, ok)
  {
    var u, i := s.(asked := s.asked + multiset{r}), Find(s.services, name);
    FindIsNamed(s.services, name);
    StartTouchesOne(u, r, name, ok);
    StartLogged(u, r, name, ok);
    result := StartResult(s, name, ok);
    if i < |s.services| && !s.inShutdown {
      StartTellsOne(s, Next(s, StartRequest(r, name, ok)), name, i, ok);
    }
  }

  /** What the answer to a STOP says, or that there is none yet. */
  ghost predicate StopTells(s: State, t: State, r: Request, name: string) {
    && (Replied(s, t, r, Stopping) <==> SameName(name, "arm"))
    && (Replied(s, t, r, IsNotKnown) <==> !SameName(name, "arm") && Unknown(s.services, name))
    && (SameName(name, "arm") || Unknown(s.services, name) ==> t.services == s.services)
    && (forall i: nat | Named(s.services, name, i) && !SameName(name, "arm") :: StopTellsOf(s, t, r, i))
  }

  ghost predicate StopTellsOf(s: State, t: State, r: Request, i: nat) {
    && i < |s.services| == |t.services| && !t.services[i].forceStart && t.services[i].proc == s.services[i].proc
    && (Replied(s, t, r, InShutdown) <==> s.inShutdown)
    && (Replied(s, t, r, IsStoppingAlready) <==> !s.inShutdown && s.services[i].killer.Some?)
    && (Replied(s, t, r, IsStoppedAlready) <==>
          !s.inShutdown && s.services[i].killer.None? && !s.services[i].proc)
    && (t.log == s.log <==> !s.inShutdown && s.services[i].killer.None? && s.services[i].proc)
    && t.services[i].killer == (if t.log == s.log then Some(r) else s.services[i].killer)
    && (forall k | 0 <= k < |s.services| && k != i :: t.services[k] == s.services[k])
  }

  /** How a STOP is answered, if at once. */
  function StopResult(s: State, name: string): Option<Result> {
    var i := Find(s.services, name);
    if SameName(name, "arm") then Some(Stopping)
    else if i == |s.services| then Some(IsNotKnown)
    else if s.inShutdown then Some(InShutdown)
    else if s.services[i].killer.Some? then Some(IsStoppingAlready)
    else if !s.services[i].proc then Some(IsStoppedAlready)
    else None
  }

  lemma RepliedIff(s: State, t: State, r: Request, result: Option<Result>)
    requires t.log == match result case Some(x) => s.log + [Answer(r, x)] case None => s.log
    ensures forall x: Result :: Replied(s, t, r, x) <==> result == Some(x)
    ensures t.log == s.log <==> result.None?
  {
    forall x: Result ensures Replied(s, t, r, x) <==> result == Some(x) {
      match result {
        case Some(y) =>
          if Replied(s, t, r, x) {
            OneReply(s, t, r, x, y);
          }
        case None => assert |s.log + [Answer(r, x)]| != |s.log|;
      }
    }
    if result.Some? {
      assert |s.log + [Answer(r, result.value)]| != |s.log|;
    }
  }

  lemma StopLogged(s: State, r: Request, name: string)
    ensures var t := HandleStop(s, r, name);
            t.log == match StopResult(s, name) case Some(x) => s.log + [Answer(r, x)] case None => s.log
  {
  }

  lemma StopTellsOne(s: State, t: State, r: Request, name: string, i: nat)
    requires i == Find(s.services, name) < |s.services| && !SameName(name, "arm")
    requires t.services == s.services[i := StoppedBy(s.services[i], r, s.inShutdown)]
    requires forall x: Result :: Replied(s, t, r, x) <==> StopResult(s, name) == Some(x)
    requires t.log == s.log <==> StopResult(s, name).None?
    ensures StopTellsOf(s, t, r, i)
  {
  }

  /** STOP is answered at once, with the truth about the service, or waits on its process. */
  lemma StopAnswered(s: State, r: Request, name: string)
    requires Enabled(s, StopRequest(r, name))
    ensures StopTells(s, Next(s, StopRequest(r, name)), r, name)
  {
    var u, t, i := s.(asked := s.asked + multiset{r}), Next(s, StopRequest(r, name)), Find(s.services, name);
    FindIsNamed(s.services, name);
    StopTouchesOne(u, r, name);
    StopLogged(u, r, name);
    RepliedIff(s, t, r, StopResult(s, name));
    if i < |s.services| && !SameName(name, "arm") {
      StopTellsOne(s, t, r, name, i);
    }
  }

  /** The process is found dead. */
  predicate Dies(sv: Service, fate: Fate) {
    sv.proc && !fate.Alive?
  }

  ghost predicate DeathOf(services: seq<Service>, fates: seq<Fate>, a: Answer)
    requires |fates| == |services|
  {
    exists i :: 0 <= i < |services| && Dies(services[i], fates[i]) && services[i].killer == Some(a.request)
  }

  lemma {:induction false} StoppedAre(services: seq<Service>, fates: seq<Fate>)
    requires |fates| == |services|
    ensures forall i | 0 <= i < |services| && Dies(services[i], fates[i]) && services[i].killer.Some? ::
              Answer(services[i].killer.value, Stopped) in StoppedAnswers(services, fates)
    ensures forall a | a in StoppedAnswers(services, fates) :: a.result == Stopped && DeathOf(services, fates, a)
  {
    if services != [] {
      var n := |services| - 1;
      StoppedAre(services[..n], fates[..n]);
      forall i | 0 <= i < |services| && Dies(services[i], fates[i]) && services[i].killer.Some?
        ensures Answer(services[i].killer.value, Stopped) in StoppedAnswers(services, fates)
      {
        if i < n {
          assert services[..n][i] == services[i] && fates[..n][i] == fates[i];
        }
      }
      forall a | a in StoppedAnswers(services, fates) ensures a.result == Stopped && DeathOf(services, fates, a) {
        if a in StoppedAnswers(services[..n], fates[..n]) {
          assert DeathOf(services[..n], fates[..n], a);
          var i :| 0 <= i < n && Dies(services[..n][i], fates[..n][i]) && services[..n][i].killer == Some(a.request);
          assert Dies(services[i], fates[i]) && services[i].killer == Some(a.request);
        } else {
          assert a in StoppedAnswer(services[n], fates[n]);
          assert Dies(services[n], fates[n]);
        }
      }
    }
  }

  /** Exactly the requests that wait for a process that died are told that it stopped. */
  lemma DeathsAnswered(s: State, fates: seq<Fate>) returns (news: seq<Answer>)
    requires Enabled(s, ChildDeath(fates))
    ensures Next(s, ChildDeath(fates)).log == s.log + news
    ensures forall i | 0 <= i < |s.services| && Dies(s.services[i], fates[i]) && s.services[i].killer.Some? ::
              Answer(s.services[i].killer.value, Stopped) in news
    ensures forall a | a in news :: a.result == Stopped && DeathOf(s.services, fates, a)
  {
    news := StoppedAnswers(s.services, fates);
    StoppedAre(s.services, fates);
  }

  /** No other event answers anything. */
  lemma OthersAnswerNothing(s: State, e: Event)
    requires Enabled(s, e) && !e.StartRequest? && !e.StopRequest? && !e.ChildDeath?
    ensures Next(s, e).log == s.log
  {
  }

  // ----- What becomes of a service -----

  /** Whether all accept tasks of the service are armed, or none is. */
  predicate AllArmed(sv: Service) {
    forall j | 0 <= j < |sv.accepts| :: sv.accepts[j]
  }

  /** A connection starts its service, which stops listening, and touches no other. */
  lemma AcceptStarts(s: State, i: nat, j: nat, ok: bool)
    requires Enabled(s, Accept(i, j, ok))
    ensures var t := Next(s, Accept(i, j, ok));
            && |t.services| == |s.services| && t.services[i].proc == ok && !Armed(t.services[i])
            && |t.services[i].accepts| == |s.services[i].accepts|
            && forall k | 0 <= k < |s.services| && k != i :: t.services[k] == s.services[k]
  {
  }

  /** The backoff after k crashes, in microseconds: doubling from 1 ms, and 15 minutes from the twentieth on. */
  lemma {:induction false} BackoffTable(crashes: nat)
    ensures Min(BACKOFF_LIMIT, 1000 * Pow2(crashes)) == if crashes < 20 then 1000 * Pow2(crashes) else 900_000_000
    ensures crashes < 20 ==> Pow2(crashes) <= 524_288
    ensures crashes >= 20 ==> Pow2(crashes) >= 1_048_576
  {
    if crashes == 0 {
    } else {
      BackoffTable(crashes - 1);
      if crashes == 20 {
        assert Pow2(19) == 524_288 by {
          assert Pow2(4) == 16 && Pow2(8) == 256 && Pow2(12) == 4096 && Pow2(16) == 65536;
        }
      }
    }
  }

  /** What a death makes of the service, outside shutdown. */
  ghost predicate DeathEffect(a: Service, fate: Fate, now: Time, b: Service) {
    if !Dies(a, fate) then b == a
    else
      && !b.proc && b.killer.None? && b.name == a.name && b.forceStart == a.forceStart
      && |b.accepts| == |a.accepts|
      && (fate.Clean? ==> AllArmed(b) && b.restartAt == 0 && b.backoff == a.backoff)
      && (fate.Crashed? ==>
            && b.accepts == a.accepts && b.restartAt == now + a.backoff
            && b.backoff == Min(900_000_000, if a.backoff < 1000 then 2000 else 2 * a.backoff))
  }

  /** After a clean exit the service listens; after a crash it waits out its backoff, and the timer runs at once. */
  lemma DeathsTakeEffect(s: State, fates: seq<Fate>)
    requires Enabled(s, ChildDeath(fates)) && !s.inShutdown
    ensures var t := Next(s, ChildDeath(fates));
            && |t.services| == |s.services| && !t.inShutdown
            && (forall i | 0 <= i < |s.services| :: DeathEffect(s.services[i], fates[i], s.now, t.services[i]))
            && t.restartTask == (if exists i :: 0 <= i < |s.services| && s.services[i].proc && fates[i].Crashed?
                                 then Some(s.now) else s.restartTask)
  {
  }

  /** What the restart timer makes of the service. */
  ghost predicate TimerEffect(a: Service, now: Time, ok: bool, b: Service) {
    if a.proc || a.restartAt > now || a.restartAt == FOREVER then b == a
    else
      && b.name == a.name && b.forceStart == a.forceStart && b.restartAt == a.restartAt && b.backoff == a.backoff
      && |b.accepts| == |a.accepts|
      && if a.forceStart then b.proc == ok && !Armed(b) else !b.proc && AllArmed(b)
  }

  /** The timer starts the services that are due and run by default, and lets the others that are due listen. */
  lemma TimerTakesEffect(s: State, oks: seq<bool>)
    requires Enabled(s, RestartTimer(oks))
    ensures var t := Next(s, RestartTimer(oks));
            && |t.services| == |s.services|
            && forall i | 0 <= i < |s.services| :: TimerEffect(s.services[i], s.now, oks[i], t.services[i])
  {
  }

  /** A stopped service whose restart lies ahead. */
  predicate Waits(sv: Service, now: Time) {
    !sv.proc && now < sv.restartAt < FOREVER
  }

  /** It is set again for the earliest restart that lies ahead, if there is one. */
  lemma TimerSetForEarliest(s: State, oks: seq<bool>)
    requires Enabled(s, RestartTimer(oks))
    ensures match Next(s, RestartTimer(oks)).restartTask
            case None => forall i | 0 <= i < |s.services| :: !Waits(s.services[i], s.now)
            case Some(at) =>
              && (exists i :: 0 <= i < |s.services| && Waits(s.services[i], s.now) && s.services[i].restartAt == at)
              && (forall i | 0 <= i < |s.services| && Waits(s.services[i], s.now) :: at <= s.services[i].restartAt)
  {
    EarliestRestartIsMin(s.services, s.now);
  }

  // ----- Shutdown -----

  function Procs(services: seq<Service>): (r: seq<bool>)
    ensures |r| == |services|
  {
    seq(|services|, i requires 0 <= i < |services| => services[i].proc)
  }

  /** The services at the given places. */
  ghost predicate Chosen(services: seq<Service>, places: seq<nat>, left: seq<Service>) {
    |left| == |places| && forall k | 0 <= k < |places| :: places[k] < |services| && left[k] == services[places[k]]
  }

  lemma {:induction false} RunningIsChosen(services: seq<Service>)
    ensures Chosen(services, PlacesOf(Procs(services)), Running(services))
  {
    if services != [] {
      var n := |services| - 1;
      RunningIsChosen(services[..n]);
      assert Procs(services)[..n] == Procs(services[..n]);
    }
  }

  /** The start of the shutdown keeps exactly the running services, in order, and ends all listening and timing. */
  lemma ShutdownKeepsRunning(s: State) returns (places: seq<nat>)
    requires Enabled(s, Shutdown)
    ensures var t := Next(s, Shutdown);
            && t.inShutdown && t.restartTask.None? && !t.shutdownTask && |places| == |t.services|
            && Picks(places, Procs(s.services))
            && forall k | 0 <= k < |places| :: t.services[k] == s.services[places[k]].(accepts := [])
  {
    var silent := WithoutListening(s.services);
    RunningIsChosen(silent);
    assert Procs(silent) == Procs(s.services);
    places := PlacesOf(Procs(silent));
    PlacesPick(Procs(silent));
  }

  function StillAlive(services: seq<Service>, fates: seq<Fate>): (r: seq<bool>)
    requires |fates| == |services|
    ensures |r| == |services|
  {
    seq(|services|, i requires 0 <= i < |services| => services[i].proc && fates[i].Alive?)
  }

  lemma {:induction false} AliveIsChosen(services: seq<Service>, fates: seq<Fate>)
    requires |fates| == |services|
    ensures Chosen(services, PlacesOf(StillAlive(services, fates)), Survivors(services, fates))
  {
    if services != [] {
      var n := |services| - 1;
      AliveIsChosen(services[..n], fates[..n]);
      assert StillAlive(services, fates)[..n] == StillAlive(services[..n], fates[..n]);
    }
  }

  /** During shutdown exactly the processes that are still alive stay, in order and as they are. */
  lemma ReapingKeepsAlive(s: State, fates: seq<Fate>) returns (places: seq<nat>)
    requires Enabled(s, ChildDeath(fates)) && s.inShutdown
    ensures var t := Next(s, ChildDeath(fates));
            && t.inShutdown && |places| == |t.services| && Picks(places, StillAlive(s.services, fates))
            && forall k | 0 <= k < |places| :: t.services[k] == s.services[places[k]]
  {
    AliveIsChosen(s.services, fates);
    places := PlacesOf(StillAlive(s.services, fates));
    PlacesPick(StillAlive(s.services, fates));
  }
}
