// The credential machine in terms of its steps: what a task is told comes from the times, regions
// and expiries that the steps of the run carry.

module CredentialRuns {
  import opened Wrappers
  import opened Credentials

  // -- What one step does ----------------------------------------------------------------------

  // The event a step logs and what goes with it. Expiries, times and regions are the step's, the
  // task's or the entry's; an entry is fresh if it outlives the task's time by more than 300
  // seconds.
  lemma EventOfStep<K(!new)>(s: State<K>, step: Step<K>)
    requires Do(s, step).history != s.history
    ensures step.task in s.tasks
    ensures
      var s', t := Do(s, step), step.task;
      var key, region, pc := s.tasks[t].key, s.tasks[t].region, s.tasks[t].pc;
      && |s'.history| == |s.history| + 1 && s'.history[..|s.history|] == s.history
      && match s'.history[|s.history|]
         case Minted(u, k, expiresAt) =>
           && u == t && k == key
           && step.Succeed? && expiresAt == step.expiresAt && pc.Assuming?
           && var minted := Config(key, if region.Some? then region else step.environmentRegion);
           && s'.cache == s.cache[key := Entry(minted, step.expiresAt)]
           && s'.tasks[t].pc == Done(minted)
         case Served(u, k, now) =>
           && u == t && k == key
           && (step.CheckRead? || step.CheckWrite?) && (pc == Reading(now) || pc == Writing(now))
           && k in s.cache && s.cache[k].expiresAt > now + 300
           && s'.cache == s.cache
           && s'.tasks[t].pc ==
             Done(s.cache[k].config.(region := if region.Some? then region else s.cache[k].config.region))
         case Called(u, k, now) =>
           && u == t && k == key
           && step == CheckWrite(t, true) && pc == Writing(now)
           && !(k in s.cache && s.cache[k].expiresAt > now + 300)
           && s'.cache == s.cache
         case Refused(u, k) =>
           && u == t && k == key && step.Refuse? && s'.tasks[t].pc == Failed && s'.cache == s.cache
  {}

  // A step that logs nothing leaves the cache alone.
  lemma QuietStepKeepsCache<K(!new)>(s: State<K>, step: Step<K>)
    requires Do(s, step).history == s.history
    ensures Do(s, step).cache == s.cache
  {}

  // Every success of a call in flight is cached with its expiry, logged, handed to its task, and
  // releases the lock.
  lemma SuccessIsMinted<K(!new)>(s: State<K>, t: TaskId, expiresAt: nat, environmentRegion: Option<string>)
    requires t in s.tasks && s.tasks[t].pc.Assuming?
    ensures
      var s', key := Do(s, Succeed(t, expiresAt, environmentRegion)), s.tasks[t].key;
      && s'.history == s.history + [Minted(t, key, expiresAt)]
      && key in s'.cache && s'.cache[key].expiresAt == expiresAt && s'.cache[key].config.mintedFor == key
      && s'.tasks[t].pc == Done(s'.cache[key].config)
      && s'.writer == None
  {}

  // -- A task that runs alone ----------------------------------------------------------------------

  function After<K(==)>(s: State<K>, steps: seq<Step<K>>): State<K>
    decreases |steps|
  {
    if steps == [] then s else After(Do(s, steps[0]), steps[1..])
  }

  ghost predicate Idle<K>(s: State<K>, t: TaskId) {
    s.writer == None && s.readers == {} && t !in s.tasks
  }

  ghost predicate StaysIdle<K>(s: State<K>, s': State<K>, t: TaskId) {
    && s'.writer == None && s'.readers == {}
    && s'.tasks.Keys == s.tasks.Keys + {t}
    && forall u | u in s.tasks :: s'.tasks[u] == s.tasks[u]
  }

  // With a fresh entry a task is served under the read lock and nothing else changes.
  lemma AloneServed<K(!new)>(s: State<K>, t: TaskId, key: K, region: Option<string>, now: nat)
    requires Idle(s, t) && key in s.cache && s.cache[key].expiresAt > now + 300
    ensures
      var s' := After(s, [Start(t, key, region, now), AcquireRead(t), CheckRead(t)]);
      && StaysIdle(s, s', t) && s'.cache == s.cache
      && s'.tasks[t].pc.Done?
      && s'.tasks[t].pc.config.mintedFor == s.cache[key].config.mintedFor
      && s'.tasks[t].pc.config.region == (if region.Some? then region else s.cache[key].config.region)
  {
    ThreeSteps(s, Start(t, key, region, now), AcquireRead(t), CheckRead(t));
  }

  lemma ThreeSteps<K(!new)>(s: State<K>, a: Step<K>, b: Step<K>, c: Step<K>)
    ensures After(s, [a, b, c]) == Do(Do(Do(s, a), b), c)
  {
    assert [a, b, c][1..] == [b, c] && [b, c][1..] == [c] && [c][1..] == [];
    assert After(Do(Do(s, a), b), [c]) == Do(Do(Do(s, a), b), c);
    assert After(Do(s, a), [b, c]) == Do(Do(Do(s, a), b), c);
  }

  // Without one it asks for the write lock.
  lemma AloneWaits<K(!new)>(s: State<K>, t: TaskId, key: K, region: Option<string>, now: nat)
    requires Idle(s, t) && !(key in s.cache && s.cache[key].expiresAt > now + 300)
    ensures After(s, [Start(t, key, region, now), AcquireRead(t), CheckRead(t)]) ==
      s.(tasks := s.tasks[t := Task(key, region, WantWrite(now))])
  {
    ThreeSteps(s, Start(t, key, region, now), AcquireRead(t), CheckRead(t));
    var reading := Do(Do(s, Start(t, key, region, now)), AcquireRead(t));
    assert reading == s.(tasks := s.tasks[t := Task(key, region, Reading(now))], readers := {t});
    assert {t} - {t} == {};
  }

  // It has the lock then; if the role is configured it calls, else it fails without a call.
  lemma WaitingCalls<K(!new)>(s: State<K>, t: TaskId, key: K, region: Option<string>, now: nat, configured: bool)
    requires s.writer == None && s.readers == {} && t in s.tasks && s.tasks[t] == Task(key, region, WantWrite(now))
    requires !(key in s.cache && s.cache[key].expiresAt > now + 300)
    ensures Do(Do(s, AcquireWrite(t)), CheckWrite(t, configured)) ==
      if configured
      then s.(
        tasks := s.tasks[t := Task(key, region, Assuming(now))],
        writer := Some(t),
        history := s.history + [Called(t, key, now)])
      else s.(tasks := s.tasks[t := Task(key, region, Failed)])
  {
    var writing := Do(s, AcquireWrite(t));
    assert writing == s.(tasks := s.tasks[t := Task(key, region, Writing(now))], writer := Some(t));
  }

  // It ends as the answer says: a success is cached and handed out, with the region asked for or
  // else the environment's; a refusal changes nothing.
  lemma AloneEnds<K(!new)>(
      s: State<K>, t: TaskId, key: K, region: Option<string>, now: nat, answer: Step<K>)
    requires Idle(s, t) && !(key in s.cache && s.cache[key].expiresAt > now + 300)
    requires (answer.Succeed? || answer.Refuse?) && answer.task == t
    ensures
      var s' := After(After(s, [Start(t, key, region, now), AcquireRead(t), CheckRead(t)]),
        [AcquireWrite(t), CheckWrite(t, true), answer]);
      && StaysIdle(s, s', t)
      && match answer
         case Succeed(_, expiresAt, environment) =>
           var minted := Config(key, if region.Some? then region else environment);
           s'.cache == s.cache[key := Entry(minted, expiresAt)] && s'.tasks[t].pc == Done(minted)
         case _ => s'.cache == s.cache && s'.tasks[t].pc == Failed
  {
    AloneWaits(s, t, key, region, now);
    var waiting := s.(tasks := s.tasks[t := Task(key, region, WantWrite(now))]);
    WaitingCalls(waiting, t, key, region, now, true);
    ThreeSteps(waiting, AcquireWrite(t), CheckWrite(t, true), answer);
  }

  lemma AloneUnconfigured<K(!new)>(s: State<K>, t: TaskId, key: K, region: Option<string>, now: nat)
    requires Idle(s, t) && !(key in s.cache && s.cache[key].expiresAt > now + 300)
    ensures
      var s' := Do(Do(After(s, [Start(t, key, region, now), AcquireRead(t), CheckRead(t)]), AcquireWrite(t)),
        CheckWrite(t, false));
      StaysIdle(s, s', t) && s'.cache == s.cache && s'.history == s.history && s'.tasks[t].pc == Failed
  {
    AloneWaits(s, t, key, region, now);
    WaitingCalls(s.(tasks := s.tasks[t := Task(key, region, WantWrite(now))]), t, key, region, now, false);
  }

  // -- From events back to steps ---------------------------------------------------------------------

  // Step n of the run logs event i.
  ghost predicate Logs<K(!new)>(steps: seq<Step<K>>, n: nat, i: nat) {
    && n < |steps|
    && |Run(steps[..n]).history| == i
    && Do(Run(steps[..n]), steps[n]).history != Run(steps[..n]).history
    && i < |Run(steps).history|
    && Do(Run(steps[..n]), steps[n]).history == Run(steps).history[..i + 1]
  }

  lemma {:induction false} EventHasStep<K(!new)>(steps: seq<Step<K>>, i: nat) returns (n: nat)
    requires i < |Run(steps).history|
    ensures Logs(steps, n, i)
  {
    hide Do;
    var rest, last := steps[..|steps| - 1], steps[|steps| - 1];
    var was, now := Run(rest), Run(steps);
    if now.history != was.history {
      EventOfStep(was, last);
    }
    if i < |was.history| {
      n := EventHasStep(rest, i);
      assert steps[..n] == rest[..n];
      assert now.history[..i + 1] == was.history[..i + 1];
    } else {
      n := |steps| - 1;
      assert now.history[..i + 1] == now.history;
    }
  }

  // The time a task has captured.
  function TimeOf<K>(pc: Pc<K>): Option<nat> {
    match pc
    case WantRead(now) => Some(now)
    case Reading(now) => Some(now)
    case WantWrite(now) => Some(now)
    case Writing(now) => Some(now)
    case Assuming(now) => Some(now)
    case Done(_) => None
    case Failed => None
  }

  // A task's key, region and time are those of the step that started it.
  lemma {:induction false} TaskHasStart<K(!new)>(steps: seq<Step<K>>, t: TaskId) returns (m: nat)
    requires t in Run(steps).tasks
    ensures
      var task := Run(steps).tasks[t];
      && m < |steps| && steps[m].Start? && steps[m].task == t
      && steps[m].key == task.key && steps[m].region == task.region
      && (TimeOf(task.pc).Some? ==> TimeOf(task.pc) == Some(steps[m].now))
  {
    var rest, last := steps[..|steps| - 1], steps[|steps| - 1];
    if t in Run(rest).tasks {
      m := TaskHasStart(rest, t);
      TaskStays(Run(rest), last, t);
    } else {
      m := |steps| - 1;
    }
  }

  lemma TaskStays<K(!new)>(s: State<K>, step: Step<K>, t: TaskId)
    requires t in s.tasks
    ensures
      var s' := Do(s, step);
      && t in s'.tasks && s'.tasks[t].key == s.tasks[t].key && s'.tasks[t].region == s.tasks[t].region
      && (TimeOf(s'.tasks[t].pc).Some? ==> TimeOf(s'.tasks[t].pc) == TimeOf(s.tasks[t].pc))
  {}

  // -- Over every run ----------------------------------------------------------------------------------

  // A minted event carries the expiry of the success that logged it.
  lemma MintedBySuccess<K(!new)>(steps: seq<Step<K>>, i: nat) returns (n: nat)
    requires i < |Run(steps).history| && Run(steps).history[i].Minted?
    ensures Logs(steps, n, i)
    ensures
      var h := Run(steps).history;
      steps[n].Succeed? && steps[n].task == h[i].task && steps[n].expiresAt == h[i].expiresAt
  {
    hide Do, Run;
    n := EventHasStep(steps, i);
    EventOfStep(Run(steps[..n]), steps[n]);
    var h := Run(steps).history;
    assert h[..i + 1][i] == h[i];
  }

  // What stands was minted by an event.
  lemma {:induction false} StandingIsMinted<K(!new)>(h: seq<Event<K>>, key: K) returns (i: nat)
    requires Standing(h, key).Some?
    ensures i < |h| && h[i].Minted? && h[i].key == key && Standing(h, key) == Some(h[i].expiresAt)
  {
    var last := h[|h| - 1];
    if last.Minted? && last.key == key {
      i := |h| - 1;
    } else {
      i := StandingIsMinted(h[..|h| - 1], key);
    }
  }

  // Every cached expiry is that of a success.
  lemma CachedBySuccess<K(!new)>(steps: seq<Step<K>>, key: K) returns (n: nat)
    requires key in Run(steps).cache
    ensures n < |steps| && steps[n].Succeed? && steps[n].expiresAt == Run(steps).cache[key].expiresAt
    ensures steps[n].task in Run(steps[..n]).tasks && Run(steps[..n]).tasks[steps[n].task].key == key
  {
    hide Do, Run;
    RunKeepsInv(steps);
    var h := Run(steps).history;
    var i := StandingIsMinted(h, key);
    n := MintedBySuccess(steps, i);
    EventOfStep(Run(steps[..n]), steps[n]);
    assert h[..i + 1][i] == h[i];
  }

  // Whoever is served started at a time that the expiry of a success for the same key outlives by
  // more than 300 seconds.
  lemma ServedOutlives<K(!new)>(steps: seq<Step<K>>, j: nat) returns (m: nat, n: nat)
    requires j < |Run(steps).history| && Run(steps).history[j].Served?
    ensures
      var served := Run(steps).history[j];
      && m < |steps| && steps[m].Start? && steps[m].task == served.task && steps[m].key == served.key
      && n < |steps| && steps[n].Succeed?
      && steps[n].task in Run(steps[..n]).tasks && Run(steps[..n]).tasks[steps[n].task].key == served.key
      && steps[n].expiresAt > steps[m].now + 300
  {
    hide Do, Run;
    var p := EventHasStep(steps, j);
    var h := Run(steps).history;
    assert h[..j + 1][j] == h[j];
    EventOfStep(Run(steps[..p]), steps[p]);
    m := TaskHasStart(steps[..p], steps[p].task);
    n := CachedBySuccess(steps[..p], h[j].key);
    assert steps[..p][..n] == steps[..n];
  }

  // Single flight in terms of steps: after a success with some expiry, while no other success for
  // the key comes between, only a task that started less than 300 seconds before that expiry, or
  // later, calls again.
  lemma SingleFlightOfSteps<K(!new)>(steps: seq<Step<K>>, i: nat, j: nat) returns (n: nat, m: nat)
    requires
      var h := Run(steps).history;
      i < j < |h| && h[i].Minted? && h[j].Called? && h[i].key == h[j].key && NotMintedBetween(h, i, j, h[i].key)
    ensures
      var h := Run(steps).history;
      && n < |steps| && steps[n].Succeed? && steps[n].task == h[i].task && steps[n].expiresAt == h[i].expiresAt
      && m < |steps| && steps[m].Start? && steps[m].task == h[j].task && steps[m].key == h[j].key
      && steps[n].expiresAt <= steps[m].now + 300
  {
    hide Do, Run;
    SingleFlight(steps, i, j);
    n := MintedBySuccess(steps, i);
    var p := EventHasStep(steps, j);
    var h := Run(steps).history;
    assert h[..j + 1][j] == h[j];
    EventOfStep(Run(steps[..p]), steps[p]);
    m := TaskHasStart(steps[..p], steps[p].task);
  }
}
