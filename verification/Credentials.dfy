// `workload_config` and `publish_config`: double-checked locking around a cache of assumed
// roles, as interleaved steps of any number of tasks. The key is a workload account or a
// publish scope; the two caches behave alike and do not share locks.

module Credentials {
  import opened Wrappers

  // Seconds an entry must outlive the captured time.
  const SKEW: nat := 300

  datatype Config<K> = Config(mintedFor: K, region: Option<string>)

  datatype Entry<K> = Entry(config: Config<K>, expiresAt: nat)

  // Where a task stands; `now` is the time captured on entry.
  datatype Pc<K> =
    | WantRead(now: nat)
    | Reading(now: nat)
    | WantWrite(now: nat)
    | Writing(now: nat)
    | Assuming(now: nat)
    | Done(config: Config<K>)
    | Failed

  datatype Task<K> = Task(key: K, region: Option<string>, pc: Pc<K>)

  type TaskId = nat

  datatype Event<K> =
    | Served(task: TaskId, key: K, now: nat)
    | Called(task: TaskId, key: K, now: nat)
    | Minted(task: TaskId, key: K, expiresAt: nat)
    | Refused(task: TaskId, key: K)

  datatype State<K> = State(
    tasks: map<TaskId, Task<K>>,
    cache: map<K, Entry<K>>,
    readers: set<TaskId>,
    writer: Option<TaskId>,
    history: seq<Event<K>>)

  datatype Step<K> =
    | Start(task: TaskId, key: K, region: Option<string>, now: nat)
    | AcquireRead(task: TaskId)
    | CheckRead(task: TaskId)
    | AcquireWrite(task: TaskId)
    | CheckWrite(task: TaskId, roleConfigured: bool)
    | Succeed(task: TaskId, expiresAt: nat, environmentRegion: Option<string>)
    | Refuse(task: TaskId)

  // `config_for_region`
  function ConfigForRegion<K>(config: Config<K>, region: Option<string>): Config<K> {
    if region.Some? && config.region != region then config.(region := region) else config
  }

  predicate Fresh<K(==)>(cache: map<K, Entry<K>>, key: K, now: nat) {
    key in cache && cache[key].expiresAt > now + SKEW
  }

  function Move<K>(s: State<K>, t: TaskId, pc: Pc<K>): State<K>
    requires t in s.tasks
  {
    s.(tasks := s.tasks[t := s.tasks[t].(pc := pc)])
  }

  // Hand out the cached entry.
  function Serve<K(==)>(s: State<K>, t: TaskId, now: nat): State<K>
    requires t in s.tasks && s.tasks[t].key in s.cache
  {
    var task := s.tasks[t];
    Move(s, t, Done(ConfigForRegion(s.cache[task.key].config, task.region)))
      .(history := s.history + [Served(t, task.key, now)])
  }

  // One step of one task; a step that is not enabled leaves the state alone.
  function Do<K(==)>(s: State<K>, step: Step<K>): State<K> {
    if step.Start? then
      if step.task in s.tasks then s
      else s.(tasks := s.tasks[step.task := Task(step.key, step.region, WantRead(step.now))])
    else if step.task !in s.tasks then s
    else
      var t := step.task;
      var task := s.tasks[t];
      match (step, task.pc)
      case (AcquireRead(_), WantRead(now)) =>
        if s.writer == None then Move(s, t, Reading(now)).(readers := s.readers + {t}) else s
      case (CheckRead(_), Reading(now)) =>
        var released := s.(readers := s.readers - {t});
        if Fresh(s.cache, task.key, now) then Serve(released, t, now) else Move(released, t, WantWrite(now))
      case (AcquireWrite(_), WantWrite(now)) =>
        if s.writer == None && s.readers == {} then Move(s, t, Writing(now)).(writer := Some(t)) else s
      case (CheckWrite(_, configured), Writing(now)) =>
        if Fresh(s.cache, task.key, now) then Serve(s.(writer := None), t, now)
        else if !configured then Move(s.(writer := None), t, Failed)
        else Move(s, t, Assuming(now)).(history := s.history + [Called(t, task.key, now)])
      case (Succeed(_, expiresAt, environmentRegion), Assuming(now)) =>
        var minted := Config(task.key, if task.region.Some? then task.region else environmentRegion);
        Move(s, t, Done(ConfigForRegion(minted, task.region))).(
          cache := s.cache[task.key := Entry(minted, expiresAt)],
          writer := None,
          history := s.history + [Minted(t, task.key, expiresAt)])
      case (Refuse(_), Assuming(now)) =>
        Move(s, t, Failed).(writer := None, history := s.history + [Refused(t, task.key)])
      case _ => s
  }

  function Initial<K>(): State<K> { State(map[], map[], {}, None, []) }

  // Any interleaving is a sequence of steps.
  function Run<K(==)>(steps: seq<Step<K>>): State<K> {
    if steps == [] then Initial() else Do(Run(steps[..|steps| - 1]), steps[|steps| - 1])
  }

  // -- What a history must look like ----------------------------------------------------------

  // The expiry of the entry that stands for a key after a history.
  function Standing<K(==)>(h: seq<Event<K>>, key: K): Option<nat> {
    if h == [] then None
    else
      var last := h[|h| - 1];
      if last.Minted? && last.key == key then Some(last.expiresAt) else Standing(h[..|h| - 1], key)
  }

  predicate Outlives(expiry: Option<nat>, now: nat) { expiry.Some? && expiry.value > now + SKEW }

  // Whether event i is in order, given what came before and right after it.
  ghost predicate InOrder<K>(h: seq<Event<K>>, i: nat)
    requires i < |h|
  {
    match h[i]
    case Served(_, key, now) => Outlives(Standing(h[..i], key), now)
    case Called(t, key, now) =>
      && !Outlives(Standing(h[..i], key), now)
      && (i + 1 < |h| ==>
            h[i + 1] == Refused(t, key) || (h[i + 1].Minted? && h[i + 1].task == t && h[i + 1].key == key))
    case Minted(t, key, _) => i > 0 && h[i - 1].Called? && h[i - 1].task == t && h[i - 1].key == key
    case Refused(t, key) => i > 0 && h[i - 1].Called? && h[i - 1].task == t && h[i - 1].key == key
  }

  ghost predicate Orderly<K>(h: seq<Event<K>>) {
    forall i: nat | i < |h| :: InOrder(h, i)
  }

  // A call is in flight after the history.
  predicate InFlight<K(==)>(h: seq<Event<K>>, t: TaskId, key: K) {
    h != [] && h[|h| - 1].Called? && h[|h| - 1].task == t && h[|h| - 1].key == key
  }

  // -- The invariant ------------------------------------------------------------------------------

  ghost predicate TaskOk<K>(s: State<K>, t: TaskId)
    requires t in s.tasks
  {
    var task := s.tasks[t];
    && (task.pc.Reading? <==> t in s.readers)
    && (task.pc.Writing? || task.pc.Assuming? <==> s.writer == Some(t))
    && (task.pc.Assuming? <==> InFlight(s.history, t, task.key))
    && (task.pc.Done? ==> task.pc.config.mintedFor == task.key)
    && (task.pc.Done? && task.region.Some? ==> task.pc.config.region == task.region)
  }

  ghost predicate Inv<K(!new)>(s: State<K>) {
    && (forall t | t in s.tasks :: TaskOk(s, t))
    && (s.writer.Some? ==> s.writer.value in s.tasks && s.readers == {})
    && s.readers <= s.tasks.Keys
    && (s.history != [] && s.history[|s.history| - 1].Called? ==>
          s.history[|s.history| - 1].task in s.tasks &&
            s.tasks[s.history[|s.history| - 1].task].key == s.history[|s.history| - 1].key)
    && (forall k | k in s.cache :: s.cache[k].config.mintedFor == k)
    && (forall k :: Standing(s.history, k) == if k in s.cache then Some(s.cache[k].expiresAt) else None)
    && Orderly(s.history)
  }

  lemma Append<K>(h: seq<Event<K>>, e: Event<K>)
    requires Orderly(h)
    requires h != [] && h[|h| - 1].Called? ==>
      || e == Refused(h[|h| - 1].task, h[|h| - 1].key)
      || (e.Minted? && e.task == h[|h| - 1].task && e.key == h[|h| - 1].key)
    requires e.Minted? || e.Refused? ==> InFlight(h, e.task, e.key)
    requires e.Served? ==> Outlives(Standing(h, e.key), e.now)
    requires e.Called? ==> !Outlives(Standing(h, e.key), e.now)
    ensures Orderly(h + [e])
  {
    var g := h + [e];
    assert g[..|h|] == h;
    forall i: nat | i < |g| ensures InOrder(g, i) {
      if i < |h| {
        assert InOrder(h, i);
        assert g[..i] == h[..i];
      }
    }
  }

  function StandingAfter<K(==)>(h: seq<Event<K>>, e: Event<K>, k: K): Option<nat> {
    if e.Minted? && e.key == k then Some(e.expiresAt) else Standing(h, k)
  }

  lemma StandingAppend<K(!new)>(h: seq<Event<K>>, e: Event<K>)
    ensures forall k :: Standing(h + [e], k) == StandingAfter(h, e, k)
  {
    assert (h + [e])[..|h|] == h;
  }

  lemma StepKeepsInv<K(!new)>(s: State<K>, step: Step<K>)
    requires Inv(s)
    ensures Inv(Do(s, step))
  {
    hide Inv, Do;
    match step
    case Start(_, _, _, _) => QuietStepKeepsInv(s, step);
    case AcquireRead(_) => QuietStepKeepsInv(s, step);
    case AcquireWrite(_) => QuietStepKeepsInv(s, step);
    case CheckRead(_) => CheckReadKeepsInv(s, step);
    case CheckWrite(_, _) => CheckWriteKeepsInv(s, step);
    case Succeed(_, _, _) => SucceedKeepsInv(s, step);
    case Refuse(_) => RefuseKeepsInv(s, step);
  }

  lemma QuietStepKeepsInv<K(!new)>(s: State<K>, step: Step<K>)
    requires Inv(s) && (step.Start? || step.AcquireRead? || step.AcquireWrite?)
    ensures Inv(Do(s, step))
  {}

  lemma CheckReadKeepsInv<K(!new)>(s: State<K>, step: Step<K>)
    requires Inv(s) && step.CheckRead?
    ensures Inv(Do(s, step))
  {
    LogKeepsOrder(s, step);
  }

  lemma CheckWriteKeepsInv<K(!new)>(s: State<K>, step: Step<K>)
    requires Inv(s) && step.CheckWrite?
    ensures Inv(Do(s, step))
  {
    LogKeepsOrder(s, step);
  }

  lemma SucceedKeepsInv<K(!new)>(s: State<K>, step: Step<K>)
    requires Inv(s) && step.Succeed?
    ensures Inv(Do(s, step))
  {
    LogKeepsOrder(s, step);
  }

  lemma RefuseKeepsInv<K(!new)>(s: State<K>, step: Step<K>)
    requires Inv(s) && step.Refuse?
    ensures Inv(Do(s, step))
  {
    LogKeepsOrder(s, step);
  }

  // Whatever a step logs is in order, and only a mint changes what stands.
  lemma LogKeepsOrder<K(!new)>(s: State<K>, step: Step<K>)
    requires Inv(s)
    ensures
      var h, h' := s.history, Do(s, step).history;
      && Orderly(h')
      && (h' == h || (|h'| == |h| + 1 && h == h'[..|h|]))
      && (h' != h ==> forall k :: Standing(h', k) == StandingAfter(h, h'[|h|], k))
  {
    var h, h' := s.history, Do(s, step).history;
    if |h'| > |h| {
      var e := h'[|h|];
      assert h' == h + [e];
      Append(h, e);
      StandingAppend(h, e);
    }
  }

  lemma {:induction false} RunKeepsInv<K(!new)>(steps: seq<Step<K>>)
    ensures Inv(Run(steps))
  {
    if steps != [] {
      RunKeepsInv(steps[..|steps| - 1]);
      StepKeepsInv(Run(steps[..|steps| - 1]), steps[|steps| - 1]);
    }
  }

  // -- Over every run --------------------------------------------------------------------------------

  predicate Exclusive<K>(pc: Pc<K>) { pc.Writing? || pc.Assuming? }

  // Locks exclude, entries and results were minted for their own key, results have the region
  // that was asked for.
  lemma RunIsSafe<K(!new)>(steps: seq<Step<K>>)
    ensures
      var s := Run(steps);
      && (forall t, u | t in s.tasks && u in s.tasks && Exclusive(s.tasks[t].pc) ::
            !s.tasks[u].pc.Reading? && (Exclusive(s.tasks[u].pc) ==> t == u))
      && (forall k | k in s.cache :: s.cache[k].config.mintedFor == k)
      && (forall t | t in s.tasks && s.tasks[t].pc.Done? ::
            && s.tasks[t].pc.config.mintedFor == s.tasks[t].key
            && (s.tasks[t].region.Some? ==> s.tasks[t].pc.config.region == s.tasks[t].region))
  {
    RunKeepsInv(steps);
    var s := Run(steps);
    forall t, u | t in s.tasks && u in s.tasks && Exclusive(s.tasks[t].pc)
      ensures !s.tasks[u].pc.Reading? && (Exclusive(s.tasks[u].pc) ==> t == u)
    {
      assert TaskOk(s, t) && TaskOk(s, u);
    }
  }

  ghost predicate NotMintedBetween<K>(h: seq<Event<K>>, i: nat, j: nat, key: K)
    requires j <= |h|
  {
    forall m | i < m < j :: !(h[m].Minted? && h[m].key == key)
  }

  lemma {:induction false} StandingSince<K>(h: seq<Event<K>>, i: nat, j: nat, key: K)
    requires i < j <= |h| && h[i].Minted? && h[i].key == key
    requires NotMintedBetween(h, i, j, key)
    ensures Standing(h[..j], key) == Some(h[i].expiresAt)
  {
    if j > i + 1 {
      StandingSince(h, i, j - 1, key);
      assert h[..j][..j - 1] == h[..j - 1];
    }
  }

  // Single flight: while the entry of a successful call stands, only a task for whose captured
  // time it expires too soon calls again.
  lemma SingleFlight<K(!new)>(steps: seq<Step<K>>, i: nat, j: nat)
    requires
      var h := Run(steps).history;
      i < j < |h| && h[i].Minted? && h[j].Called? && h[i].key == h[j].key && NotMintedBetween(h, i, j, h[i].key)
    ensures
      var h := Run(steps).history;
      h[i].expiresAt <= h[j].now + SKEW
  {
    RunKeepsInv(steps);
    var h := Run(steps).history;
    StandingSince(h, i, j, h[i].key);
    assert InOrder(h, j);
  }

  // Calls never overlap, not even for different keys: the answer is the very next event.
  lemma CallsDoNotOverlap<K(!new)>(steps: seq<Step<K>>, i: nat)
    requires i + 1 < |Run(steps).history| && Run(steps).history[i].Called?
    ensures
      var h := Run(steps).history;
      && (h[i + 1].Minted? || h[i + 1].Refused?)
      && h[i + 1].task == h[i].task && h[i + 1].key == h[i].key
  {
    RunKeepsInv(steps);
    assert InOrder(Run(steps).history, i);
  }

  // A cached entry that is handed out outlives the captured time by more than the skew.
  lemma ServedIsFresh<K(!new)>(steps: seq<Step<K>>, i: nat)
    requires i < |Run(steps).history| && Run(steps).history[i].Served?
    ensures
      var h := Run(steps).history;
      Outlives(Standing(h[..i], h[i].key), h[i].now)
  {
    RunKeepsInv(steps);
    assert InOrder(Run(steps).history, i);
  }
}
