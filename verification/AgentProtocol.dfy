/** The playback protocol as a transition system: core commands, the 250 ms tick, the status
    ticker, spawned play tasks and spawned prefetch tasks, interleaved one lock-held section at
    a time.  The player and the network answer as they like. */
module AgentProtocol {
  import opened AgentRuntime
  import opened MachineWords
  import opened Wrappers

  /** How far a spawned play task has come; Fetching and Calling are outside the lock. */
  datatype PlayPc = Starting | Fetching | Checking | Calling | Accepted | Rejected | Failing

  datatype PlayTask = PlayTask(source: SourceRef, generation: u64, pc: PlayPc)

  datatype PrefetchTask = PrefetchTask(source: SourceRef, opening: bool)

  /** The record, the tasks in flight, how many were ever spawned, and how often the generation moved on. */
  datatype System = System(
    rt: Runtime,
    plays: map<nat, PlayTask>,
    prefetches: map<nat, PrefetchTask>,
    spawned: nat,
    bumps: nat)

  const INITIAL := System(
    Runtime([], map[], None, None, None, None, 0, None, None, false, false, false), map[], map[], 0, 0)

  datatype Event =
    | PlaySource(source: SourceRef, queue: seq<SourceRef>, url: string, now: nat)
    | PreFetch(source: SourceRef)
    | Stop
    | Next
    | SetQueue(queue: seq<SourceRef>)
    | SetLoopMode(repeatOne: bool)
    | Tick(player: PlayerView, now: nat, fallback: string, result: TickResult)
    | Ticker(fileName: Option<string>, streamQueueLen: nat, now: nat, advanced: bool)
    | PlayTaskMoves(id: nat, claimed: Option<Handle>, succeeds: bool, now: nat)
    | PrefetchTaskMoves(id: nat, proceed: bool, outcome: Option<Handle>)

  /** Commands that replace the queue. */
  predicate SetsQueue(e: Event) {
    e.PlaySource? || e.Stop? || e.SetQueue?
  }

  // ----- Steps -----

  function Spawned(s: System, rt: Runtime, source: SourceRef): System {
    s.(rt := rt, plays := s.plays[s.spawned := PlayTask(source, rt.generation, Starting)],
       spawned := s.spawned + 1, bumps := s.bumps + 1)
  }

  ghost predicate Step(s: System, e: Event, s': System) {
    match e
    case PlaySource(source, queue, url, now) =>
      && PlaySourceStep(s.rt, s'.rt, source, queue, url, now)
      && s' == Spawned(s, s'.rt, source)
    case PreFetch(source) =>
      s' == s.(prefetches := s.prefetches[s.spawned := PrefetchTask(source, false)], spawned := s.spawned + 1)
    case Stop =>
      s' == s.(rt := Stopped(s.rt), bumps := s.bumps + 1)
    case Next =>
      s' == s.(rt := s.rt.(skipRequested := true))
    case SetQueue(queue) =>
      SetQueueStep(s.rt, s'.rt, queue) && s' == s.(rt := s'.rt)
    case SetLoopMode(repeatOne) =>
      s' == s.(rt := LoopModeSet(s.rt, repeatOne))
    case Tick(player, now, fallback, result) =>
      && TickStep(s.rt, s'.rt, player, now, fallback, result)
      && s' == if result.Play? then Spawned(s, s'.rt, result.source) else s.(rt := s'.rt)
    case Ticker(fileName, streamQueueLen, now, advanced) =>
      && SynchronizeStep(s.rt, s'.rt, fileName, streamQueueLen, now, advanced)
      && s' == s.(rt := s'.rt, bumps := if advanced then s.bumps + 1 else s.bumps)
    case PlayTaskMoves(id, claimed, succeeds, now) =>
      id in s.plays && PlayTaskStep(s, s', id, claimed, succeeds, now)
    case PrefetchTaskMoves(id, proceed, outcome) =>
      id in s.prefetches && PrefetchTaskStep(s, s', id, proceed, outcome)
  }

  ghost predicate PlayTaskStep(s: System, s': System, id: nat, claimed: Option<Handle>, succeeds: bool, now: nat)
    requires id in s.plays
  {
    var task := s.plays[id];
    var ended := s.plays - {id};
    match task.pc
    case Starting =>
      && PlayBeginStep(s.rt, s'.rt, task.source.key, claimed)
      && s' == s.(rt := s'.rt, plays := s.plays[id := task.(pc := if claimed.Some? then Checking else Fetching)])
    case Fetching =>
      s' == s.(plays := s.plays[id := task.(pc := if succeeds then Checking else Failing)])
    case Checking =>
      s' == s.(plays := if StillCurrent(s.rt, task.generation, task.source.key)
                        then s.plays[id := task.(pc := Calling)] else ended)
    case Calling =>
      s' == s.(plays := s.plays[id := task.(pc := if succeeds then Accepted else Rejected)])
    case Accepted =>
      s' == s.(rt := LoadStarted(s.rt, task.generation, now), plays := ended)
    case Rejected =>
      s' == s.(rt := LoadCleared(s.rt, task.generation), plays := ended)
    case Failing =>
      s' == s.(rt := LoadCleared(s.rt, task.generation), plays := ended)
  }

  ghost predicate PrefetchTaskStep(s: System, s': System, id: nat, proceed: bool, outcome: Option<Handle>)
    requires id in s.prefetches
  {
    var task := s.prefetches[id];
    if !task.opening then
      && PrefetchBeginStep(s.rt, s'.rt, task.source.key, proceed)
      && s' == s.(rt := s'.rt, prefetches := if proceed then s.prefetches[id := task.(opening := true)]
                                             else s.prefetches - {id})
    else
      && PrefetchEndStep(s.rt, s'.rt, task.source, outcome)
      && s' == s.(rt := s'.rt, prefetches := s.prefetches - {id})
  }

  ghost predicate Run(states: seq<System>, events: seq<Event>) {
    && |states| == |events| + 1
    && forall i | 0 <= i < |events| :: Step(states[i], events[i], states[i + 1])
  }

  // ----- Loads -----

  /** Task id carries generation g for the current source. */
  ghost predicate Carries(s: System, id: nat, g: u64) {
    && id in s.plays && s.plays[id].generation == g
    && s.rt.currentSource.Some? && s.rt.currentSource.value.key == s.plays[id].source.key
  }

  /** A load is outstanding exactly while one unfinished task carries the current generation. */
  ghost predicate LoadsTracked(s: System) {
    && s.rt.generation == s.bumps
    && (forall id | id in s.plays :: id < s.spawned && s.plays[id].generation <= s.bumps)
    && (forall id, other | id in s.plays && other in s.plays && id != other ::
          s.plays[id].generation != s.plays[other].generation)
    && (s.rt.loadingGeneration.Some? ==>
          s.rt.loadingGeneration.value == s.rt.generation && exists id :: Carries(s, id, s.rt.generation))
    && (forall id | id in s.plays && s.plays[id].generation == s.rt.generation ::
          s.rt.loadingGeneration.Some? && Carries(s, id, s.rt.generation))
  }

  /** What no section but the generation-changing ones touches. */
  predicate SameLoad(a: Runtime, b: Runtime) {
    a.generation == b.generation && a.loadingGeneration == b.loadingGeneration && a.currentSource == b.currentSource
  }

  lemma SetQueueKeepsLoad(a: Runtime, b: Runtime, queue: seq<SourceRef>)
    requires SetQueueStep(a, b, queue)
    ensures SameLoad(a, b)
  {
    hide Trimmed;
  }

  lemma PlayBeginKeepsLoad(a: Runtime, b: Runtime, key: Key, claimed: Option<Handle>)
    requires PlayBeginStep(a, b, key, claimed)
    ensures SameLoad(a, b)
  {
    hide Trimmed;
  }

  lemma PrefetchBeginKeepsLoad(a: Runtime, b: Runtime, key: Key, proceed: bool)
    requires PrefetchBeginStep(a, b, key, proceed)
    ensures SameLoad(a, b)
  {
    hide Trimmed;
  }

  lemma PrefetchEndKeepsLoad(a: Runtime, b: Runtime, source: SourceRef, outcome: Option<Handle>)
    requires PrefetchEndStep(a, b, source, outcome)
    ensures SameLoad(a, b)
  {
    hide Trimmed;
  }

  /** Every step keeps loads tracked, until the generation counter has wrapped. */
  lemma LoadsStayTracked(s: System, e: Event, s': System)
    requires Step(s, e, s') && LoadsTracked(s) && s'.bumps < TWO_TO_64
    ensures LoadsTracked(s')
  {
    match e
    case PlaySource(source, queue, url, now) =>
      NewLoadIsTracked(s, s', source);
    case Tick(player, now, fallback, result) =>
      if result.Play? {
        NewLoadIsTracked(s, s', result.source);
      } else {
        TickIdles(s, e, s');
      }
    case Ticker(fileName, streamQueueLen, now, advanced) =>
      if !advanced {
        LoadUntouched(s, s');
      }
    case SetQueue(queue) =>
      SetQueueKeepsLoad(s.rt, s'.rt, queue);
      LoadUntouched(s, s');
    case SetLoopMode(repeatOne) =>
      LoadUntouched(s, s');
    case PrefetchTaskMoves(id, proceed, outcome) =>
      var source := s.prefetches[id].source;
      if s.prefetches[id].opening {
        PrefetchEndKeepsLoad(s.rt, s'.rt, source, outcome);
      } else {
        PrefetchBeginKeepsLoad(s.rt, s'.rt, source.key, proceed);
      }
      LoadUntouched(s, s');
    case PlayTaskMoves(id, claimed, succeeds, now) =>
      PlayTaskKeepsTrack(s, e, s');
    case Stop =>
    case PreFetch(_) =>
      LoadUntouched(s, s');
    case Next =>
      LoadUntouched(s, s');
  }

  lemma NewLoadIsTracked(s: System, s': System, source: SourceRef)
    requires LoadsTracked(s) && s'.bumps < TWO_TO_64
    requires s'.rt.generation == WrappingAdd(s.rt.generation, 1) && s'.rt.loadingGeneration == Some(s'.rt.generation)
    requires s'.rt.currentSource == Some(source)
    requires s'.plays == s.plays[s.spawned := PlayTask(source, s'.rt.generation, Starting)]
    requires s'.bumps == s.bumps + 1 && s'.spawned == s.spawned + 1
    ensures LoadsTracked(s')
  {
    assert Carries(s', s.spawned, s'.rt.generation);
  }

  lemma LoadUntouched(s: System, s': System)
    requires LoadsTracked(s) && SameLoad(s.rt, s'.rt) && s'.plays == s.plays && s'.bumps == s.bumps
    requires s'.spawned >= s.spawned
    ensures LoadsTracked(s')
  {
    if s.rt.loadingGeneration.Some? {
      var id :| Carries(s, id, s.rt.generation);
      assert Carries(s', id, s'.rt.generation);
    }
    assert forall id | id in s.plays && s.plays[id].generation == s.rt.generation :: Carries(s, id, s.rt.generation);
  }

  /** A tick that plays nothing changes the current source only when no load is outstanding. */
  lemma TickIdles(s: System, e: Event, s': System)
    requires Step(s, e, s') && e.Tick? && !e.result.Play? && LoadsTracked(s)
    ensures LoadsTracked(s')
  {
    if TickSelects(s.rt, e.player, e.now) {
      assert s.rt.loadingGeneration.None?;
    } else {
      LoadUntouched(s, s');
    }
  }

  lemma PlayTaskKeepsTrack(s: System, e: Event, s': System)
    requires Step(s, e, s') && e.PlayTaskMoves? && LoadsTracked(s)
    ensures LoadsTracked(s')
  {
    hide PlayBeginStep;
    var id := e.id;
    var task := s.plays[id];
    if task.pc.Starting? {
      PlayBeginKeepsLoad(s.rt, s'.rt, task.source.key, e.claimed);
    }
    if task.generation == s.rt.generation {
      assert Carries(s, id, s.rt.generation);
    }
    if id in s'.plays {
      TaskMovesOn(s, s', id);
    } else {
      TaskEnds(s, s', id);
    }
  }

  lemma TaskMovesOn(s: System, s': System, id: nat)
    requires LoadsTracked(s) && SameLoad(s.rt, s'.rt) && s'.bumps == s.bumps && s'.spawned == s.spawned
    requires id in s.plays && id in s'.plays && s'.plays == s.plays[id := s.plays[id].(pc := s'.plays[id].pc)]
    ensures LoadsTracked(s')
  {
    if s.rt.loadingGeneration.Some? {
      var carrier :| Carries(s, carrier, s.rt.generation);
      assert Carries(s', carrier, s.rt.generation);
    }
    forall other | other in s'.plays && s'.plays[other].generation == s'.rt.generation
      ensures s'.rt.loadingGeneration.Some? && Carries(s', other, s'.rt.generation)
    {
      assert Carries(s, other, s.rt.generation);
    }
  }

  /** Ending clears the mark if it is the task's own, and then no other task had a claim to it. */
  lemma TaskEnds(s: System, s': System, id: nat)
    requires LoadsTracked(s) && s'.bumps == s.bumps && s'.spawned == s.spawned
    requires id in s.plays && s'.plays == s.plays - {id}
    requires s'.rt.generation == s.rt.generation && s'.rt.currentSource == s.rt.currentSource
    requires s'.rt.loadingGeneration ==
             if s.plays[id].generation == s.rt.generation then None else s.rt.loadingGeneration
    ensures LoadsTracked(s')
  {
    if s'.rt.loadingGeneration.Some? {
      var carrier :| Carries(s, carrier, s.rt.generation);
      assert Carries(s', carrier, s.rt.generation);
    }
    forall other | other in s'.plays && s'.plays[other].generation == s'.rt.generation
      ensures s'.rt.loadingGeneration.Some? && Carries(s', other, s'.rt.generation)
    {
      assert Carries(s, other, s.rt.generation);
    }
  }

  lemma {:induction false} RunTracksLoads(states: seq<System>, events: seq<Event>, n: nat)
    requires Run(states, events) && states[0] == INITIAL && n < |states| && states[n].bumps < TWO_TO_64
    ensures LoadsTracked(states[n])
  {
    if n > 0 {
      assert Step(states[n - 1], events[n - 1], states[n]);
      BumpsGrow(states[n - 1], events[n - 1], states[n]);
      RunTracksLoads(states, events, n - 1);
      LoadsStayTracked(states[n - 1], events[n - 1], states[n]);
    }
  }

  lemma BumpsGrow(s: System, e: Event, s': System)
    requires Step(s, e, s')
    ensures s.bumps <= s'.bumps <= s.bumps + 1
  {
  }

  /** In every interleaving with fewer than 2^64 generations: no load is marked, or the marked
      one is the current generation and exactly one unfinished task carries it, for the
      current source. So a tick held back by a load is held back by a task still in flight. */
  lemma LoadingMeansOneTask(states: seq<System>, events: seq<Event>, n: nat)
    requires Run(states, events) && states[0] == INITIAL && n < |states| && states[n].bumps < TWO_TO_64
    ensures var s := states[n];
      s.rt.loadingGeneration.None? ||
      (&& s.rt.loadingGeneration.value == s.rt.generation
       && exists id :: Carries(s, id, s.rt.generation) &&
                       forall other | other in s.plays && other != id :: s.plays[other].generation != s.rt.generation)
  {
    RunTracksLoads(states, events, n);
  }

  /** However a play task ends, no load stays marked on its behalf; the early return of a
      superseded task in particular leaves nothing behind. */
  lemma EveryExitClears(states: seq<System>, events: seq<Event>, n: nat)
    requires Run(states, events) && states[0] == INITIAL && n < |events| && states[n].bumps < TWO_TO_64
    requires events[n].PlayTaskMoves? && events[n].id !in states[n + 1].plays
    ensures states[n + 1].rt.loadingGeneration != Some(states[n].plays[events[n].id].generation)
    ensures states[n].plays[events[n].id].pc.Checking? ==>
      states[n].plays[events[n].id].generation != states[n].rt.generation
  {
    RunTracksLoads(states, events, n);
    var s, id := states[n], events[n].id;
    assert Step(s, events[n], states[n + 1]);
    if s.plays[id].generation == s.rt.generation {
      assert Carries(s, id, s.rt.generation);
    }
  }

  /** Steps a play task still has before it ends. */
  function Remaining(pc: PlayPc): nat {
    match pc
    case Starting => 5
    case Fetching => 4
    case Checking => 3
    case Calling => 2
    case _ => 1
  }

  /** A play task ends after at most five moves of its own, and nothing else moves it. */
  lemma PlayTasksFinish(s: System, e: Event, s': System, id: nat)
    requires Step(s, e, s') && id in s.plays && id < s.spawned
    ensures if e.PlayTaskMoves? && e.id == id
            then id !in s'.plays || Remaining(s'.plays[id].pc) < Remaining(s.plays[id].pc)
            else id in s'.plays && s'.plays[id] == s.plays[id]
  {
  }

  // ----- The queue -----

  /** At most two streams are kept, all of them for the current source or a queued one. */
  ghost predicate StoreSound(rt: Runtime) {
    |rt.prefetched| <= AGENT_MAX_PREFETCHED_STREAMS && rt.prefetched.Keys <= RelevantKeys(rt)
  }

  /** An armed source is the front of the queue, and repeat-one arms nothing. */
  ghost predicate ArmedIsFront(rt: Runtime) {
    rt.enginePrefetched.Some? ==>
      rt.queue != [] && rt.queue[0].key == rt.enginePrefetched.value.source.key && !rt.repeatOne
  }

  lemma RetainedIsSound(a: Runtime, b: Runtime, preferred: Option<Key>)
    requires Retained(a, b, preferred)
    ensures StoreSound(b)
  {
    assert RelevantKeys(b) == RelevantKeys(a);
  }

  lemma SmallerStoreIsSound(a: Runtime, keys: set<Key>)
    requires StoreSound(a)
    ensures StoreSound(a.(prefetched := a.prefetched - keys))
  {
    var b := a.prefetched - keys;
    CardinalityOfSubset(b.Keys, a.prefetched.Keys);
    assert |b.Keys| == |b| && |a.prefetched.Keys| == |a.prefetched|;
    assert RelevantKeys(a.(prefetched := b)) == RelevantKeys(a);
  }

  lemma {:induction false} CardinalityOfSubset<T>(a: set<T>, b: set<T>)
    requires a <= b
    ensures |a| <= |b|
  {
    if a != {} {
      var x :| x in a;
      CardinalityOfSubset(a - {x}, b - {x});
    }
  }

  lemma FrontArmedIsSound(a: Runtime)
    requires StoreSound(a) && ArmedIsFront(a)
    ensures StoreSound(FrontArmed(a)) && ArmedIsFront(FrontArmed(a)) && FrontArmed(a).queue == a.queue
  {
    if FrontArmed(a) != a {
      hide RelevantKeys;
      SmallerStoreIsSound(a, {a.queue[0].key});
      SameRelevantKeys(a.(prefetched := a.prefetched - {a.queue[0].key}), FrontArmed(a));
    }
  }

  lemma SetQueueIsSound(a: Runtime, b: Runtime, queue: seq<SourceRef>)
    requires SetQueueStep(a, b, queue) && ArmedIsFront(a)
    ensures StoreSound(b) && ArmedIsFront(b)
  {
    hide Retained, FrontArmed, StoreSound;
    var kept: Runtime :| Retained(a.(queue := queue), kept, None) &&
      b == if kept.enginePrefetched.Some? && queue != [] && queue[0].key == kept.enginePrefetched.value.source.key
           then kept else FrontArmed(kept.(enginePrefetched := None));
    RetainedIsSound(a.(queue := queue), kept, None);
    RetainedKeepsRest(a.(queue := queue), kept, None);
    StoreIgnoresEngine(kept, kept.(enginePrefetched := None));
    FrontArmedIsSound(kept.(enginePrefetched := None));
  }

  lemma RetainedKeepsRest(a: Runtime, b: Runtime, preferred: Option<Key>)
    requires Retained(a, b, preferred)
    ensures b == a.(prefetched := b.prefetched)
  {
  }

  lemma StoreIgnoresEngine(a: Runtime, b: Runtime)
    requires StoreSound(a) && b.prefetched == a.prefetched && b.queue == a.queue && b.currentSource == a.currentSource
    ensures StoreSound(b)
  {
    assert RelevantKeys(a) == RelevantKeys(b);
  }

  lemma PrefetchEndIsSound(a: Runtime, b: Runtime, source: SourceRef, outcome: Option<Handle>)
    requires PrefetchEndStep(a, b, source, outcome) && StoreSound(a) && ArmedIsFront(a)
    ensures StoreSound(b) && ArmedIsFront(b) && b.queue == a.queue && b.currentSource == a.currentSource
  {
    hide Retained, StoreSound, StreamPlaced;
    var cleared := if a.prefetchingKey == Some(source.key) then a.(prefetchingKey := None) else a;
    StoreIgnoresEngine(a, cleared);
    if outcome.Some? {
      var kept: Runtime :| Retained(cleared, kept, None) && StreamPlaced(kept, b, source, outcome.value);
      RetainedIsSound(cleared, kept, None);
      RetainedKeepsRest(cleared, kept, None);
      PlacedIsSound(kept, b, source, outcome.value);
    }
  }

  lemma PlacedIsSound(a: Runtime, b: Runtime, source: SourceRef, handle: Handle)
    requires StreamPlaced(a, b, source, handle) && StoreSound(a) && ArmedIsFront(a)
    ensures StoreSound(b) && ArmedIsFront(b) && b.queue == a.queue && b.currentSource == a.currentSource
  {
    hide RelevantKeys;
    SameRelevantKeys(a, b);
  }

  lemma SameRelevantKeys(a: Runtime, b: Runtime)
    ensures b.queue == a.queue && b.currentSource == a.currentSource ==> RelevantKeys(b) == RelevantKeys(a)
  {
  }

  /** The keys a step moves from the queue to the player. */
  function Takes(s: System, e: Event): seq<Key> {
    match e
    case Tick(_, _, _, result) =>
      if result.Play? && !(s.rt.repeatOne && !s.rt.skipRequested) then [result.source.key] else []
    case Ticker(_, _, _, advanced) =>
      if advanced && s.rt.enginePrefetched.Some? then [s.rt.enginePrefetched.value.source.key] else []
    case _ => []
  }

  /** Every step keeps the armed source at the front and the store sound, loses no queued key,
      and makes current exactly what it takes. */
  lemma StepKeepsQueue(s: System, e: Event, s': System)
    requires Step(s, e, s') && StoreSound(s.rt) && ArmedIsFront(s.rt)
    ensures StoreSound(s'.rt) && ArmedIsFront(s'.rt)
    ensures !SetsQueue(e) ==> Keys(s.rt.queue) == Takes(s, e) + Keys(s'.rt.queue)
    ensures Takes(s, e) != [] ==> s'.rt.currentSource.Some? && Takes(s, e) == [s'.rt.currentSource.value.key]
    ensures !SetsQueue(e) && Takes(s, e) == [] ==>
      s'.rt.currentSource == s.rt.currentSource || s'.rt.currentSource.None?
  {
    hide PlaySourceStep, SetQueueStep, TickStep, SynchronizeStep, PlayBeginStep, PrefetchBeginStep, PrefetchEndStep;
    hide StoreSound, ArmedIsFront, LoopModeSet, Stopped, Keys;
    match e
    case PlaySource(source, queue, url, now) =>
      PlaySourceIsSound(s.rt, s'.rt, source, queue, url, now);
    case SetQueue(queue) =>
      SetQueueIsSound(s.rt, s'.rt, queue);
    case SetLoopMode(repeatOne) =>
      LoopModeIsSound(s.rt, repeatOne);
    case Tick(player, now, fallback, result) =>
      TickKeepsQueue(s.rt, s'.rt, player, now, fallback, result);
    case Ticker(fileName, streamQueueLen, now, advanced) =>
      TickerKeepsQueue(s.rt, s'.rt, fileName, streamQueueLen, now, advanced);
    case PlayTaskMoves(id, claimed, succeeds, now) =>
      if s.plays[id].pc.Starting? {
        PlayBeginIsSound(s.rt, s'.rt, s.plays[id].source.key, claimed);
      } else {
        SoundIgnoresLoad(s.rt, s'.rt);
      }
    case PrefetchTaskMoves(id, proceed, outcome) =>
      var source := s.prefetches[id].source;
      if s.prefetches[id].opening {
        PrefetchEndIsSound(s.rt, s'.rt, source, outcome);
      } else {
        PrefetchBeginIsSound(s.rt, s'.rt, source.key, proceed);
      }
    case Stop =>
      StoppedIsSound(s.rt);
    case PreFetch(_) =>
    case Next =>
      SoundIgnoresLoad(s.rt, s'.rt);
  }

  lemma PlaySourceIsSound(a: Runtime, b: Runtime, source: SourceRef, queue: seq<SourceRef>, url: string, now: nat)
    requires PlaySourceStep(a, b, source, queue, url, now)
    ensures StoreSound(b) && ArmedIsFront(b)
  {
    hide Retained, StoreSound;
    var begun := LoadBegun(a.(queue := queue, streamBaseUrl := Some(url)), source, now);
    RetainedIsSound(begun, b, Some(source.key));
    RetainedKeepsRest(begun, b, Some(source.key));
  }

  lemma StoppedIsSound(a: Runtime)
    ensures StoreSound(Stopped(a)) && ArmedIsFront(Stopped(a))
  {
  }

  lemma SoundIgnoresLoad(a: Runtime, b: Runtime)
    requires StoreSound(a) && ArmedIsFront(a)
    requires b.prefetched == a.prefetched && b.queue == a.queue && b.currentSource == a.currentSource
    requires b.enginePrefetched == a.enginePrefetched && b.repeatOne == a.repeatOne
    ensures StoreSound(b) && ArmedIsFront(b)
  {
    hide StoreSound;
    StoreIgnoresEngine(a, b);
  }

  lemma PrefetchBeginIsSound(a: Runtime, b: Runtime, key: Key, proceed: bool)
    requires PrefetchBeginStep(a, b, key, proceed) && ArmedIsFront(a)
    ensures StoreSound(b) && ArmedIsFront(b) && b.queue == a.queue && b.currentSource == a.currentSource
  {
    hide Retained, StoreSound;
    var kept := b.(prefetchingKey := a.prefetchingKey);
    RetainedIsSound(a, kept, None);
    RetainedKeepsRest(a, kept, None);
    StoreIgnoresEngine(kept, b);
  }

  lemma LoopModeIsSound(a: Runtime, repeatOne: bool)
    requires StoreSound(a) && ArmedIsFront(a)
    ensures var b := LoopModeSet(a, repeatOne);
      StoreSound(b) && ArmedIsFront(b) && b.queue == a.queue && b.currentSource == a.currentSource
  {
    hide StoreSound;
    var b := a.(repeatOne := repeatOne);
    StoreIgnoresEngine(a, b);
    StoreIgnoresEngine(a, b.(enginePrefetched := None));
    if !repeatOne {
      FrontArmedIsSound(b);
    }
  }

  lemma PlayBeginIsSound(a: Runtime, b: Runtime, key: Key, claimed: Option<Handle>)
    requires PlayBeginStep(a, b, key, claimed) && ArmedIsFront(a)
    ensures StoreSound(b) && ArmedIsFront(b) && b.queue == a.queue && b.currentSource == a.currentSource
  {
    hide Retained, StoreSound;
    var kept: Runtime :| Retained(a, kept, Some(key)) && b == kept.(prefetched := kept.prefetched - {key});
    RetainedIsSound(a, kept, Some(key));
    RetainedKeepsRest(a, kept, Some(key));
    SmallerStoreIsSound(kept, {key});
  }

  lemma TickKeepsQueue(a: Runtime, b: Runtime, player: PlayerView, now: nat, fallback: string, result: TickResult)
    requires TickStep(a, b, player, now, fallback, result) && StoreSound(a) && ArmedIsFront(a)
    ensures StoreSound(b) && ArmedIsFront(b)
    ensures Keys(a.queue) ==
            (if result.Play? && !(a.repeatOne && !a.skipRequested) then [result.source.key] else []) + Keys(b.queue)
    ensures if result.Play? then b.currentSource == Some(result.source)
            else b.currentSource == a.currentSource || b.currentSource.None?
    ensures result.Play? && a.repeatOne && !a.skipRequested ==> b.currentSource == a.currentSource
  {
    hide Retained, StoreSound;
    if !TickSelects(a, player, now) {
      StoreIgnoresEngine(a, b);
    } else if TickChoice(a).Some? {
      var begun := LoadBegun(a.(queue := TickQueue(a)), TickChoice(a).value, now);
      RetainedIsSound(begun, b, None);
      RetainedKeepsRest(begun, b, None);
    } else {
      var ended := a.(wasActive := false, skipRequested := false, currentSource := None, currentStartedAt := None,
                      loadingGeneration := None);
      RetainedIsSound(ended, b, None);
      RetainedKeepsRest(ended, b, None);
    }
  }

  /** The search for the armed key stops at the front, so the ticker takes one track and skips none. */
  lemma TickerKeepsQueue(a: Runtime, b: Runtime, fileName: Option<string>, streamQueueLen: nat, now: nat, advanced: bool)
    requires SynchronizeStep(a, b, fileName, streamQueueLen, now, advanced) && StoreSound(a) && ArmedIsFront(a)
    ensures StoreSound(b) && ArmedIsFront(b) && (advanced ==> a.enginePrefetched.Some?)
    ensures Keys(a.queue) == (if advanced then [a.enginePrefetched.value.source.key] else []) + Keys(b.queue)
    ensures b.currentSource == if advanced then Some(a.enginePrefetched.value.source) else a.currentSource
  {
    hide Retained, StoreSound;
    if advanced {
      assert IndexOf(a.queue, a.enginePrefetched.value.source.key) == Some(0);
      RetainedIsSound(EngineTaken(a, now), b, None);
      RetainedKeepsRest(EngineTaken(a, now), b, None);
    } else {
      StoreIgnoresEngine(a, b);
    }
  }

  lemma InitialIsSound()
    ensures StoreSound(INITIAL.rt) && ArmedIsFront(INITIAL.rt)
  {
  }

  lemma {:induction false} RunKeepsQueue(states: seq<System>, events: seq<Event>, n: nat)
    requires Run(states, events) && states[0] == INITIAL && n < |states|
    ensures StoreSound(states[n].rt) && ArmedIsFront(states[n].rt)
  {
    hide Step, StoreSound, ArmedIsFront;
    if n == 0 {
      InitialIsSound();
    } else {
      RunKeepsQueue(states, events, n - 1);
      StepKeepsQueue(states[n - 1], events[n - 1], states[n]);
    }
  }

  /** The keys taken by steps i to j - 1, in order. */
  ghost function Taken(states: seq<System>, events: seq<Event>, i: nat, j: nat): seq<Key>
    requires i <= j <= |events| <= |states|
  {
    if i == j then [] else Taken(states, events, i, j - 1) + Takes(states[j - 1], events[j - 1])
  }

  /** Between queue-setting commands the keys taken followed by the keys left are the keys
      there were: nothing is skipped, repeated or reordered, however tick and ticker interleave. */
  lemma {:induction false} QueueIsConserved(states: seq<System>, events: seq<Event>, i: nat, j: nat)
    requires Run(states, events) && states[0] == INITIAL && i <= j <= |events|
    requires forall k | i <= k < j :: !SetsQueue(events[k])
    ensures Keys(states[i].rt.queue) == Taken(states, events, i, j) + Keys(states[j].rt.queue)
  {
    hide Step, StoreSound, ArmedIsFront, Takes, Keys;
    if i < j {
      QueueIsConserved(states, events, i, j - 1);
      RunKeepsQueue(states, events, j - 1);
      StepKeepsQueue(states[j - 1], events[j - 1], states[j]);
    }
  }
}
