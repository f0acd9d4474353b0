/** What the player's reports make of the record: when the ticker moves on, when the tick starts a track, and where
    the marks that both rely on come from (src/agent/prefetch.rs and control_loop.rs). */
module AgentReports {
  import opened AgentProtocol
  import opened AgentRuntime
  import opened MachineWords
  import opened Wrappers

  // ----- The ticker -----

  /** The armed source takes over exactly when the player shows its name, and either that is news, the current
      source having another name, or the armed item was seen in the player's queue and the queue is now empty. */
  lemma AdvanceMeansShown(a: Runtime, b: Runtime, fileName: Option<string>, streamQueueLen: nat, now: nat,
                          advanced: bool)
    requires SynchronizeStep(a, b, fileName, streamQueueLen, now, advanced)
    ensures advanced ==> a.enginePrefetched.Some? && fileName == Some(a.enginePrefetched.value.source.displayName)
    ensures a.enginePrefetched.Some? && fileName == Some(a.enginePrefetched.value.source.displayName) ==>
      if a.currentSource.None? || a.currentSource.value.displayName != fileName.value then advanced
      else advanced <==> a.enginePrefetched.value.observedInPlayerQueue && streamQueueLen == 0
  {
    hide Retained;
  }

  /** The ticker either takes the armed source or leaves the record alone but for noting what it saw. */
  lemma TickerEffect(a: Runtime, b: Runtime, fileName: Option<string>, streamQueueLen: nat, now: nat, advanced: bool)
    requires SynchronizeStep(a, b, fileName, streamQueueLen, now, advanced) && StoreSound(a) && ArmedIsFront(a)
    ensures advanced ==>
      && a.enginePrefetched.Some? && b.enginePrefetched.None?
      && b.currentSource == Some(a.enginePrefetched.value.source) && b.currentStartedAt == Some(now)
      && a.queue != [] && b.queue == a.queue[1..]
      && b.generation == (a.generation + 1) % TWO_TO_64 && b.loadingGeneration.None?
      && b.wasActive && !b.skipRequested
    ensures !advanced ==> b == a.(enginePrefetched := b.enginePrefetched)
    ensures !advanced && a.enginePrefetched.Some? ==>
      b.enginePrefetched == Some(a.enginePrefetched.value.(
        observedInPlayerQueue := a.enginePrefetched.value.observedInPlayerQueue || streamQueueLen > 0))
  {
    hide Trimmed, StoreSound;
    if advanced {
      assert IndexOf(a.queue, a.enginePrefetched.value.source.key) == Some(0);
    }
  }

  // ----- Where the sighting comes from -----

  /** A source marked as seen was so before. */
  ghost predicate MarkKept(a: Runtime, b: Runtime) {
    b.enginePrefetched.Some? && b.enginePrefetched.value.observedInPlayerQueue ==> b.enginePrefetched == a.enginePrefetched
  }

  /** The step reports the armed source's stream in the player's queue. */
  ghost predicate Sights(a: Runtime, e: Event, b: Runtime) {
    && e.Ticker? && !e.advanced && e.streamQueueLen > 0
    && a.enginePrefetched.Some? && b.enginePrefetched.Some?
    && b.enginePrefetched.value.source == a.enginePrefetched.value.source
  }

  lemma SetQueueKeepsMark(a: Runtime, b: Runtime, queue: seq<SourceRef>)
    requires SetQueueStep(a, b, queue)
    ensures MarkKept(a, b)
  {
    hide Trimmed, Relevant;
  }

  lemma PlayBeginKeepsRest(a: Runtime, b: Runtime, key: Key, claimed: Option<Handle>)
    requires PlayBeginStep(a, b, key, claimed)
    ensures b == a.(prefetched := b.prefetched)
  {
    hide Trimmed, Relevant;
  }

  lemma PrefetchBeginKeepsRest(a: Runtime, b: Runtime, key: Key, proceed: bool)
    requires PrefetchBeginStep(a, b, key, proceed)
    ensures b == a.(prefetched := b.prefetched, prefetchingKey := b.prefetchingKey)
  {
    hide Trimmed, Relevant, RelevantKeys;
  }

  lemma PlacedKeepsRest(a: Runtime, b: Runtime, source: SourceRef, handle: Handle)
    requires StreamPlaced(a, b, source, handle)
    ensures b == a.(prefetched := b.prefetched, enginePrefetched := b.enginePrefetched) && MarkKept(a, b)
  {
    hide Trimmed, RelevantKeys;
  }

  lemma PrefetchEndKeepsRest(a: Runtime, b: Runtime, source: SourceRef, outcome: Option<Handle>)
    requires PrefetchEndStep(a, b, source, outcome)
    ensures b == a.(prefetched := b.prefetched, prefetchingKey := b.prefetchingKey, enginePrefetched := b.enginePrefetched)
    ensures MarkKept(a, b)
  {
    hide Retained, StreamPlaced;
    if outcome.Some? {
      var cleared := if a.prefetchingKey == Some(source.key) then a.(prefetchingKey := None) else a;
      var kept: Runtime :| Retained(cleared, kept, None) && StreamPlaced(kept, b, source, outcome.value);
      RetainedKeepsRest(cleared, kept, None);
      PlacedKeepsRest(kept, b, source, outcome.value);
    }
  }

  lemma PlayTaskKeepsMark(s: System, s': System, id: nat, claimed: Option<Handle>, succeeds: bool, now: nat)
    requires id in s.plays && PlayTaskStep(s, s', id, claimed, succeeds, now)
    ensures s'.rt.enginePrefetched == s.rt.enginePrefetched
  {
    hide PlayBeginStep;
    if s.plays[id].pc.Starting? {
      PlayBeginKeepsRest(s.rt, s'.rt, s.plays[id].source.key, claimed);
    }
  }

  lemma PrefetchTaskKeepsMark(s: System, s': System, id: nat, proceed: bool, outcome: Option<Handle>)
    requires id in s.prefetches && PrefetchTaskStep(s, s', id, proceed, outcome)
    ensures MarkKept(s.rt, s'.rt)
  {
    hide PrefetchBeginStep, PrefetchEndStep;
    var source := s.prefetches[id].source;
    if s.prefetches[id].opening {
      PrefetchEndKeepsRest(s.rt, s'.rt, source, outcome);
    } else {
      PrefetchBeginKeepsRest(s.rt, s'.rt, source.key, proceed);
    }
  }

  lemma TickKeepsMark(a: Runtime, b: Runtime, player: PlayerView, now: nat, fallback: string, result: TickResult)
    requires TickStep(a, b, player, now, fallback, result)
    ensures MarkKept(a, b)
  {
    hide Trimmed, Relevant;
  }

  lemma StepKeepsMark(s: System, e: Event, s': System)
    requires Step(s, e, s')
    ensures MarkKept(s.rt, s'.rt) || Sights(s.rt, e, s'.rt)
  {
    hide SetQueueStep, TickStep, PlayTaskStep, PrefetchTaskStep, Trimmed, Relevant, RelevantKeys, IndexOf;
    match e
    case SetQueue(queue) => SetQueueKeepsMark(s.rt, s'.rt, queue);
    case Tick(player, now, fallback, result) => TickKeepsMark(s.rt, s'.rt, player, now, fallback, result);
    case PlayTaskMoves(id, claimed, succeeds, now) => PlayTaskKeepsMark(s, s', id, claimed, succeeds, now);
    case PrefetchTaskMoves(id, proceed, outcome) => PrefetchTaskKeepsMark(s, s', id, proceed, outcome);
    case _ =>
  }

  /** Step i reported the source armed at n in the player's queue, and it has been armed and marked ever since. */
  ghost predicate Sighted(states: seq<System>, events: seq<Event>, n: nat, i: nat)
    requires n < |states| && |states| == |events| + 1
  {
    && i < n && Sights(states[i].rt, events[i], states[i + 1].rt)
    && forall k | i < k <= n :: states[k].rt.enginePrefetched == states[n].rt.enginePrefetched
  }

  /** A mark comes from a report made since the source was armed. */
  lemma {:induction false} SightingComesFirst(states: seq<System>, events: seq<Event>, n: nat) returns (i: nat)
    requires Run(states, events) && states[0] == INITIAL && n < |states|
    requires states[n].rt.enginePrefetched.Some? && states[n].rt.enginePrefetched.value.observedInPlayerQueue
    ensures Sighted(states, events, n, i)
  {
    hide Step, Sights;
    assert n > 0;
    StepKeepsMark(states[n - 1], events[n - 1], states[n]);
    if Sights(states[n - 1].rt, events[n - 1], states[n].rt) {
      i := n - 1;
    } else {
      i := SightingComesFirst(states, events, n - 1);
    }
  }

  lemma SightingMarks(s: System, e: Event, s': System)
    requires Step(s, e, s') && Sights(s.rt, e, s'.rt)
    ensures s'.rt.enginePrefetched.value.observedInPlayerQueue
  {
  }

  /** In every interleaving, a status report takes the armed source exactly when it shows its name while the current
      source has another, or when it shows the name they share, reports an empty queue, and an earlier report since
      the source was armed had it in the queue. */
  lemma TickerTakesWhenShown(states: seq<System>, events: seq<Event>, n: nat)
    requires Run(states, events) && states[0] == INITIAL && n < |events| && events[n].Ticker?
    ensures var a, e := states[n].rt, events[n];
      Takes(states[n], e) != [] <==>
      && a.enginePrefetched.Some? && e.fileName == Some(a.enginePrefetched.value.source.displayName)
      && (|| a.currentSource.None? || a.currentSource.value.displayName != e.fileName.value
          || (e.streamQueueLen == 0 && exists i: nat :: Sighted(states, events, n, i)))
  {
    var a, e := states[n].rt, events[n];
    assert Step(states[n], e, states[n + 1]);
    AdvanceMeansShown(a, states[n + 1].rt, e.fileName, e.streamQueueLen, e.now, e.advanced);
    hide Step, SynchronizeStep;
    if a.enginePrefetched.Some? {
      if a.enginePrefetched.value.observedInPlayerQueue {
        var i := SightingComesFirst(states, events, n);
      } else if i: nat :| Sighted(states, events, n, i) {
        assert Step(states[i], events[i], states[i + 1]);
        SightingMarks(states[i], events[i], states[i + 1]);
      }
    }
  }

  // ----- The tick -----

  /** A tick starts a track exactly when no load is outstanding, the current one has stopped or is to be skipped, it
      has played or is skipped or has had its time to start, and there is one to play. */
  lemma TickPlaysWhen(a: Runtime, b: Runtime, player: PlayerView, now: nat, fallback: string, result: TickResult)
    requires TickStep(a, b, player, now, fallback, result)
    ensures result.Play? <==>
      && a.loadingGeneration.None? && a.currentSource.Some? && (player.stopped || a.skipRequested)
      && (a.skipRequested || a.wasActive || (a.currentStartedAt.Some? && now >= a.currentStartedAt.value + 20_000))
      && ((a.repeatOne && !a.skipRequested) || a.queue != [])
    ensures result.Play? ==>
      && result.source == (if a.repeatOne && !a.skipRequested then a.currentSource.value else a.queue[0])
      && result.generation == b.generation == (a.generation + 1) % TWO_TO_64
      && result.baseUrl == (if a.streamBaseUrl.Some? then a.streamBaseUrl.value else fallback)
      && b.currentStartedAt == Some(now) && !b.wasActive && !b.skipRequested && b.enginePrefetched.None?
    ensures !result.Play? ==> b.generation == a.generation && b.queue == a.queue
    ensures !result.Play? && a.currentSource.Some? && b.currentSource.None? ==>
      a.queue == [] && (player.stopped || a.skipRequested) && !b.wasActive && !b.skipRequested
    ensures a.loadingGeneration.None? && !player.stopped && !a.skipRequested ==>
      && b == a.(wasActive := b.wasActive)
      && (b.wasActive <==> a.wasActive || (a.currentSource.Some? && player.fileName == Some(a.currentSource.value.displayName)))
  {
    hide Trimmed, Relevant;
  }

  /** An active record was so before, with the same source. */
  ghost predicate ActivityKept(a: Runtime, b: Runtime) {
    b.wasActive ==> a.wasActive && a.currentSource == b.currentSource
  }

  /** The step reports that the current source is what the player shows. */
  ghost predicate Shows(e: Event, b: Runtime) {
    b.currentSource.Some? &&
    ((e.Tick? && !e.player.stopped && e.player.fileName == Some(b.currentSource.value.displayName)) ||
     (e.Ticker? && e.advanced && e.fileName == Some(b.currentSource.value.displayName)))
  }

  lemma SetQueueKeepsActivity(a: Runtime, b: Runtime, queue: seq<SourceRef>)
    requires SetQueueStep(a, b, queue)
    ensures ActivityKept(a, b)
  {
    hide Trimmed, Relevant;
  }

  lemma PlayTaskKeepsActivity(s: System, s': System, id: nat, claimed: Option<Handle>, succeeds: bool, now: nat)
    requires id in s.plays && PlayTaskStep(s, s', id, claimed, succeeds, now)
    ensures ActivityKept(s.rt, s'.rt)
  {
    hide PlayBeginStep;
    if s.plays[id].pc.Starting? {
      PlayBeginKeepsRest(s.rt, s'.rt, s.plays[id].source.key, claimed);
    }
  }

  lemma PrefetchTaskKeepsActivity(s: System, s': System, id: nat, proceed: bool, outcome: Option<Handle>)
    requires id in s.prefetches && PrefetchTaskStep(s, s', id, proceed, outcome)
    ensures ActivityKept(s.rt, s'.rt)
  {
    hide PrefetchBeginStep, PrefetchEndStep;
    var source := s.prefetches[id].source;
    if s.prefetches[id].opening {
      PrefetchEndKeepsRest(s.rt, s'.rt, source, outcome);
    } else {
      PrefetchBeginKeepsRest(s.rt, s'.rt, source.key, proceed);
    }
  }

  lemma TickKeepsActivity(a: Runtime, b: Runtime, player: PlayerView, now: nat, fallback: string, result: TickResult)
    requires TickStep(a, b, player, now, fallback, result)
    ensures ActivityKept(a, b) || Shows(Tick(player, now, fallback, result), b)
  {
    hide Trimmed, Relevant;
  }

  lemma TickerKeepsActivity(a: Runtime, b: Runtime, fileName: Option<string>, streamQueueLen: nat, now: nat,
                            advanced: bool)
    requires SynchronizeStep(a, b, fileName, streamQueueLen, now, advanced)
    ensures ActivityKept(a, b) || Shows(Ticker(fileName, streamQueueLen, now, advanced), b)
  {
    hide Trimmed, Relevant, IndexOf;
  }

  lemma StepKeepsActivity(s: System, e: Event, s': System)
    requires Step(s, e, s')
    ensures ActivityKept(s.rt, s'.rt) || Shows(e, s'.rt)
  {
    hide SetQueueStep, TickStep, SynchronizeStep, PlayTaskStep, PrefetchTaskStep, Trimmed, Relevant, RelevantKeys;
    match e
    case SetQueue(queue) => SetQueueKeepsActivity(s.rt, s'.rt, queue);
    case Tick(player, now, fallback, result) => TickKeepsActivity(s.rt, s'.rt, player, now, fallback, result);
    case Ticker(fileName, streamQueueLen, now, advanced) =>
      TickerKeepsActivity(s.rt, s'.rt, fileName, streamQueueLen, now, advanced);
    case PlayTaskMoves(id, claimed, succeeds, now) => PlayTaskKeepsActivity(s, s', id, claimed, succeeds, now);
    case PrefetchTaskMoves(id, proceed, outcome) => PrefetchTaskKeepsActivity(s, s', id, proceed, outcome);
    case _ =>
  }

  /** Step i reported the source current at n as playing, and it has been current and active ever since. */
  ghost predicate Played(states: seq<System>, events: seq<Event>, n: nat, i: nat)
    requires n < |states| && |states| == |events| + 1
  {
    && i < n && Shows(events[i], states[i + 1].rt)
    && forall k | i < k <= n :: states[k].rt.wasActive && states[k].rt.currentSource == states[n].rt.currentSource
  }

  lemma {:induction false} ActivityComesFirst(states: seq<System>, events: seq<Event>, n: nat) returns (i: nat)
    requires Run(states, events) && states[0] == INITIAL && n < |states| && states[n].rt.wasActive
    ensures Played(states, events, n, i)
  {
    hide Step, Shows;
    assert n > 0;
    StepKeepsActivity(states[n - 1], events[n - 1], states[n]);
    if Shows(events[n - 1], states[n].rt) {
      i := n - 1;
    } else {
      i := ActivityComesFirst(states, events, n - 1);
    }
  }

  /** In every interleaving, a tick starts a track exactly when no load is outstanding, there is a current source and
      one to follow it, and the source is to be skipped, or the player has stopped and either a report showed the
      source playing or its time to start has passed. */
  lemma TickStartsWhenDone(states: seq<System>, events: seq<Event>, n: nat)
    requires Run(states, events) && states[0] == INITIAL && n < |events| && events[n].Tick?
    ensures var a, e := states[n].rt, events[n];
      e.result.Play? <==>
      && a.loadingGeneration.None? && a.currentSource.Some? && ((a.repeatOne && !a.skipRequested) || a.queue != [])
      && (a.skipRequested ||
          (e.player.stopped &&
           ((exists i: nat :: Played(states, events, n, i)) ||
            (a.currentStartedAt.Some? && e.now >= a.currentStartedAt.value + 20_000))))
  {
    var a, e := states[n].rt, events[n];
    assert Step(states[n], e, states[n + 1]);
    TickPlaysWhen(a, states[n + 1].rt, e.player, e.now, e.fallback, e.result);
    hide Step, TickStep;
    if a.wasActive {
      var i := ActivityComesFirst(states, events, n);
    } else {
      assert forall i: nat :: !Played(states, events, n, i);
    }
  }

  /** A start is timed from when its load begins, and again from when the player accepts it. */
  lemma StartsAreTimed(s: System, e: Event, s': System)
    requires Step(s, e, s')
    ensures s'.rt.currentStartedAt ==
      match e
      case PlaySource(_, _, _, now) => Some(now)
      case Stop => None
      case Tick(_, now, _, result) =>
        if result.Play? then Some(now) else if s'.rt.currentSource.None? && s.rt.currentSource.Some? then None
        else s.rt.currentStartedAt
      case Ticker(_, _, now, advanced) => if advanced then Some(now) else s.rt.currentStartedAt
      case PlayTaskMoves(id, _, _, now) =>
        if s.plays[id].pc.Accepted? && s.plays[id].generation == s.rt.generation then Some(now)
        else s.rt.currentStartedAt
      case _ => s.rt.currentStartedAt
  {
    hide PlaySourceStep, SetQueueStep, TickStep, SynchronizeStep, PlayTaskStep, PrefetchTaskStep, LoopModeSet;
    match e
    case PlaySource(source, queue, url, now) => PlaySourceTimes(s.rt, s'.rt, source, queue, url, now);
    case SetQueue(queue) => SetQueueKeepsTimes(s.rt, s'.rt, queue);
    case SetLoopMode(repeatOne) => LoopModeKeepsTimes(s.rt, repeatOne);
    case Tick(player, now, fallback, result) => TickTimes(s.rt, s'.rt, player, now, fallback, result);
    case Ticker(fileName, streamQueueLen, now, advanced) =>
      TickerTimes(s.rt, s'.rt, fileName, streamQueueLen, now, advanced);
    case PlayTaskMoves(id, claimed, succeeds, now) => PlayTaskTimes(s, s', id, claimed, succeeds, now);
    case PrefetchTaskMoves(id, proceed, outcome) => PrefetchTaskKeepsTimes(s, s', id, proceed, outcome);
    case _ =>
  }

  /** A skip is asked for by the core, and forgotten when a track begins, playing ends, or there was none. */
  lemma SkipsAreServed(s: System, e: Event, s': System)
    requires Step(s, e, s')
    ensures s'.rt.skipRequested ==
      match e
      case Next => true
      case PlaySource(_, _, _, _) => false
      case Stop => false
      case Tick(_, _, _, result) =>
        s.rt.skipRequested && !result.Play? && (s.rt.loadingGeneration.Some?)
      case Ticker(_, _, _, advanced) => s.rt.skipRequested && !advanced
      case _ => s.rt.skipRequested
  {
    hide PlaySourceStep, SetQueueStep, TickStep, SynchronizeStep, PlayTaskStep, PrefetchTaskStep, LoopModeSet;
    match e
    case PlaySource(source, queue, url, now) => PlaySourceTimes(s.rt, s'.rt, source, queue, url, now);
    case SetQueue(queue) => SetQueueKeepsTimes(s.rt, s'.rt, queue);
    case SetLoopMode(repeatOne) => LoopModeKeepsTimes(s.rt, repeatOne);
    case Tick(player, now, fallback, result) => TickTimes(s.rt, s'.rt, player, now, fallback, result);
    case Ticker(fileName, streamQueueLen, now, advanced) =>
      TickerTimes(s.rt, s'.rt, fileName, streamQueueLen, now, advanced);
    case PlayTaskMoves(id, claimed, succeeds, now) => PlayTaskTimes(s, s', id, claimed, succeeds, now);
    case PrefetchTaskMoves(id, proceed, outcome) => PrefetchTaskKeepsTimes(s, s', id, proceed, outcome);
    case _ =>
  }

  predicate SameTimes(a: Runtime, b: Runtime) {
    b.currentStartedAt == a.currentStartedAt && b.skipRequested == a.skipRequested
  }

  lemma SetQueueKeepsTimes(a: Runtime, b: Runtime, queue: seq<SourceRef>)
    requires SetQueueStep(a, b, queue)
    ensures SameTimes(a, b)
  {
    hide Trimmed, Relevant;
  }

  lemma LoopModeKeepsTimes(a: Runtime, repeatOne: bool)
    ensures SameTimes(a, LoopModeSet(a, repeatOne))
  {
  }

  lemma PrefetchTaskKeepsTimes(s: System, s': System, id: nat, proceed: bool, outcome: Option<Handle>)
    requires id in s.prefetches && PrefetchTaskStep(s, s', id, proceed, outcome)
    ensures SameTimes(s.rt, s'.rt)
  {
    hide PrefetchBeginStep, PrefetchEndStep;
    var source := s.prefetches[id].source;
    if s.prefetches[id].opening {
      PrefetchEndKeepsRest(s.rt, s'.rt, source, outcome);
    } else {
      PrefetchBeginKeepsRest(s.rt, s'.rt, source.key, proceed);
    }
  }

  lemma PlayTaskTimes(s: System, s': System, id: nat, claimed: Option<Handle>, succeeds: bool, now: nat)
    requires id in s.plays && PlayTaskStep(s, s', id, claimed, succeeds, now)
    ensures s'.rt.skipRequested == s.rt.skipRequested
    ensures s'.rt.currentStartedAt ==
            if s.plays[id].pc.Accepted? && s.plays[id].generation == s.rt.generation then Some(now) else s.rt.currentStartedAt
  {
    hide PlayBeginStep;
    if s.plays[id].pc.Starting? {
      PlayBeginKeepsRest(s.rt, s'.rt, s.plays[id].source.key, claimed);
    }
  }

  lemma TickTimes(a: Runtime, b: Runtime, player: PlayerView, now: nat, fallback: string, result: TickResult)
    requires TickStep(a, b, player, now, fallback, result)
    ensures b.currentStartedAt == if result.Play? then Some(now)
                                  else if b.currentSource.None? && a.currentSource.Some? then None else a.currentStartedAt
    ensures b.skipRequested == (a.skipRequested && !result.Play? && a.loadingGeneration.Some?)
  {
    hide Trimmed, Relevant;
  }

  lemma TickerTimes(a: Runtime, b: Runtime, fileName: Option<string>, streamQueueLen: nat, now: nat, advanced: bool)
    requires SynchronizeStep(a, b, fileName, streamQueueLen, now, advanced)
    ensures b.currentStartedAt == if advanced then Some(now) else a.currentStartedAt
    ensures b.skipRequested == (a.skipRequested && !advanced)
  {
    hide Trimmed, Relevant, IndexOf;
  }

  lemma PlaySourceTimes(a: Runtime, b: Runtime, source: SourceRef, queue: seq<SourceRef>, url: string, now: nat)
    requires PlaySourceStep(a, b, source, queue, url, now)
    ensures b.currentStartedAt == Some(now) && !b.skipRequested
  {
    hide Trimmed, Relevant;
  }

  /** A play command begins a load of its source under a new generation, with its queue and nothing armed. */
  lemma PlaySourceEffect(a: Runtime, b: Runtime, source: SourceRef, queue: seq<SourceRef>, url: string, now: nat)
    requires PlaySourceStep(a, b, source, queue, url, now)
    ensures b.currentSource == Some(source) && b.queue == queue && b.streamBaseUrl == Some(url)
    ensures b.generation == (a.generation + 1) % TWO_TO_64 && b.loadingGeneration == Some(b.generation)
    ensures b.enginePrefetched.None? && !b.wasActive && b.repeatOne == a.repeatOne && b.prefetchingKey == a.prefetchingKey
    ensures source.key in a.prefetched ==>
      source.key in b.prefetched && b.prefetched[source.key] == a.prefetched[source.key]
  {
    hide Relevant;
    var begun := LoadBegun(a.(queue := queue, streamBaseUrl := Some(url)), source, now);
    if source.key in a.prefetched {
      KeptIfRelevant(begun, source.key);
    }
  }

  lemma KeptIfRelevant(a: Runtime, key: Key)
    requires OfUse(a, key) && key in a.prefetched
    ensures key in Relevant(a) && Relevant(a)[key] == a.prefetched[key]
  {
    RelevantIsOfUse(a, key);
    hide OfUse;
  }

  /** A stop forgets everything but repeat-one, under a new generation. */
  lemma StopEffect(a: Runtime)
    ensures var b := Stopped(a);
      && b.queue == [] && b.prefetched == map[] && b.enginePrefetched.None? && b.currentSource.None?
      && b.currentStartedAt.None? && b.streamBaseUrl.None? && b.loadingGeneration.None? && b.prefetchingKey.None?
      && b.generation == (a.generation + 1) % TWO_TO_64 && !b.wasActive && !b.skipRequested && b.repeatOne == a.repeatOne
  {
  }

  // ----- Tasks and streams -----

  /** A play task goes on to the player exactly when its load is still the current one. */
  lemma StaleNeverCalls(s: System, e: Event, s': System)
    requires Step(s, e, s') && e.PlayTaskMoves? && s.plays[e.id].pc.Checking?
    ensures var task := s.plays[e.id];
      (e.id in s'.plays && s'.plays[e.id].pc.Calling?) <==>
      && task.generation == s.rt.generation
      && s.rt.currentSource.Some? && s.rt.currentSource.value.key == task.source.key
  {
  }

  predicate Queued(queue: seq<SourceRef>, key: Key) {
    exists i | 0 <= i < |queue| :: queue[i].key == key
  }

  /** A stream is of use: for the current source or a queued one. */
  predicate OfUse(a: Runtime, key: Key) {
    (a.currentSource.Some? && a.currentSource.value.key == key) || Queued(a.queue, key)
  }

  lemma RelevantIsOfUse(a: Runtime, key: Key)
    ensures key in RelevantKeys(a) <==> OfUse(a, key)
  {
    if Queued(a.queue, key) {
      var i :| 0 <= i < |a.queue| && a.queue[i].key == key;
      assert a.queue[i] in a.queue;
    }
  }

  /** Of at most two streams exactly those of use are retained. */
  lemma RetainedAreOfUse(a: Runtime, b: Runtime, preferred: Option<Key>)
    requires Retained(a, b, preferred) && |a.prefetched| <= 2
    ensures forall key :: key in b.prefetched <==> key in a.prefetched && OfUse(a, key)
    ensures forall key | key in b.prefetched :: b.prefetched[key] == a.prefetched[key]
  {
    hide RelevantKeys, OfUse;
    var kept := Relevant(a);
    CardinalityOfSubset(kept.Keys, a.prefetched.Keys);
    assert |kept.Keys| == |kept| && |a.prefetched.Keys| == |a.prefetched| && |b.prefetched.Keys| == |b.prefetched|;
    SubsetOfSameSize(b.prefetched.Keys, kept.Keys);
    forall key ensures key in b.prefetched <==> key in a.prefetched && OfUse(a, key) {
      RelevantIsOfUse(a, key);
      assert key in b.prefetched.Keys <==> key in kept.Keys;
    }
  }

  lemma {:induction false} SubsetOfSameSize<T>(a: set<T>, b: set<T>)
    requires a <= b && |a| == |b|
    ensures a == b
  {
    var extra := b - a;
    if extra != {} {
      var x :| x in extra;
      CardinalityOfSubset(a, b - {x});
    } else {
      assert forall x | x in b :: x in extra || x in a;
    }
  }

  /** After a queue command the front is armed if it was before, or if its stream is kept and nothing forbids it;
      otherwise nothing is armed. */
  lemma SetQueueArmsFront(a: Runtime, b: Runtime, queue: seq<SourceRef>)
    requires SetQueueStep(a, b, queue) && StoreSound(a)
    ensures var front := if queue == [] then None else Some(queue[0]);
      var still := front.Some? && a.enginePrefetched.Some? && a.enginePrefetched.value.source.key == front.value.key;
      b.enginePrefetched ==
        if still then a.enginePrefetched
        else if !a.repeatOne && front.Some? && front.value.key in a.prefetched
        then Some(EnginePrefetched(front.value, a.prefetched[front.value.key].byteLen, false)) else None
    ensures b.queue == queue
  {
    hide Retained, RelevantKeys, Relevant;
    var kept: Runtime :| Retained(a.(queue := queue), kept, None) &&
      b == if kept.enginePrefetched.Some? && queue != [] && queue[0].key == kept.enginePrefetched.value.source.key
           then kept else FrontArmed(kept.(enginePrefetched := None));
    RetainedKeepsRest(a.(queue := queue), kept, None);
    RetainedAreOfUse(a.(queue := queue), kept, None);
    if queue != [] {
      assert queue[0].key == queue[0].key && Queued(queue, queue[0].key);
    }
  }

  /** Turning repeat-one on disarms; turning it off arms a front whose stream is kept. */
  lemma LoopModeArmsFront(a: Runtime, repeatOne: bool)
    requires StoreSound(a)
    ensures var b := LoopModeSet(a, repeatOne);
      b.enginePrefetched ==
        if repeatOne then None
        else if a.enginePrefetched.Some? || a.queue == [] || a.queue[0].key !in a.prefetched then a.enginePrefetched
        else Some(EnginePrefetched(a.queue[0], a.prefetched[a.queue[0].key].byteLen, false))
  {
  }

  /** A prefetch is begun exactly for a key of use that is neither kept nor armed nor being fetched. */
  lemma PrefetchBeginsWhenUseful(a: Runtime, b: Runtime, key: Key, proceed: bool)
    requires PrefetchBeginStep(a, b, key, proceed) && StoreSound(a)
    ensures proceed <==> OfUse(a, key) && key !in a.prefetched && a.prefetchingKey != Some(key) &&
                         !(a.enginePrefetched.Some? && a.enginePrefetched.value.source.key == key)
  {
    hide Retained, RelevantKeys, OfUse;
    var kept := b.(prefetchingKey := a.prefetchingKey);
    RetainedAreOfUse(a, kept, None);
    RelevantIsOfUse(a, key);
  }

  /** An opened stream is armed if it is next, kept if it is of use, and dropped otherwise. */
  lemma OpenedStreamIsPlaced(a: Runtime, b: Runtime, source: SourceRef, handle: Handle)
    requires PrefetchEndStep(a, b, source, Some(handle))
    ensures var next := !a.repeatOne && a.queue != [] && a.queue[0].key == source.key && a.currentSource.Some?;
      && (if next then b.enginePrefetched == Some(EnginePrefetched(source, handle.byteLen, false))
          else b.enginePrefetched == a.enginePrefetched)
      && (!next && OfUse(a, source.key) ==> source.key in b.prefetched && b.prefetched[source.key] == handle)
      && (!OfUse(a, source.key) ==> source.key !in b.prefetched)
      && b.prefetchingKey == if a.prefetchingKey == Some(source.key) then None else a.prefetchingKey
  {
    hide Retained, OfUse, RelevantKeys;
    var cleared := if a.prefetchingKey == Some(source.key) then a.(prefetchingKey := None) else a;
    var kept: Runtime :| Retained(cleared, kept, None) && StreamPlaced(kept, b, source, handle);
    RetainedKeepsRest(cleared, kept, None);
    RelevantIsOfUse(a, source.key);
    SameRelevantKeys(a, kept);
    RetainedIsSound(cleared, kept, None);
  }
}
