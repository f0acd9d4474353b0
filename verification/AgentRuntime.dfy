/** The agent's shared playback record and every section of code that runs while
    holding its lock (src/agent/runtime.rs, prefetch.rs and control_loop.rs). */
module AgentRuntime {
  import opened MachineWords
  import opened Wrappers

  type Key = string

  /** A track, as far as the agent compares tracks: its key and the name the player shows for it. */
  datatype SourceRef = SourceRef(key: Key, displayName: string)

  /** An open stream. */
  datatype Handle = Handle(byteLen: nat)

  datatype EnginePrefetched = EnginePrefetched(source: SourceRef, bufferedBytes: nat, observedInPlayerQueue: bool)

  const AGENT_MAX_PREFETCHED_STREAMS := 2
  /** In milliseconds, like every time here. */
  const AGENT_PENDING_START_GRACE: nat := 20_000

  function WrappingAdd(a: u64, b: u64): u64 {
    (a + b) % TWO_TO_64
  }

  /** The record's value at an instant. */
  datatype Runtime = Runtime(
    queue: seq<SourceRef>,
    prefetched: map<Key, Handle>,
    enginePrefetched: Option<EnginePrefetched>,
    currentSource: Option<SourceRef>,
    currentStartedAt: Option<nat>,
    streamBaseUrl: Option<string>,
    generation: u64,
    loadingGeneration: Option<u64>,
    prefetchingKey: Option<Key>,
    wasActive: bool,
    skipRequested: bool,
    repeatOne: bool)

  /** What the player reports about itself. */
  datatype PlayerView = PlayerView(stopped: bool, fileName: Option<string>)

  // ----- What each section does to the record -----

  function Keys(queue: seq<SourceRef>): (keys: seq<Key>)
    ensures |keys| == |queue|
  {
    seq(|queue|, i requires 0 <= i < |queue| => queue[i].key)
  }

  /** The current source's key and the queued keys. */
  function RelevantKeys(rt: Runtime): set<Key> {
    (if rt.currentSource.Some? then {rt.currentSource.value.key} else {}) + set source | source in rt.queue :: source.key
  }

  function Relevant(rt: Runtime): map<Key, Handle> {
    map key | key in rt.prefetched && key in RelevantKeys(rt) :: rt.prefetched[key]
  }

  function MatchesFile(source: Option<SourceRef>, fileName: Option<string>): bool {
    source.Some? && fileName.Some? && source.value.displayName == fileName.value
  }

  /** At most two streams survive, and the preferred one does if it was there. Which other
      streams go is the hash map's choice. */
  ghost predicate Trimmed(before: map<Key, Handle>, after: map<Key, Handle>, preferred: Option<Key>) {
    && after.Keys <= before.Keys
    && (forall key | key in after :: after[key] == before[key])
    && |after| == (if |before| <= AGENT_MAX_PREFETCHED_STREAMS then |before| else AGENT_MAX_PREFETCHED_STREAMS)
    && (preferred.Some? && preferred.value in before ==> preferred.value in after)
  }

  ghost predicate Retained(a: Runtime, b: Runtime, preferred: Option<Key>) {
    && b == a.(prefetched := b.prefetched)
    && Trimmed(Relevant(a), b.prefetched, preferred)
  }

  function Armed(rt: Runtime, source: SourceRef, handle: Handle): Runtime {
    rt.(enginePrefetched := Some(EnginePrefetched(source, handle.byteLen, false)))
  }

  function FrontArmed(rt: Runtime): Runtime {
    if rt.repeatOne || rt.enginePrefetched.Some? || rt.queue == [] || rt.queue[0].key !in rt.prefetched then rt
    else
      var key := rt.queue[0].key;
      Armed(rt.(prefetched := rt.prefetched - {key}), rt.queue[0], rt.prefetched[key])
  }

  /** The record as a load of source begins under a new generation. */
  function LoadBegun(a: Runtime, source: SourceRef, now: nat): Runtime {
    var generation := WrappingAdd(a.generation, 1);
    a.(generation := generation, loadingGeneration := Some(generation), enginePrefetched := None,
       currentSource := Some(source), currentStartedAt := Some(now), wasActive := false, skipRequested := false)
  }

  ghost predicate PlaySourceStep(a: Runtime, b: Runtime, source: SourceRef, queue: seq<SourceRef>, url: string, now: nat) {
    Retained(LoadBegun(a.(queue := queue, streamBaseUrl := Some(url)), source, now), b, Some(source.key))
  }

  function Stopped(a: Runtime): Runtime {
    Runtime([], map[], None, None, None, None, WrappingAdd(a.generation, 1), None, None, false, false, a.repeatOne)
  }

  ghost predicate SetQueueStep(a: Runtime, b: Runtime, queue: seq<SourceRef>) {
    exists kept: Runtime :: Retained(a.(queue := queue), kept, None) &&
      b == if kept.enginePrefetched.Some? && queue != [] && queue[0].key == kept.enginePrefetched.value.source.key
           then kept else FrontArmed(kept.(enginePrefetched := None))
  }

  function LoopModeSet(a: Runtime, repeatOne: bool): Runtime {
    var b := a.(repeatOne := repeatOne);
    if repeatOne then b.(enginePrefetched := None) else FrontArmed(b)
  }

  datatype TickResult = Idle | Play(source: SourceRef, generation: u64, baseUrl: string)

  /** The tick leaves the record to an outstanding load, to a playing player, and to a start
      still within its grace period. */
  predicate TickSelects(a: Runtime, player: PlayerView, now: nat) {
    && a.loadingGeneration.None? && a.currentSource.Some?
    && (player.stopped || a.skipRequested)
    && (a.skipRequested || a.wasActive ||
        (a.currentStartedAt.Some? && now >= a.currentStartedAt.value + AGENT_PENDING_START_GRACE))
  }

  /** The source a selecting tick plays: the current one again, or the front of the queue. */
  function TickChoice(a: Runtime): Option<SourceRef> {
    if a.repeatOne && !a.skipRequested then a.currentSource
    else if a.queue == [] then None else Some(a.queue[0])
  }

  function TickQueue(a: Runtime): seq<SourceRef> {
    if (a.repeatOne && !a.skipRequested) || a.queue == [] then a.queue else a.queue[1..]
  }

  ghost predicate TickStep(a: Runtime, b: Runtime, player: PlayerView, now: nat, fallback: string, result: TickResult) {
    if !TickSelects(a, player, now) then
      && result == Idle
      && b == if a.loadingGeneration.Some? then a
              else if !player.stopped && !a.skipRequested then
                a.(wasActive := a.wasActive || MatchesFile(a.currentSource, player.fileName))
              else if a.currentSource.None? then a.(skipRequested := false) else a
    else if TickChoice(a).Some? then
      var source := TickChoice(a).value;
      && result == Play(source, WrappingAdd(a.generation, 1),
                        if a.streamBaseUrl.Some? then a.streamBaseUrl.value else fallback)
      && Retained(LoadBegun(a.(queue := TickQueue(a)), source, now), b, None)
    else
      && result == Idle
      && Retained(a.(wasActive := false, skipRequested := false, currentSource := None, currentStartedAt := None,
                     loadingGeneration := None), b, None)
  }

  function IndexOf(queue: seq<SourceRef>, key: Key): (index: Option<nat>)
    ensures index.Some? ==> index.value < |queue| && queue[index.value].key == key &&
                            forall i | 0 <= i < index.value :: queue[i].key != key
    ensures index.None? ==> forall i | 0 <= i < |queue| :: queue[i].key != key
  {
    if queue == [] then None
    else if queue[0].key == key then Some(0)
    else
      var rest := IndexOf(queue[1..], key);
      if rest.Some? then Some(rest.value + 1) else None
  }

  /** The player has moved on to the armed source. */
  predicate EngineAdvanced(a: Runtime, fileName: Option<string>, streamQueueLen: nat) {
    a.enginePrefetched.Some? &&
    var armed := a.enginePrefetched.value;
    && MatchesFile(Some(armed.source), fileName)
    && (!MatchesFile(a.currentSource, fileName) || (armed.observedInPlayerQueue && streamQueueLen == 0))
  }

  /** The armed source becomes current, and the queue up to its first occurrence is gone. */
  function EngineTaken(a: Runtime, now: nat): Runtime
    requires a.enginePrefetched.Some?
  {
    var source := a.enginePrefetched.value.source;
    var index := IndexOf(a.queue, source.key);
    var queue := if index.Some? then a.queue[index.value + 1..] else a.queue;
    LoadBegun(a.(queue := queue), source, now).(loadingGeneration := None, wasActive := true)
  }

  ghost predicate SynchronizeStep(a: Runtime, b: Runtime, fileName: Option<string>, streamQueueLen: nat, now: nat,
                                  advanced: bool) {
    && advanced == EngineAdvanced(a, fileName, streamQueueLen)
    && if a.enginePrefetched.None? then b == a
       else if !advanced then
         b == a.(enginePrefetched := Some(a.enginePrefetched.value.(
                   observedInPlayerQueue := a.enginePrefetched.value.observedInPlayerQueue || streamQueueLen > 0)))
       else Retained(EngineTaken(a, now), b, None)
  }

  /** A play task claims its stream if one was prefetched. */
  ghost predicate PlayBeginStep(a: Runtime, b: Runtime, key: Key, handle: Option<Handle>) {
    exists kept: Runtime :: Retained(a, kept, Some(key)) &&
      b == kept.(prefetched := kept.prefetched - {key}) &&
      handle == if key in kept.prefetched then Some(kept.prefetched[key]) else None
  }

  predicate StillCurrent(a: Runtime, generation: u64, key: Key) {
    a.generation == generation && a.currentSource.Some? && a.currentSource.value.key == key
  }

  function LoadCleared(a: Runtime, generation: u64): Runtime {
    if a.generation == generation then a.(loadingGeneration := None) else a
  }

  function LoadStarted(a: Runtime, generation: u64, now: nat): Runtime {
    if a.generation == generation
    then a.(currentStartedAt := Some(now), loadingGeneration := None, wasActive := false) else a
  }

  ghost predicate PrefetchBeginStep(a: Runtime, b: Runtime, key: Key, proceed: bool) {
    && Retained(a, b.(prefetchingKey := a.prefetchingKey), None)
    && proceed == (key in RelevantKeys(a) && key !in b.prefetched && a.prefetchingKey != Some(key) &&
                   !(a.enginePrefetched.Some? && a.enginePrefetched.value.source.key == key))
    && b.prefetchingKey == if proceed then Some(key) else a.prefetchingKey
  }

  ghost predicate PrefetchEndStep(a: Runtime, b: Runtime, source: SourceRef, outcome: Option<Handle>) {
    var cleared := if a.prefetchingKey == Some(source.key) then a.(prefetchingKey := None) else a;
    if outcome.None? then b == cleared
    else exists kept: Runtime :: Retained(cleared, kept, None) && StreamPlaced(kept, b, source, outcome.value)
  }

  /** An opened stream goes to the player if it is next, otherwise into the store if it is wanted at all. */
  ghost predicate StreamPlaced(a: Runtime, b: Runtime, source: SourceRef, handle: Handle) {
    if !a.repeatOne && a.queue != [] && a.queue[0].key == source.key && a.currentSource.Some?
    then b == Armed(a, source, handle)
    else if source.key in RelevantKeys(a)
    then b == a.(prefetched := b.prefetched) &&
         Trimmed(a.prefetched[source.key := handle], b.prefetched, Some(source.key))
    else b == a
  }

  // ----- The sections themselves -----

  class AgentRuntimeState {
    var queue: seq<SourceRef>
    var prefetched: map<Key, Handle>
    var enginePrefetched: Option<EnginePrefetched>
    var currentSource: Option<SourceRef>
    var currentStartedAt: Option<nat>
    var streamBaseUrl: Option<string>
    var generation: u64
    var loadingGeneration: Option<u64>
    var prefetchingKey: Option<Key>
    var wasActive: bool
    var skipRequested: bool
    var repeatOne: bool

    function Value(): Runtime
      reads this
    {
      Runtime(queue, prefetched, enginePrefetched, currentSource, currentStartedAt, streamBaseUrl, generation,
              loadingGeneration, prefetchingKey, wasActive, skipRequested, repeatOne)
    }

    constructor ()
      ensures Value() == Runtime([], map[], None, None, None, None, 0, None, None, false, false, false)
    {
      queue, prefetched, enginePrefetched, currentSource := [], map[], None, None;
      currentStartedAt, streamBaseUrl, generation, loadingGeneration := None, None, 0, None;
      prefetchingKey, wasActive, skipRequested, repeatOne := None, false, false, false;
    }

    method PlaySource(source: SourceRef, newQueue: seq<SourceRef>, url: string, now: nat) returns (started: u64)
      modifies this
      ensures PlaySourceStep(old(Value()), Value(), source, newQueue, url, now)
      ensures started == generation
    {
      hide LoadBegun, Retained;
      queue := newQueue;
      streamBaseUrl := Some(url);
      started := BeginLoad(source, now);
      RetainRelevantPrefetches(Some(source.key));
    }

    /** The assignments that every new load makes. */
    method BeginLoad(source: SourceRef, now: nat) returns (started: u64)
      modifies this
      ensures Value() == LoadBegun(old(Value()), source, now)
      ensures started == generation == WrappingAdd(old(generation), 1)
    {
      hide WrappingAdd;
      generation := WrappingAdd(generation, 1);
      started := generation;
      enginePrefetched := None;
      currentSource := Some(source);
      currentStartedAt := Some(now);
      loadingGeneration := Some(started);
      wasActive := false;
      skipRequested := false;
    }

    /** Nothing is playing and nothing is armed. */
    method Forget()
      modifies `enginePrefetched, `currentSource, `currentStartedAt, `streamBaseUrl
      ensures enginePrefetched.None? && currentSource.None? && currentStartedAt.None? && streamBaseUrl.None?
    {
      enginePrefetched, currentSource, currentStartedAt, streamBaseUrl := None, None, None, None;
    }

    method Stop()
      modifies this
      ensures Value() == Stopped(old(Value()))
    {
      hide WrappingAdd;
      generation := WrappingAdd(generation, 1);
      queue, prefetched := [], map[];
      Forget();
      loadingGeneration, prefetchingKey := None, None;
      wasActive, skipRequested := false, false;
    }

    method Next()
      modifies this
      ensures Value() == old(Value()).(skipRequested := true)
    {
      skipRequested := true;
    }

    method SetQueue(newQueue: seq<SourceRef>)
      modifies this
      ensures SetQueueStep(old(Value()), Value(), newQueue)
    {
      hide Retained, FrontArmed;
      queue := newQueue;
      RetainRelevantPrefetches(None);
      ghost var kept := Value();
      var keepEngineQueue := enginePrefetched.Some? && queue != [] && queue[0].key == enginePrefetched.value.source.key;
      if !keepEngineQueue {
        enginePrefetched := None;
        ArmBufferedFrontForGapless();
      }
      assert Retained(old(Value()).(queue := newQueue), kept, None);
    }

    method SetLoopMode(repeat: bool)
      modifies this
      ensures Value() == LoopModeSet(old(Value()), repeat)
    {
      repeatOne := repeat;
      if repeat {
        enginePrefetched := None;
      } else {
        ArmBufferedFrontForGapless();
      }
    }

    method MaybeAdvanceGapless(player: PlayerView, now: nat, fallback: string) returns (result: TickResult)
      modifies this
      ensures TickStep(old(Value()), Value(), player, now, fallback, result)
    {
      hide WrappingAdd, Retained;
      if loadingGeneration.Some? {
        return Idle;
      }
      var currentMatchesPlayer := MatchesFile(currentSource, player.fileName);
      if !player.stopped && !skipRequested {
        if currentMatchesPlayer {
          wasActive := true;
        }
        return Idle;
      }
      if currentSource.None? {
        skipRequested := false;
        return Idle;
      }
      var timedOutPendingStart :=
        currentStartedAt.Some? && now >= currentStartedAt.value + AGENT_PENDING_START_GRACE;
      if !(skipRequested || wasActive || timedOutPendingStart) {
        return Idle;
      }
      var source: Option<SourceRef>;
      if repeatOne && !skipRequested {
        source := currentSource;
      } else if queue == [] {
        source := None;
      } else {
        source := Some(queue[0]);
        queue := queue[1..];
      }
      match source
      case Some(chosen) =>
        var started := BeginLoad(chosen, now);
        RetainRelevantPrefetches(None);
        result := Play(chosen, started, if streamBaseUrl.Some? then streamBaseUrl.value else fallback);
      case None =>
        wasActive := false;
        skipRequested := false;
        currentSource := None;
        currentStartedAt := None;
        loadingGeneration := None;
        RetainRelevantPrefetches(None);
        result := Idle;
    }

    method SynchronizeGaplessEngineAdvance(fileName: Option<string>, streamQueueLen: nat, now: nat)
      returns (advanced: bool)
      modifies this
      ensures SynchronizeStep(old(Value()), Value(), fileName, streamQueueLen, now, advanced)
    {
      hide WrappingAdd, Retained;
      var currentMatches := MatchesFile(currentSource, fileName);
      if enginePrefetched.None? {
        return false;
      }
      if streamQueueLen > 0 {
        enginePrefetched := Some(enginePrefetched.value.(observedInPlayerQueue := true));
      }
      var armed := enginePrefetched.value;
      if !MatchesFile(Some(armed.source), fileName) {
        return false;
      }
      var observedQueueConsumed := armed.observedInPlayerQueue && streamQueueLen == 0;
      if currentMatches && !observedQueueConsumed {
        return false;
      }
      TakeEngine(armed.source, now);
      RetainRelevantPrefetches(None);
      advanced := true;
    }

    method TakeEngine(source: SourceRef, now: nat)
      requires enginePrefetched.Some? && enginePrefetched.value.source == source
      modifies this
      ensures Value() == EngineTaken(old(Value()), now)
    {
      hide LoadBegun;
      var index := IndexOf(queue, source.key);
      if index.Some? {
        queue := queue[index.value + 1..];
      }
      ghost var before := Value();
      var _ := BeginLoad(source, now);
      assert Value() == LoadBegun(before, source, now);
      loadingGeneration := None;
      wasActive := true;
    }

    method BeginPlay(key: Key) returns (handle: Option<Handle>)
      modifies this
      ensures PlayBeginStep(old(Value()), Value(), key, handle)
    {
      hide Retained;
      RetainRelevantPrefetches(Some(key));
      assert Retained(old(Value()), Value(), Some(key));
      handle := if key in prefetched then Some(prefetched[key]) else None;
      prefetched := prefetched - {key};
    }

    method ClearLoadingGeneration(finished: u64)
      modifies this
      ensures Value() == LoadCleared(old(Value()), finished)
    {
      if generation == finished {
        loadingGeneration := None;
      }
    }

    method FinishPlay(finished: u64, now: nat)
      modifies this
      ensures Value() == LoadStarted(old(Value()), finished, now)
    {
      if generation == finished {
        currentStartedAt := Some(now);
        loadingGeneration := None;
        wasActive := false;
      }
    }

    method BeginPrefetch(key: Key) returns (proceed: bool)
      modifies this
      ensures PrefetchBeginStep(old(Value()), Value(), key, proceed)
    {
      RetainRelevantPrefetches(None);
      if key !in RelevantKeys(Value()) || key in prefetched ||
         (enginePrefetched.Some? && enginePrefetched.value.source.key == key) || prefetchingKey == Some(key) {
        return false;
      }
      prefetchingKey := Some(key);
      proceed := true;
    }

    method EndPrefetch(source: SourceRef, outcome: Option<Handle>)
      modifies this
      ensures PrefetchEndStep(old(Value()), Value(), source, outcome)
    {
      if prefetchingKey == Some(source.key) {
        prefetchingKey := None;
      }
      ghost var cleared := Value();
      if outcome.None? {
        return;
      }
      hide Retained, StreamPlaced;
      RetainRelevantPrefetches(None);
      assert Retained(cleared, Value(), None);
      PlaceStream(source, outcome.value);
    }

    method PlaceStream(source: SourceRef, handle: Handle)
      modifies this`prefetched, this`enginePrefetched
      ensures StreamPlaced(old(Value()), Value(), source, handle)
    {
      hide Trimmed;
      var canArmEngineQueue := !repeatOne && queue != [] && queue[0].key == source.key && currentSource.Some?;
      if canArmEngineQueue {
        ArmHandleForGapless(source, handle);
      } else if source.key in RelevantKeys(Value()) {
        InsertPrefetched(source.key, handle);
      }
    }

    method ArmBufferedFrontForGapless()
      modifies this`prefetched, this`enginePrefetched
      ensures Value() == FrontArmed(old(Value()))
    {
      if repeatOne || enginePrefetched.Some? {
        return;
      }
      if queue == [] {
        return;
      }
      var source := queue[0];
      if source.key !in prefetched {
        return;
      }
      var handle := prefetched[source.key];
      prefetched := prefetched - {source.key};
      ArmHandleForGapless(source, handle);
    }

    method ArmHandleForGapless(source: SourceRef, handle: Handle)
      modifies this`enginePrefetched
      ensures Value() == Armed(old(Value()), source, handle)
    {
      enginePrefetched := Some(EnginePrefetched(source, handle.byteLen, false));
    }

    method RetainRelevantPrefetches(preferred: Option<Key>)
      modifies this`prefetched
      ensures Retained(old(Value()), Value(), preferred)
    {
      prefetched := Relevant(Value());
      TrimPrefetchedToLimit(preferred);
    }

    method InsertPrefetched(key: Key, handle: Handle)
      modifies this`prefetched
      ensures Trimmed(old(prefetched)[key := handle], prefetched, Some(key))
    {
      prefetched := prefetched[key := handle];
      TrimPrefetchedToLimit(Some(key));
    }

    method TrimPrefetchedToLimit(preferred: Option<Key>)
      modifies this`prefetched
      ensures Trimmed(old(prefetched), prefetched, preferred)
    {
      while |prefetched| > AGENT_MAX_PREFETCHED_STREAMS
        invariant prefetched.Keys <= old(prefetched).Keys
        invariant forall key | key in prefetched :: prefetched[key] == old(prefetched)[key]
        invariant |prefetched| == |old(prefetched)| || AGENT_MAX_PREFETCHED_STREAMS <= |prefetched| < |old(prefetched)|
        invariant preferred.Some? && preferred.value in old(prefetched) ==> preferred.value in prefetched
      {
        var victim := Victim(prefetched.Keys, preferred);
        assert |prefetched - {victim}| == |prefetched| - 1 by {
          assert (prefetched - {victim}).Keys == prefetched.Keys - {victim};
        }
        prefetched := prefetched - {victim};
      }
    }
  }

  /** Some key other than the preferred one. */
  method Victim(keys: set<Key>, preferred: Option<Key>) returns (victim: Key)
    requires |keys| > AGENT_MAX_PREFETCHED_STREAMS
    ensures victim in keys && preferred != Some(victim)
  {
    var others := if preferred.Some? then keys - {preferred.value} else keys;
    assert others != {} by {
      if preferred.Some? && preferred.value in keys {
        assert |others| == |keys| - 1;
      } else {
        assert others == keys;
      }
    }
    victim :| victim in others;
  }
}
