/** The tracker object whose methods perform the steps (src/listening.rs). */
module ListeningTrackers {
  import opened Wrappers
  import opened Listening
  import opened Numbers

  class ListeningTracker {
    var active: map<Zone, Listen>
    var pendingQueues: map<Zone, seq<Queued>>
    var transferredSources: map<Zone, Source>
    /** The library's record of what was played. */
    var history: seq<History>
    var numbered: nat
    ghost var finalized: seq<Finalized>
    var clock: real

    ghost function Value(): Tracker
      reads this
    {
      Tracker(active, pendingQueues, transferredSources, history, numbered, finalized, clock)
    }

    ghost predicate Valid()
      reads this
    {
      forall zone | zone in active :: active[zone].zone == zone
    }

    constructor (now: real)
      ensures Valid() && Value() == Empty(now) && Sound(Value())
    {
      active, pendingQueues, transferredSources, history, numbered, finalized, clock :=
        map[], map[], map[], [], 0, [], now;
      new;
      EmptyIsSound(now);
    }

    /** Records what was played, unless it was too short to matter. */
    method FinalizeListen(listen: Listen, completed: bool)
      requires Valid()
      modifies this
      ensures Valid()
      ensures Value() == Finish(old(Value()), listen, completed)
    {
      var played := Larger(listen.listened, 0.0);
      var counted := CountedPlay(played, listen.duration, completed);
      finalized := finalized + [Finalized(listen, completed)];
      if played <= SHORTEST_RECORD && !counted {
        return;
      }
      history := history + [History(listen.profile, listen.source, listen.zone, listen.zoneName, played,
                                    listen.duration, completed, counted, listen.radio)];
    }

    method Insert(listen: Listen)
      requires Valid()
      modifies this
      ensures Valid()
      ensures Value() == Open(old(Value()), listen)
    {
      active := active[listen.zone := listen];
      numbered := numbered + 1;
    }

    method StartWithRadio(zone: Zone, zoneName: string, profile: string, source: Source, queue: seq<Source>,
                          radio: bool, now: real)
      requires Valid()
      modifies this
      ensures Valid()
      ensures Value() == StartStep(old(Value()), zone, zoneName, profile, source, queue, radio, now)
      ensures old(Sound(Value())) && now >= old(clock) ==> Sound(Value())
    {
      if Sound(Value()) && now >= clock {
        StartKeeps(Value(), zone, zoneName, profile, source, queue, radio, now);
      }
      hide Sound, Record;
      clock := now;
      pendingQueues := pendingQueues - {zone};
      transferredSources := transferredSources - {zone};
      if zone in active {
        var previous := active[zone];
        active := active - {zone};
        FinalizeListen(previous, false);
      }
      Insert(Listen(numbered, 0.0, profile, source, zone, zoneName, QueueOf(queue, radio, profile), 0.0, None, 0.0,
                    now, now, None, true, false, radio));
    }

    method SetQueueWithRadio(zone: Zone, profile: string, queue: seq<Source>, radio: bool)
      requires Valid()
      modifies this
      ensures Valid()
      ensures Value() == SetQueueStep(old(Value()), zone, profile, queue, radio)
      ensures old(Sound(Value())) ==> Sound(Value())
    {
      if Sound(Value()) {
        StepKeeps(Value(), QueueSet(zone, profile, queue, radio));
      }
      hide Sound;
      var queued := QueueOf(queue, radio, profile);
      if zone in active {
        active := active[zone := active[zone].(queue := queued)];
      } else if queued == [] {
        pendingQueues := pendingQueues - {zone};
      } else {
        pendingQueues := pendingQueues[zone := queued];
      }
    }

    method AppendQueueWithRadio(zone: Zone, profile: string, queue: seq<Source>, radio: bool)
      requires Valid()
      modifies this
      ensures Valid()
      ensures Value() == AppendQueueStep(old(Value()), zone, profile, queue, radio)
      ensures old(Sound(Value())) ==> Sound(Value())
    {
      if Sound(Value()) {
        StepKeeps(Value(), QueueAppended(zone, profile, queue, radio));
      }
      hide Sound;
      if queue == [] {
        return;
      }
      var queued := QueueOf(queue, radio, profile);
      if zone in active {
        active := active[zone := active[zone].(queue := active[zone].queue + queued)];
      } else {
        var before := if zone in pendingQueues then pendingQueues[zone] else [];
        pendingQueues := pendingQueues[zone := before + queued];
      }
    }

    /** Keeps account of every listen exactly when the destination has none; see TransferKeeps. */
    method TransferToZone(from: Zone, to: Zone, toName: string, position: real, duration: real, playing: bool,
                          now: real)
      returns (moved: bool)
      requires Valid()
      modifies this
      ensures Valid()
      ensures moved == (from != to && from in old(active))
      ensures Value() == TransferStep(old(Value()), from, to, toName, position, duration, playing, now)
      ensures old(Sound(Value())) && now >= old(clock) ==> (Sound(Value()) <==> (moved ==> to !in old(active)))
    {
      if Sound(Value()) && now >= clock {
        TransferKeeps(Value(), from, to, toName, position, duration, playing, now);
      }
      hide Sound;
      clock := now;
      if from == to || from !in active {
        return false;
      }
      var listen := active[from];
      active := active - {from};
      transferredSources := transferredSources[from := listen.source];
      listen := listen.(zone := to, zoneName := toName, position := Larger(position, 0.0));
      if duration > 0.0 {
        listen := listen.(duration := Some(duration));
      }
      listen := listen.(playing := playing, lastTick := now);
      active := active[to := listen];
      moved := true;
    }

    method Stop(zone: Zone)
      requires Valid()
      modifies this
      ensures Valid()
      ensures Value() == StopStep(old(Value()), zone)
      ensures old(Sound(Value())) ==> Sound(Value())
    {
      if Sound(Value()) {
        StopKeeps(Value(), zone);
      }
      hide Sound, Record, IsComplete;
      transferredSources := transferredSources - {zone};
      if zone in active {
        var listen := active[zone];
        active := active - {zone};
        FinalizeListen(listen, IsComplete(listen.position, listen.duration));
      }
    }

    method Next(zone: Zone, now: real)
      requires Valid()
      modifies this
      ensures Valid()
      ensures Value() == NextStep(old(Value()), zone, now)
      ensures old(Sound(Value())) && now >= old(clock) ==> Sound(Value())
    {
      if Sound(Value()) && now >= clock {
        NextKeeps(Value(), zone, now);
      }
      hide Sound, Record;
      clock := now;
      transferredSources := transferredSources - {zone};
      if zone !in active {
        return;
      }
      var current := active[zone];
      active := active - {zone};
      if current.queue != [] {
        var next := current.queue[0];
        Insert(Listen(numbered, 0.0, next.profile, next.source, zone, current.zoneName, current.queue[1..], 0.0, None,
                      0.0, now, now, None, true, false, next.radio));
      }
      FinalizeListen(current, false);
    }

    /** Finds the observed source in the zone's pending queue or the library. */
    method RecoverActiveListen(zone: Zone, profile: string, seen: Observation, now: real, matches: Matcher,
                               local: Option<Source>)
      requires Valid()
      modifies this
      ensures Valid()
      ensures Value() == RecoverStep(old(Value()), zone, profile, seen, now, matches, local)
    {
      var found: Option<(Queued, seq<Queued>)> := None;
      var index := if zone in pendingQueues then FirstMatch(pendingQueues[zone], seen, matches) else None;
      if index.Some? {
        var queue := pendingQueues[zone];
        pendingQueues := pendingQueues - {zone};
        found := Some((queue[index.value], queue[index.value + 1..]));
      } else if local.Some? {
        found := Some((Queued(profile, local.value, false), []));
      }
      if found.None? {
        return;
      }
      var queued := found.value.0;
      var listened := RecoveredListened(seen);
      Insert(Listen(numbered, listened, queued.profile, queued.source, zone,
                    if seen.zoneName.Some? then seen.zoneName.value else zone, found.value.1, listened,
                    DurationOption(seen.duration), Larger(seen.position, 0.0), now, now, None, false,
                    seen.state == "Playing", queued.radio));
    }

    method Observe(zone: Zone, profile: string, seen: Observation, now: real, matches: Matcher, repeat: bool,
                   local: Option<Source>)
      requires Valid()
      modifies this
      ensures Valid()
      ensures Value() == ObserveStep(old(Value()), zone, profile, seen, now, matches, repeat, local)
      ensures old(Sound(Value())) && now >= old(clock) ==> Sound(Value())
    {
      if Sound(Value()) && now >= clock {
        ObserveKeeps(Value(), zone, profile, seen, now, matches, repeat, local);
      }
      hide Sound, IdleStep, StoppedStep, ElsewhereStep, MatchedStep;
      clock := now;
      if zone !in active {
        ObserveIdle(zone, profile, seen, now, matches, local);
        return;
      }
      var current := active[zone];
      active := active - {zone};
      transferredSources := transferredSources - {zone};
      if seen.state == "Stopped" {
        ObserveStopped(zone, current, seen, now, repeat);
      } else if !matches(current.source, seen) {
        ObserveElsewhere(zone, current, profile, seen, now, matches, local);
      } else {
        ObserveMatched(zone, current, seen, now);
      }
    }

    method ObserveIdle(zone: Zone, profile: string, seen: Observation, now: real, matches: Matcher,
                       local: Option<Source>)
      requires Valid()
      modifies this
      ensures Valid()
      ensures Value() == IdleStep(old(Value()), zone, profile, seen, now, matches, local)
    {
      hide RecoverStep;
      if zone in transferredSources {
        if seen.state == "Playing" && matches(transferredSources[zone], seen) {
          return;
        }
        transferredSources := transferredSources - {zone};
      }
      NothingToForget(transferredSources, zone);
      if seen.state == "Playing" {
        RecoverActiveListen(zone, profile, seen, now, matches, local);
      }
    }

    method ObserveMatched(zone: Zone, current0: Listen, seen: Observation, now: real)
      requires Valid() && current0.zone == zone
      modifies this
      ensures Valid()
      ensures Value() == MatchedStep(old(Value()), current0, seen, now)
    {
      var playing := seen.state == "Playing";
      var current := current0.(pendingMatch := false, waitingSince := None);
      if playing {
        var delta := now - current.lastTick;
        if 0.0 < delta < LONGEST_TICK {
          current := current.(listened := current.listened + delta);
        }
      }
      current := UpdateProgress(current.(lastTick := now), seen).(playing := playing);
      active := active[zone := current];
    }

    method ObserveStopped(zone: Zone, current0: Listen, seen: Observation, now: real, repeat: bool)
      requires Valid() && current0.zone == zone
      modifies this
      ensures Valid()
      ensures Value() == StoppedStep(old(Value()), zone, current0, seen, now, repeat)
    {
      hide Record, IsComplete;
      var current := MergeProgress(current0, seen);
      if current.pendingMatch && now - current.startedAt < PENDING_MATCH_GRACE_SECONDS {
        active := active[zone := current.(lastTick := now)];
        return;
      }
      var completed := IsComplete(current.position, current.duration);
      if completed && (current.queue != [] || repeat) {
        var waitingSince := if current.waitingSince.Some? then current.waitingSince.value else now;
        current := current.(waitingSince := Some(waitingSince));
        if now - waitingSince < PENDING_MATCH_GRACE_SECONDS {
          active := active[zone := current.(lastTick := now)];
          return;
        }
      }
      FinalizeListen(current, completed);
    }

    method ObserveElsewhere(zone: Zone, current: Listen, profile: string, seen: Observation, now: real,
                            matches: Matcher, local: Option<Source>)
      requires Valid() && current.zone == zone
      modifies this
      ensures Valid()
      ensures Value() == ElsewhereStep(old(Value()), zone, current, profile, seen, now, matches, local)
    {
      hide Record, RecoverStep;
      if current.pendingMatch && now - current.startedAt < PENDING_MATCH_GRACE_SECONDS {
        active := active[zone := current.(lastTick := now)];
        return;
      }
      var index := FirstMatch(current.queue, seen, matches);
      if index.Some? {
        var next := current.queue[index.value];
        FinalizeListen(current.(queue := current.queue[..index.value]), true);
        Insert(Listen(numbered, 0.0, next.profile, next.source, zone, current.zoneName,
                      current.queue[index.value + 1..], 0.0, DurationOption(seen.duration), Larger(seen.position, 0.0),
                      now, now, None, false, seen.state == "Playing", next.radio));
      } else {
        FinalizeListen(current, false);
        if seen.state == "Playing" {
          RecoverActiveListen(zone, profile, seen, now, matches, local);
        }
      }
    }

    /** Reports every running listen; none reports more than it was opened with plus its age. */
    method ActiveHistoryInputs(now: real) returns (inputs: map<Zone, History>)
      requires Valid()
      ensures inputs.Keys == active.Keys
      ensures forall zone | zone in active ::
        && inputs[zone].source == active[zone].source && inputs[zone].zone == zone && !inputs[zone].completed
        && inputs[zone].played == PlayedBy(active[zone], now) && inputs[zone].duration == active[zone].duration
        && (inputs[zone].counted <==> inputs[zone].played >= 30.0)
      ensures Sound(Value()) && now >= clock ==> forall zone | zone in active ::
        inputs[zone].played <= active[zone].recovered + (now - active[zone].startedAt)
    {
      inputs := map zone | zone in active :: Report(active[zone], now);
    }
  }

  function Report(l: Listen, now: real): History {
    var played := Larger(l.listened, 0.0) + if l.playing then Tick(l, now) else 0.0;
    History(l.profile, l.source, l.zone, l.zoneName, played, l.duration, false, CountedPlay(played, l.duration, false),
            l.radio)
  }

  lemma NothingToForget(m: map<Zone, Source>, zone: Zone)
    ensures zone !in m ==> m - {zone} == m
  {
  }
}
