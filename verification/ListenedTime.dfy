/** What a listen counts and what it leaves in the history, over whole stretches of listening (src/listening.rs). */
module ListenedTime {
  import opened Listening
  import opened Numbers
  import opened Wrappers

  // ----- A track under observation -----

  /** The event leaves the zone's listen to go on: it does not concern the zone, only sets its queue, or observes
      the same track there. */
  predicate GoesOn(t: Tracker, e: Event, zone: Zone) {
    zone in t.active &&
    match e
    case Started(other, _, _, _, _, _, _) => other != zone
    case QueueSet(_, _, _, _) => true
    case QueueAppended(_, _, _, _) => true
    case Transferred(from, to, _, _, _, _, _) => from != zone && to != zone
    case Observed(other, _, seen, _, matches, _, _) =>
      other != zone || (seen.state != "Stopped" && matches(t.active[zone].source, seen))
    case Stopped(other) => other != zone
    case Skipped(other, _) => other != zone
  }

  predicate GoesOnThrough(t: Tracker, events: seq<Event>, zone: Zone)
    decreases |events|
  {
    zone in t.active &&
    (events == [] || (GoesOn(t, events[0], zone) && GoesOnThrough(Step(t, events[0]), events[1..], zone)))
  }

  predicate Observes(e: Event, zone: Zone) {
    e.Observed? && e.zone == zone
  }

  /** The gaps under five seconds, from tick on, at whose end the zone was seen playing. */
  function Heard(tick: real, events: seq<Event>, zone: Zone): (r: real)
    ensures r >= 0.0
    decreases |events|
  {
    if events == [] then 0.0
    else if !Observes(events[0], zone) then Heard(tick, events[1..], zone)
    else
      var gap := events[0].now - tick;
      (if events[0].seen.state == "Playing" && 0.0 < gap < 5.0 then gap else 0.0)
      + Heard(events[0].now, events[1..], zone)
  }

  function LastTick(tick: real, events: seq<Event>, zone: Zone): real
    decreases |events|
  {
    if events == [] then tick
    else LastTick(if Observes(events[0], zone) then events[0].now else tick, events[1..], zone)
  }

  function LastPlaying(playing: bool, events: seq<Event>, zone: Zone): bool
    decreases |events|
  {
    if events == [] then playing
    else LastPlaying(if Observes(events[0], zone) then events[0].seen.state == "Playing" else playing, events[1..], zone)
  }

  /** The last reported position, never negative. */
  function LastPosition(position: real, events: seq<Event>, zone: Zone): real
    decreases |events|
  {
    if events == [] then position
    else
      var p := if !Observes(events[0], zone) then position
               else if events[0].seen.position >= 0.0 then events[0].seen.position else 0.0;
      LastPosition(p, events[1..], zone)
  }

  /** The last positive duration reported. */
  function LastDuration(duration: Option<real>, events: seq<Event>, zone: Zone): Option<real>
    decreases |events|
  {
    if events == [] then duration
    else
      var d := if Observes(events[0], zone) && events[0].seen.duration > 0.0 then Some(events[0].seen.duration) else duration;
      LastDuration(d, events[1..], zone)
  }

  /** The same listen of the same track. */
  predicate SameListen(l: Listen, l': Listen) {
    && l'.number == l.number && l'.source == l.source && l'.zone == l.zone && l'.zoneName == l.zoneName
    && l'.profile == l.profile && l'.radio == l.radio && l'.recovered == l.recovered && l'.startedAt == l.startedAt
  }

  /** What an event that lets the listen go on does to it. */
  predicate Continues(l: Listen, e: Event, zone: Zone, l': Listen) {
    && SameListen(l, l')
    && l'.listened == l.listened + Heard(l.lastTick, [e], zone)
    && l'.lastTick == LastTick(l.lastTick, [e], zone) && l'.playing == LastPlaying(l.playing, [e], zone)
    && l'.position == LastPosition(l.position, [e], zone) && l'.duration == LastDuration(l.duration, [e], zone)
  }

  /** The five accounts of one event. */
  lemma OneEvent(l: Listen, e: Event, zone: Zone)
    ensures var gap := if e.Observed? then e.now - l.lastTick else 0.0;
      Heard(l.lastTick, [e], zone) ==
      if Observes(e, zone) && e.seen.state == "Playing" && 0.0 < gap < 5.0 then gap else 0.0
    ensures LastTick(l.lastTick, [e], zone) == if Observes(e, zone) then e.now else l.lastTick
    ensures LastPlaying(l.playing, [e], zone) == if Observes(e, zone) then e.seen.state == "Playing" else l.playing
    ensures LastPosition(l.position, [e], zone) ==
            if !Observes(e, zone) then l.position else if e.seen.position >= 0.0 then e.seen.position else 0.0
    ensures LastDuration(l.duration, [e], zone) ==
            if Observes(e, zone) && e.seen.duration > 0.0 then Some(e.seen.duration) else l.duration
  {
    assert [e][1..] == [];
  }

  lemma MatchedContinues(t: Tracker, l: Listen, e: Event, zone: Zone)
    requires e.Observed? && e.zone == zone && l.zone == zone
    ensures var t' := MatchedStep(t, l, e.seen, e.now);
      && t'.active.Keys == t.active.Keys + {zone} && Continues(l, e, zone, t'.active[zone])
      && forall z | z in t.active && z != zone :: t'.active[z] == t.active[z]
  {
    OneEvent(l, e, zone);
    hide Heard, LastTick, LastPlaying, LastPosition, LastDuration;
  }

  lemma UntouchedContinues(l: Listen, e: Event, zone: Zone, l': Listen)
    requires !Observes(e, zone) && l' == l.(queue := l'.queue)
    ensures Continues(l, e, zone, l')
  {
    OneEvent(l, e, zone);
    hide Heard, LastTick, LastPlaying, LastPosition, LastDuration;
  }

  ghost predicate Zoned(t: Tracker) {
    forall z | z in t.active :: t.active[z].zone == z
  }

  /** Only the zone's own listen may differ, and it is the zone's. */
  ghost predicate LeavesOthers(t: Tracker, t': Tracker, zone: Zone) {
    && (forall z | z != zone :: z in t'.active <==> z in t.active)
    && (forall z | z != zone && z in t.active :: t'.active[z] == t.active[z])
    && (zone in t'.active && (zone in t.active ==> t.active[zone].zone == zone) ==> t'.active[zone].zone == zone)
  }

  lemma RecoverLeaves(t: Tracker, zone: Zone, profile: string, o: Observation, now: real, matches: Matcher,
                      local: Option<Source>)
    ensures LeavesOthers(t, RecoverStep(t, zone, profile, o, now, matches, local), zone)
  {
    hide FirstMatch, Recover;
  }

  lemma IdleLeaves(t: Tracker, zone: Zone, profile: string, o: Observation, now: real, matches: Matcher,
                   local: Option<Source>)
    ensures LeavesOthers(t, IdleStep(t, zone, profile, o, now, matches, local), zone)
  {
    hide RecoverStep;
    RecoverLeaves(Forget(t, zone), zone, profile, o, now, matches, local);
  }

  lemma StoppedLeaves(t: Tracker, zone: Zone, l: Listen, o: Observation, now: real, repeat: bool)
    requires l.zone == zone
    ensures LeavesOthers(t, StoppedStep(t, zone, l, o, now, repeat), zone)
  {
    hide Record, IsComplete;
  }

  lemma ElsewhereLeaves(t: Tracker, zone: Zone, l: Listen, profile: string, o: Observation, now: real,
                        matches: Matcher, local: Option<Source>)
    requires l.zone == zone && zone !in t.active
    ensures LeavesOthers(t, ElsewhereStep(t, zone, l, profile, o, now, matches, local), zone)
  {
    hide Record, FirstMatch, RecoverStep;
    RecoverLeaves(Finish(t, l, false), zone, profile, o, now, matches, local);
  }

  lemma MatchedLeaves(t: Tracker, zone: Zone, l: Listen, o: Observation, now: real)
    requires l.zone == zone
    ensures LeavesOthers(t, MatchedStep(t, l, o, now), zone)
  {
    hide Tick;
  }

  lemma ObserveLeaves(t0: Tracker, zone: Zone, profile: string, o: Observation, now: real, matches: Matcher,
                      repeat: bool, local: Option<Source>)
    requires Zoned(t0)
    ensures LeavesOthers(t0, ObserveStep(t0, zone, profile, o, now, matches, repeat, local), zone)
  {
    hide IdleStep, StoppedStep, ElsewhereStep, MatchedStep;
    var t := t0.(clock := now);
    if zone !in t.active {
      IdleLeaves(t, zone, profile, o, now, matches, local);
    } else {
      var l, taken := t.active[zone], Forget(Take(t, zone), zone);
      StoppedLeaves(taken, zone, l, o, now, repeat);
      ElsewhereLeaves(taken, zone, l, profile, o, now, matches, local);
      MatchedLeaves(taken, zone, l, o, now);
    }
  }

  lemma StartLeaves(t: Tracker, zone: Zone, zoneName: string, profile: string, source: Source, queue: seq<Source>,
                    radio: bool, now: real)
    ensures LeavesOthers(t, StartStep(t, zone, zoneName, profile, source, queue, radio, now), zone)
  {
    hide Record, QueueOf;
  }

  lemma EndLeaves(t: Tracker, zone: Zone, now: real)
    ensures LeavesOthers(t, StopStep(t, zone), zone) && LeavesOthers(t, NextStep(t, zone, now), zone)
  {
    hide Record, IsComplete;
  }

  lemma OtherZones(t: Tracker, e: Event, zone: Zone)
    requires GoesOn(t, e, zone) && Zoned(t) && !Observes(e, zone)
    ensures zone in Step(t, e).active && Step(t, e).active[zone] == t.active[zone].(queue := Step(t, e).active[zone].queue)
  {
    hide StartStep, StopStep, NextStep, ObserveStep, QueueOf;
    match e
    case Started(other, zoneName, profile, source, queue, radio, now) =>
      StartLeaves(t, other, zoneName, profile, source, queue, radio, now);
    case Observed(other, profile, seen, now, matches, repeat, local) =>
      ObserveLeaves(t, other, profile, seen, now, matches, repeat, local);
    case Stopped(other) => EndLeaves(t, other, 0.0);
    case Skipped(other, now) => EndLeaves(t, other, now);
    case _ =>
  }

  lemma StaysZoned(t: Tracker, e: Event)
    requires Zoned(t)
    ensures Zoned(Step(t, e))
  {
    hide StartStep, StopStep, NextStep, ObserveStep, QueueOf;
    match e
    case Started(other, zoneName, profile, source, queue, radio, now) =>
      StartLeaves(t, other, zoneName, profile, source, queue, radio, now);
    case Observed(other, profile, seen, now, matches, repeat, local) =>
      ObserveLeaves(t, other, profile, seen, now, matches, repeat, local);
    case Stopped(other) => EndLeaves(t, other, 0.0);
    case Skipped(other, now) => EndLeaves(t, other, now);
    case _ =>
  }

  lemma EventContinues(t: Tracker, e: Event, zone: Zone)
    requires GoesOn(t, e, zone) && Zoned(t)
    ensures zone in Step(t, e).active && Continues(t.active[zone], e, zone, Step(t, e).active[zone])
  {
    if Observes(e, zone) {
      var t' := t.(clock := e.now);
      MatchedContinues(Forget(Take(t', zone), zone), t.active[zone], e, zone);
      hide MatchedStep, Continues;
    } else {
      OtherZones(t, e, zone);
      hide Step, Continues;
      UntouchedContinues(t.active[zone], e, zone, Step(t, e).active[zone]);
    }
  }

  /** One observation adds what was heard since the last: always less than five seconds. */
  lemma ObservationAddsLittle(tick: real, e: Event, zone: Zone)
    ensures 0.0 <= Heard(tick, [e], zone) < 5.0
  {
    assert [e][1..] == [];
  }

  lemma HeardSplits(tick: real, events: seq<Event>, zone: Zone)
    requires events != []
    ensures var e, rest := [events[0]], events[1..];
      && Heard(tick, events, zone) == Heard(tick, e, zone) + Heard(LastTick(tick, e, zone), rest, zone)
      && LastTick(tick, events, zone) == LastTick(LastTick(tick, e, zone), rest, zone)
  {
    assert [events[0]][1..] == [];
  }

  lemma ReportsSplit(playing: bool, position: real, duration: Option<real>, events: seq<Event>, zone: Zone)
    requires events != []
    ensures var e, rest := [events[0]], events[1..];
      && LastPlaying(playing, events, zone) == LastPlaying(LastPlaying(playing, e, zone), rest, zone)
      && LastPosition(position, events, zone) == LastPosition(LastPosition(position, e, zone), rest, zone)
      && LastDuration(duration, events, zone) == LastDuration(LastDuration(duration, e, zone), rest, zone)
  {
    assert [events[0]][1..] == [];
  }

  /** While a track goes on, its listened time grows by exactly the gaps under five seconds that ended playing,
      whatever happens in other zones and to the queues; its position and duration are the last reported. */
  lemma {:induction false} ListenedIsHeard(t: Tracker, events: seq<Event>, zone: Zone)
    requires GoesOnThrough(t, events, zone) && Zoned(t)
    ensures zone in Run(t, events).active && SameListen(t.active[zone], Run(t, events).active[zone])
    ensures var l, l' := t.active[zone], Run(t, events).active[zone];
      && l'.listened == l.listened + Heard(l.lastTick, events, zone)
      && l'.lastTick == LastTick(l.lastTick, events, zone) && l'.playing == LastPlaying(l.playing, events, zone)
      && l'.position == LastPosition(l.position, events, zone) && l'.duration == LastDuration(l.duration, events, zone)
    ensures Zoned(Run(t, events))
    decreases |events|
  {
    hide Step, GoesOn, Zoned, Heard, LastTick, LastPlaying, LastPosition, LastDuration;
    var l := t.active[zone];
    if events == [] {
      NothingHeard(l.lastTick, l.playing, l.position, l.duration, zone);
    } else {
      EventContinues(t, events[0], zone);
      StaysZoned(t, events[0]);
      ListenedIsHeard(Step(t, events[0]), events[1..], zone);
      HeardSplits(l.lastTick, events, zone);
      ReportsSplit(l.playing, l.position, l.duration, events, zone);
    }
  }

  /** A live report counts what was heard and the running gap, if the track was last seen playing. */
  lemma LiveReportIsHeard(t: Tracker, events: seq<Event>, zone: Zone, now: real)
    requires GoesOnThrough(t, events, zone) && Zoned(t) && t.active[zone].listened >= 0.0
    ensures zone in Run(t, events).active
    ensures var l := t.active[zone];
      var gap := now - LastTick(l.lastTick, events, zone);
      PlayedBy(Run(t, events).active[zone], now) ==
      l.listened + Heard(l.lastTick, events, zone)
      + if LastPlaying(l.playing, events, zone) && 0.0 < gap < 5.0 then gap else 0.0
  {
    ListenedIsHeard(t, events, zone);
    hide Run, Heard, LastTick, LastPlaying, LastPosition, LastDuration, GoesOnThrough, Zoned;
  }

  lemma NothingHeard(tick: real, playing: bool, position: real, duration: Option<real>, zone: Zone)
    ensures Heard(tick, [], zone) == 0.0 && LastTick(tick, [], zone) == tick
    ensures LastPlaying(playing, [], zone) == playing && LastPosition(position, [], zone) == position
    ensures LastDuration(duration, [], zone) == duration
  {
  }

  // ----- What is left of it -----

  /** The record of so much listening, if it is worth one: a quarter of a second, or counted. It counts from thirty
      seconds on, or when a shorter track was completed; completed is the last twentieth or the last two seconds. */
  predicate Recorded(l: Listen, played: real, position: real, duration: Option<real>, completed: bool,
                     records: seq<History>)
  {
    var counted := played >= 30.0 || (completed && duration.Some? && duration.value < 30.0);
    records == if played <= 0.25 && !counted then []
               else [History(l.profile, l.source, l.zone, l.zoneName, played, duration, completed, counted, l.radio)]
  }

  predicate NearEnd(position: real, duration: Option<real>) {
    duration.Some? && duration.value > 0.0 && (20.0 * position >= 19.0 * duration.value || duration.value - position <= 2.0)
  }

  /** The history grew by the record of so much listening. */
  ghost predicate LeavesRecord(t: Tracker, t': Tracker, l: Listen, played: real, position: real,
                               duration: Option<real>, completed: bool)
  {
    && |t'.history| >= |t.history| && t'.history[..|t.history|] == t.history
    && Recorded(l, played, position, duration, completed, t'.history[|t.history|..])
  }

  lemma FinishRecords(t: Tracker, l: Listen, completed: bool)
    requires l.listened >= 0.0
    ensures LeavesRecord(t, Finish(t, l, completed), l, l.listened, l.position, l.duration, completed)
  {
    assert (t.history + Record(l, completed))[|t.history|..] == Record(l, completed);
  }

  lemma RecordOfSame(t: Tracker, t': Tracker, l: Listen, l': Listen, completed: bool)
    requires SameListen(l, l') && LeavesRecord(t, t', l', l'.listened, l'.position, l'.duration, completed)
    ensures LeavesRecord(t, t', l, l'.listened, l'.position, l'.duration, completed)
  {
  }

  lemma SameHistory(t: Tracker, u: Tracker, t': Tracker, u': Tracker, l: Listen, completed: bool)
    requires t.history == u.history && t'.history == u'.history
    requires LeavesRecord(t, t', l, l.listened, l.position, l.duration, completed)
    ensures LeavesRecord(u, u', l, l.listened, l.position, l.duration, completed)
  {
    hide Recorded;
  }

  lemma StopRecords(t: Tracker, zone: Zone)
    requires zone in t.active && t.active[zone].listened >= 0.0
    ensures var l, t' := t.active[zone], Step(t, Stopped(zone));
      zone !in t'.active && LeavesRecord(t, t', l, l.listened, l.position, l.duration, NearEnd(l.position, l.duration))
  {
    var l, taken := t.active[zone], Take(Forget(t, zone), zone);
    var completed := IsComplete(l.position, l.duration);
    assert completed == NearEnd(l.position, l.duration);
    FinishRecords(taken, l, completed);
    hide LeavesRecord, Record;
    SameHistory(taken, t, Finish(taken, l, completed), Step(t, Stopped(zone)), l, completed);
  }

  lemma StoppedAfter(u: Tracker, zone: Zone, l: Listen)
    requires zone in u.active && u.active[zone].listened >= 0.0 && SameListen(l, u.active[zone])
    ensures var l', u' := u.active[zone], Step(u, Stopped(zone));
      && zone !in u'.active
      && LeavesRecord(u, u', l, l'.listened, l'.position, l'.duration, NearEnd(l'.position, l'.duration))
  {
    hide *;
    var l' := u.active[zone];
    StopRecords(u, zone);
    RecordOfSame(u, Step(u, Stopped(zone)), l, l', NearEnd(l'.position, l'.duration));
  }

  /** A track that goes on and is then stopped leaves one record: what was heard, completed if near its end. */
  lemma StoppedTrackIsRecorded(t: Tracker, events: seq<Event>, zone: Zone)
    requires GoesOnThrough(t, events, zone) && Zoned(t)
    requires t.active[zone].listened >= 0.0
    ensures var l, before := t.active[zone], Run(t, events);
      var after := Step(before, Stopped(zone));
      var played := l.listened + Heard(l.lastTick, events, zone);
      var position, duration := LastPosition(l.position, events, zone), LastDuration(l.duration, events, zone);
      zone !in after.active && LeavesRecord(before, after, l, played, position, duration, NearEnd(position, duration))
  {
    hide Run, Step, Heard, LastTick, LastPlaying, LastPosition, LastDuration, LeavesRecord, NearEnd, SameListen;
    ListenedIsHeard(t, events, zone);
    StoppedAfter(Run(t, events), zone, t.active[zone]);
  }

  /** The next track, opened from the front of the queue. */
  predicate Follows(queue: seq<Queued>, t: Tracker, zone: Zone, now: real) {
    if queue == [] then zone !in t.active
    else
      && zone in t.active && t.active[zone].source == queue[0].source && t.active[zone].profile == queue[0].profile
      && t.active[zone].radio == queue[0].radio && t.active[zone].queue == queue[1..]
      && t.active[zone].listened == 0.0 && t.active[zone].pendingMatch && t.active[zone].startedAt == now
  }

  lemma SkipRecords(t: Tracker, zone: Zone, now: real)
    requires zone in t.active && t.active[zone].listened >= 0.0
    ensures var l, t' := t.active[zone], Step(t, Skipped(zone, now));
      LeavesRecord(t, t', l, l.listened, l.position, l.duration, false) && Follows(l.queue, t', zone, now)
  {
    var l, taken := t.active[zone], Take(Forget(t.(clock := now), zone), zone);
    FinishRecords(taken, l, false);
    hide LeavesRecord, Record;
    SameHistory(taken, t, Finish(taken, l, false), Step(t, Skipped(zone, now)), l, false);
  }

  lemma SkippedAfter(u: Tracker, zone: Zone, l: Listen, now: real)
    requires zone in u.active && u.active[zone].listened >= 0.0 && SameListen(l, u.active[zone])
    ensures var l', u' := u.active[zone], Step(u, Skipped(zone, now));
      LeavesRecord(u, u', l, l'.listened, l'.position, l'.duration, false) && Follows(l'.queue, u', zone, now)
  {
    hide *;
    SkipRecords(u, zone, now);
    RecordOfSame(u, Step(u, Skipped(zone, now)), l, u.active[zone], false);
  }

  /** A track that goes on and is then skipped leaves one record, not completed, and the queue's front follows. */
  lemma SkippedTrackIsRecorded(t: Tracker, events: seq<Event>, zone: Zone, now: real)
    requires GoesOnThrough(t, events, zone) && Zoned(t)
    requires t.active[zone].listened >= 0.0
    ensures zone in Run(t, events).active
    ensures var l, before := t.active[zone], Run(t, events);
      var after := Step(before, Skipped(zone, now));
      && LeavesRecord(before, after, l, l.listened + Heard(l.lastTick, events, zone),
                      LastPosition(l.position, events, zone), LastDuration(l.duration, events, zone), false)
      && Follows(before.active[zone].queue, after, zone, now)
  {
    hide Run, Step, Heard, LastTick, LastPlaying, LastPosition, LastDuration, LeavesRecord, Follows, SameListen;
    ListenedIsHeard(t, events, zone);
    SkippedAfter(Run(t, events), zone, t.active[zone], now);
  }

  /** A completed track with something to follow it waits twenty seconds from the first report of a stop, and is
      then finalized as completed. */
  lemma CompletedTrackWaits(t: Tracker, zone: Zone, profile: string, seen: Observation, now: real, matches: Matcher,
                            repeat: bool, local: Option<Source>)
    requires zone in t.active && t.active[zone].zone == zone && seen.state == "Stopped"
    requires var l := t.active[zone];
      var position := if seen.position > l.position then seen.position else l.position;
      && !(l.pendingMatch && now - l.startedAt < 20.0) && (l.queue != [] || repeat) && l.position >= 0.0
      && NearEnd(position, if seen.duration > 0.0 then Some(seen.duration) else l.duration)
    ensures var l := t.active[zone];
      var since := if l.waitingSince.Some? then l.waitingSince.value else now;
      var t' := Step(t, Observed(zone, profile, seen, now, matches, repeat, local));
      if now - since < 20.0 then
        && zone in t'.active && t'.active[zone].number == l.number && t'.active[zone].waitingSince == Some(since)
        && t'.active[zone].listened == l.listened && t'.active[zone].queue == l.queue && t'.finalized == t.finalized
      else
        && zone !in t'.active && |t'.finalized| == |t.finalized| + 1 && t'.finalized[..|t.finalized|] == t.finalized
        && t'.finalized[|t.finalized|].listen.number == l.number && t'.finalized[|t.finalized|].completed
        && t'.finalized[|t.finalized|].listen.listened == l.listened
  {
  }

  /** A track started less than twenty seconds ago and not yet seen survives being seen stopped or elsewhere. */
  lemma StartIsGivenTime(t: Tracker, zone: Zone, profile: string, seen: Observation, now: real, matches: Matcher,
                         repeat: bool, local: Option<Source>)
    requires zone in t.active && t.active[zone].zone == zone && (seen.state == "Stopped" || !matches(t.active[zone].source, seen))
    requires t.active[zone].pendingMatch && now - t.active[zone].startedAt < 20.0
    ensures var t' := Step(t, Observed(zone, profile, seen, now, matches, repeat, local));
      && zone in t'.active && t'.active[zone].number == t.active[zone].number
      && t'.active[zone].listened == t.active[zone].listened && t'.finalized == t.finalized
  {
    hide FirstMatch, Recover;
  }

  /** A listen recovered from what a zone plays starts with the reported position, at most the reported duration. */
  lemma RecoveredStartsAtPosition(t: Tracker, zone: Zone, profile: string, seen: Observation, now: real,
                                  matches: Matcher, local: Option<Source>)
    requires zone !in t.active && zone !in t.transferred && seen.state == "Playing"
    requires (zone in t.pending && exists i | 0 <= i < |t.pending[zone]| :: matches(t.pending[zone][i].source, seen)) ||
             local.Some?
    ensures var t' := Step(t, Observed(zone, profile, seen, now, matches, false, local));
      && zone in t'.active && t'.active[zone].listened == t'.active[zone].recovered
      && t'.active[zone].recovered ==
         (if seen.position <= 0.0 then 0.0
          else if seen.duration > 0.0 && seen.duration < seen.position then seen.duration else seen.position)
  {
    hide FirstMatch;
  }

  // ----- How listens begin and move -----

  /** A started track is the zone's listen, fresh and with its queue in order; what was running there is finalized
      unfinished, and older plans for the zone are dropped. */
  lemma StartOpensTrack(t: Tracker, zone: Zone, zoneName: string, profile: string, source: Source,
                        queue: seq<Source>, radio: bool, now: real)
    ensures var t' := Step(t, Started(zone, zoneName, profile, source, queue, radio, now));
      && zone in t'.active && zone !in t'.pending && zone !in t'.transferred
      && var l := t'.active[zone];
         && l.source == source && l.profile == profile && l.zoneName == zoneName && l.radio == radio
         && l.listened == l.recovered == 0.0 && l.startedAt == l.lastTick == now && l.pendingMatch && !l.playing
         && |l.queue| == |queue|
         && (forall i | 0 <= i < |queue| :: l.queue[i].source == queue[i] && l.queue[i].profile == profile && l.queue[i].radio == radio)
         && (zone in t.active ==>
               |t'.finalized| == |t.finalized| + 1 && t'.finalized[|t.finalized|] == Finalized(t.active[zone], false))
         && (zone !in t.active ==> t'.finalized == t.finalized)
  {
    hide Record;
  }

  /** A zone seen playing a queued track, its own not being what plays, moves on to the first such track: the old
      listen ends as completed and the rest of the queue stays. */
  lemma QueuedTrackFollows(t: Tracker, zone: Zone, profile: string, seen: Observation, now: real, matches: Matcher,
                           repeat: bool, local: Option<Source>, i: nat)
    requires zone in t.active && t.active[zone].zone == zone && seen.state != "Stopped"
    requires !matches(t.active[zone].source, seen)
    requires !(t.active[zone].pendingMatch && now - t.active[zone].startedAt < 20.0)
    requires i < |t.active[zone].queue| && matches(t.active[zone].queue[i].source, seen)
    requires forall j | 0 <= j < i :: !matches(t.active[zone].queue[j].source, seen)
    ensures var l := t.active[zone];
      var t' := Step(t, Observed(zone, profile, seen, now, matches, repeat, local));
      && zone in t'.active && t'.active[zone].source == l.queue[i].source && t'.active[zone].queue == l.queue[i + 1..]
      && t'.active[zone].profile == l.queue[i].profile && t'.active[zone].listened == 0.0
      && t'.active[zone].playing == (seen.state == "Playing")
      && |t'.finalized| == |t.finalized| + 1 && t'.finalized[|t.finalized|].completed
      && t'.finalized[|t.finalized|].listen.number == l.number
      && t'.finalized[|t.finalized|].listen.listened == l.listened
  {
    hide Record, FirstMatch;
    var found := FirstMatch(t.active[zone].queue, seen, matches);
    assert found == Some(i);
  }

  /** A transfer takes the listen with its time and queue to the other zone. */
  lemma TransferMovesListen(t: Tracker, from: Zone, to: Zone, toName: string, position: real, duration: real,
                            playing: bool, now: real)
    requires from != to && from in t.active
    ensures var l, t' := t.active[from], Step(t, Transferred(from, to, toName, position, duration, playing, now));
      && from !in t'.active && to in t'.active && from in t'.transferred && t'.transferred[from] == l.source
      && var l' := t'.active[to];
         && l'.number == l.number && l'.source == l.source && l'.queue == l.queue && l'.listened == l.listened
         && l'.recovered == l.recovered && l'.startedAt == l.startedAt && l'.profile == l.profile && l'.radio == l.radio
         && l'.zoneName == toName && l'.playing == playing && l'.lastTick == now
         && l'.position == (if position >= 0.0 then position else 0.0)
         && l'.duration == (if duration > 0.0 then Some(duration) else l.duration)
  {
  }

  /** The zone a track left, still seen playing it, opens no listen. */
  lemma LeftZoneStaysQuiet(t: Tracker, zone: Zone, profile: string, seen: Observation, now: real, matches: Matcher,
                           repeat: bool, local: Option<Source>)
    requires zone !in t.active && zone in t.transferred && seen.state == "Playing" && matches(t.transferred[zone], seen)
    ensures Step(t, Observed(zone, profile, seen, now, matches, repeat, local)) == t.(clock := now)
  {
  }
}
