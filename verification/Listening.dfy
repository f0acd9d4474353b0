/** The listening tracker: which listen each zone is in, and how each one ends (src/listening.rs). */
module Listening {
  import opened Numbers
  import opened Wrappers

  type Zone = string

  datatype Source = Source(key: string, radio: bool)

  datatype Queued = Queued(profile: string, source: Source, radio: bool)

  /** What a zone reports; the metadata only matters to the matching of sources. */
  datatype Observation = Observation(state: string, metadata: string, zoneName: Option<string>, position: real,
                                     duration: real)

  type Matcher = (Source, Observation) -> bool

  /** One listen.  The number names it, in the order of opening, and recovered is the time it was opened with;
      times are in seconds. */
  datatype Listen = Listen(
    number: nat,
    recovered: real,
    profile: string,
    source: Source,
    zone: Zone,
    zoneName: string,
    queue: seq<Queued>,
    listened: real,
    duration: Option<real>,
    position: real,
    lastTick: real,
    startedAt: real,
    waitingSince: Option<real>,
    pendingMatch: bool,
    playing: bool,
    radio: bool)

  datatype Finalized = Finalized(listen: Listen, completed: bool)

  /** One record of the listening history. */
  datatype History = History(profile: string, source: Source, zone: Zone, zoneName: string, played: real,
                             duration: Option<real>, completed: bool, counted: bool, radio: bool)

  /** The tracker's maps, the library's history, and what has been opened and finalized so far. */
  datatype Tracker = Tracker(active: map<Zone, Listen>, pending: map<Zone, seq<Queued>>,
                             transferred: map<Zone, Source>, history: seq<History>, numbered: nat,
                             finalized: seq<Finalized>, clock: real)

  const COUNTED_PLAY_SECONDS := 30.0
  const COMPLETION_RATIO := 0.95
  const COMPLETION_TAIL_SECONDS := 2.0
  const PENDING_MATCH_GRACE_SECONDS := 20.0
  const LONGEST_TICK := 5.0
  const SHORTEST_RECORD := 0.25

  // ----- Values -----

  function CountedPlay(played: real, duration: Option<real>, completed: bool): bool {
    played >= COUNTED_PLAY_SECONDS || (completed && duration.Some? && duration.value < COUNTED_PLAY_SECONDS)
  }

  function IsComplete(position: real, duration: Option<real>): bool {
    && duration.Some? && duration.value > 0.0
    && (position >= duration.value * COMPLETION_RATIO || duration.value - position <= COMPLETION_TAIL_SECONDS)
  }

  function DurationOption(duration: real): Option<real> {
    if duration > 0.0 then Some(duration) else None
  }

  function RecoveredListened(o: Observation): (r: real)
    ensures 0.0 <= r <= Larger(o.position, 0.0)
  {
    if o.position <= 0.0 then 0.0
    else if o.duration > 0.0 && o.duration < o.position then o.duration
    else o.position
  }

  function MergeProgress(l: Listen, o: Observation): Listen {
    l.(position := Larger(l.position, Larger(o.position, 0.0)), duration := DurationOption(o.duration).Or(l.duration))
  }

  function UpdateProgress(l: Listen, o: Observation): Listen {
    l.(position := Larger(o.position, 0.0), duration := DurationOption(o.duration).Or(l.duration))
  }

  /** The time since the last tick, if it counts. */
  function Tick(l: Listen, now: real): real {
    var delta := now - l.lastTick;
    if 0.0 < delta < LONGEST_TICK then delta else 0.0
  }

  /** What the listen has counted, and the time since its last observation if that was of it playing less than five
      seconds ago. */
  function PlayedBy(l: Listen, now: real): (r: real)
    ensures l.listened <= r
  {
    var gap := now - l.lastTick;
    (if l.listened >= 0.0 then l.listened else 0.0) + if l.playing && 0.0 < gap < 5.0 then gap else 0.0
  }

  function FirstMatch(queue: seq<Queued>, o: Observation, matches: Matcher): (r: Option<nat>)
    ensures r.Some? ==> r.value < |queue| && matches(queue[r.value].source, o)
    ensures r.Some? ==> forall i | 0 <= i < r.value :: !matches(queue[i].source, o)
    ensures r.None? ==> forall i | 0 <= i < |queue| :: !matches(queue[i].source, o)
  {
    if queue == [] then None
    else if matches(queue[0].source, o) then Some(0)
    else match FirstMatch(queue[1..], o, matches) case None => None case Some(i) => Some(i + 1)
  }

  // ----- Moving listens about -----

  /** What finalizing leaves in the history: nothing for a short play that does not count. */
  function Record(l: Listen, completed: bool): seq<History> {
    var played := Larger(l.listened, 0.0);
    var counted := CountedPlay(played, l.duration, completed);
    if played <= SHORTEST_RECORD && !counted then []
    else [History(l.profile, l.source, l.zone, l.zoneName, played, l.duration, completed, counted, l.radio)]
  }

  function Finish(t: Tracker, l: Listen, completed: bool): Tracker {
    t.(finalized := t.finalized + [Finalized(l, completed)], history := t.history + Record(l, completed))
  }

  function Take(t: Tracker, zone: Zone): Tracker {
    t.(active := t.active - {zone})
  }

  function Put(t: Tracker, l: Listen): Tracker {
    t.(active := t.active[l.zone := l])
  }

  function Open(t: Tracker, l: Listen): Tracker {
    Put(t, l).(numbered := t.numbered + 1)
  }

  function Forget(t: Tracker, zone: Zone): Tracker {
    t.(transferred := t.transferred - {zone})
  }

  function NewListen(t: Tracker, q: Queued, zone: Zone, zoneName: string, queue: seq<Queued>, now: real): Listen {
    Listen(t.numbered, 0.0, q.profile, q.source, zone, zoneName, queue, 0.0, None, 0.0, now, now, None, true, false,
           q.radio)
  }

  function SeenListen(t: Tracker, q: Queued, zone: Zone, zoneName: string, queue: seq<Queued>, o: Observation,
                      recovered: real, now: real): Listen
  {
    Listen(t.numbered, recovered, q.profile, q.source, zone, zoneName, queue, recovered, DurationOption(o.duration),
           Larger(o.position, 0.0), now, now, None, false, o.state == "Playing", q.radio)
  }

  // ----- One function per operation -----

  function StartStep(t: Tracker, zone: Zone, zoneName: string, profile: string, source: Source, queue: seq<Source>,
                     radio: bool, now: real): Tracker
  {
    var cleared := Forget(t.(pending := t.pending - {zone}, clock := now), zone);
    var closed := if zone in t.active then Finish(Take(cleared, zone), t.active[zone], false) else cleared;
    Open(closed, NewListen(closed, Queued(profile, source, radio), zone, zoneName,
                           QueueOf(queue, radio, profile), now))
  }

  function QueueOf(queue: seq<Source>, radio: bool, profile: string): seq<Queued> {
    seq(|queue|, i requires 0 <= i < |queue| => Queued(profile, queue[i], radio))
  }

  function SetQueueStep(t: Tracker, zone: Zone, profile: string, queue: seq<Source>, radio: bool): Tracker {
    var queued := QueueOf(queue, radio, profile);
    if zone in t.active then t.(active := t.active[zone := t.active[zone].(queue := queued)])
    else if queue == [] then t.(pending := t.pending - {zone})
    else t.(pending := t.pending[zone := queued])
  }

  function AppendQueueStep(t: Tracker, zone: Zone, profile: string, queue: seq<Source>, radio: bool): Tracker {
    var queued := QueueOf(queue, radio, profile);
    if queue == [] then t
    else if zone in t.active then t.(active := t.active[zone := t.active[zone].(queue := t.active[zone].queue + queued)])
    else t.(pending := t.pending[zone := (if zone in t.pending then t.pending[zone] else []) + queued])
  }

  function TransferStep(t: Tracker, from: Zone, to: Zone, toName: string, position: real, duration: real,
                        playing: bool, now: real): Tracker
  {
    if from == to || from !in t.active then t.(clock := now)
    else
      var l := t.active[from];
      var moved := l.(zone := to, zoneName := toName, position := Larger(position, 0.0),
                      duration := DurationOption(duration).Or(l.duration), playing := playing, lastTick := now);
      Put(Take(t.(transferred := t.transferred[from := l.source], clock := now), from), moved)
  }

  function StopStep(t: Tracker, zone: Zone): Tracker {
    var cleared := Forget(t, zone);
    if zone !in t.active then cleared
    else
      var l := t.active[zone];
      Finish(Take(cleared, zone), l, IsComplete(l.position, l.duration))
  }

  function NextStep(t: Tracker, zone: Zone, now: real): Tracker {
    var cleared := Forget(t.(clock := now), zone);
    if zone !in t.active then cleared
    else
      var l := t.active[zone];
      var closed := Finish(Take(cleared, zone), l, false);
      if l.queue == [] then closed
      else Open(closed, NewListen(closed, l.queue[0], zone, l.zoneName, l.queue[1..], now))
  }

  datatype Recovery = Recovery(pending: map<Zone, seq<Queued>>, found: Option<(Queued, seq<Queued>)>)

  /** Look for the observed source in the zone's pending queue, then in the library. */
  function Recover(t: Tracker, zone: Zone, profile: string, o: Observation, matches: Matcher, local: Option<Source>)
    : Recovery
  {
    var index := if zone in t.pending then FirstMatch(t.pending[zone], o, matches) else None;
    match index
    case Some(i) =>
      var queue := t.pending[zone];
      Recovery(t.pending - {zone}, Some((queue[i], queue[i + 1..])))
    case None =>
      Recovery(t.pending, if local.Some? then Some((Queued(profile, local.value, false), [])) else None)
  }

  function RecoverStep(t: Tracker, zone: Zone, profile: string, o: Observation, now: real, matches: Matcher,
                       local: Option<Source>): Tracker
  {
    var recovery := Recover(t, zone, profile, o, matches, local);
    var found := t.(pending := recovery.pending);
    if recovery.found.None? then found
    else
      var zoneName := if o.zoneName.Some? then o.zoneName.value else zone;
      Open(found, SeenListen(found, recovery.found.value.0, zone, zoneName, recovery.found.value.1, o,
                             RecoveredListened(o), now))
  }

  /** An observation of a zone without a listen. */
  function IdleStep(t: Tracker, zone: Zone, profile: string, o: Observation, now: real, matches: Matcher,
                    local: Option<Source>): Tracker
  {
    if zone in t.transferred && o.state == "Playing" && matches(t.transferred[zone], o) then t
    else if o.state == "Playing" then RecoverStep(Forget(t, zone), zone, profile, o, now, matches, local)
    else Forget(t, zone)
  }

  predicate InGrace(l: Listen, now: real) {
    l.pendingMatch && now - l.startedAt < PENDING_MATCH_GRACE_SECONDS
  }

  function StoppedStep(t: Tracker, zone: Zone, l0: Listen, o: Observation, now: real, repeat: bool): Tracker {
    var l := MergeProgress(l0, o);
    var completed := IsComplete(l.position, l.duration);
    var waiting := if l.waitingSince.Some? then l.waitingSince.value else now;
    if InGrace(l, now) then Put(t, l.(lastTick := now))
    else if completed && (l.queue != [] || repeat) && now - waiting < PENDING_MATCH_GRACE_SECONDS then
      Put(t, l.(waitingSince := Some(waiting), lastTick := now))
    else if completed && (l.queue != [] || repeat) then Finish(t, l.(waitingSince := Some(waiting)), completed)
    else Finish(t, l, completed)
  }

  function ElsewhereStep(t: Tracker, zone: Zone, l: Listen, profile: string, o: Observation, now: real,
                         matches: Matcher, local: Option<Source>): Tracker
  {
    if InGrace(l, now) then Put(t, l.(lastTick := now))
    else
      match FirstMatch(l.queue, o, matches)
      case Some(i) =>
        var closed := Finish(t, l.(queue := l.queue[..i]), true);
        Open(closed, SeenListen(closed, l.queue[i], zone, l.zoneName, l.queue[i + 1..], o, 0.0, now))
      case None =>
        var closed := Finish(t, l, false);
        if o.state == "Playing" then RecoverStep(closed, zone, profile, o, now, matches, local) else closed
  }

  function MatchedStep(t: Tracker, l0: Listen, o: Observation, now: real): Tracker {
    var playing := o.state == "Playing";
    var l := l0.(pendingMatch := false, waitingSince := None, lastTick := now, playing := playing,
                 listened := l0.listened + if playing then Tick(l0, now) else 0.0);
    Put(t, UpdateProgress(l, o))
  }

  function ObserveStep(t0: Tracker, zone: Zone, profile: string, o: Observation, now: real, matches: Matcher,
                       repeat: bool, local: Option<Source>): Tracker
  {
    var t := t0.(clock := now);
    if zone !in t.active then IdleStep(t, zone, profile, o, now, matches, local)
    else
      var l, taken := t.active[zone], Forget(Take(t, zone), zone);
      if o.state == "Stopped" then StoppedStep(taken, zone, l, o, now, repeat)
      else if !matches(l.source, o) then ElsewhereStep(taken, zone, l, profile, o, now, matches, local)
      else MatchedStep(taken, l, o, now)
  }

  // ----- Where a listen is -----

  function ZonesOf(active: map<Zone, Listen>, number: nat): set<Zone> {
    set zone | zone in active && active[zone].number == number
  }

  function TimesFinalized(finalized: seq<Finalized>, number: nat): nat {
    if finalized == [] then 0
    else TimesFinalized(finalized[..|finalized| - 1], number)
         + if finalized[|finalized| - 1].listen.number == number then 1 else 0
  }

  /** In how many zones the listen is, plus how often it was finalized. */
  function Places(t: Tracker, number: nat): nat {
    |ZonesOf(t.active, number)| + TimesFinalized(t.finalized, number)
  }

  /** Every opened listen is in exactly one zone or was finalized exactly once; no other exists. */
  ghost predicate Accounted(t: Tracker) {
    && (forall zone | zone in t.active :: t.active[zone].zone == zone)
    && forall number: nat {:trigger Places(t, number)} :: Places(t, number) == if number < t.numbered then 1 else 0
  }

  function One(number: nat, other: nat): nat {
    if number == other then 1 else 0
  }

  lemma TakePlaces(t: Tracker, zone: Zone, number: nat)
    requires zone in t.active
    ensures Places(t, number) == Places(Take(t, zone), number) + One(t.active[zone].number, number)
  {
    ZonesWithout(t.active, zone, number);
  }

  lemma ZonesWithout(active: map<Zone, Listen>, zone: Zone, number: nat)
    requires zone in active
    ensures |ZonesOf(active, number)| == |ZonesOf(active - {zone}, number)| + One(active[zone].number, number)
  {
    var rest := active - {zone};
    var before, after := ZonesOf(active, number), ZonesOf(rest, number);
    assert forall z :: z in rest <==> z in active && z != zone;
    assert after == before - {zone};
    assert zone in before <==> active[zone].number == number;
  }

  lemma PutPlaces(t: Tracker, l: Listen, number: nat)
    requires l.zone !in t.active
    ensures Places(Put(t, l), number) == Places(t, number) + One(l.number, number)
  {
    var before, after := ZonesOf(t.active, number), ZonesOf(Put(t, l).active, number);
    if l.number == number {
      assert after == before + {l.zone};
    } else {
      assert after == before;
    }
  }

  lemma FinishPlaces(t: Tracker, l: Listen, completed: bool, number: nat)
    ensures Places(Finish(t, l, completed), number) == Places(t, number) + One(l.number, number)
  {
    var finalized := t.finalized + [Finalized(l, completed)];
    assert finalized[..|t.finalized|] == t.finalized;
  }

  /** The places depend on nothing but the zones' listens and the finalized ones. */
  lemma SamePlaces(t: Tracker, t': Tracker, number: nat)
    requires t'.finalized == t.finalized && t'.active.Keys == t.active.Keys
    requires forall zone | zone in t.active :: t'.active[zone].number == t.active[zone].number
    ensures Places(t', number) == Places(t, number)
  {
    assert ZonesOf(t'.active, number) == ZonesOf(t.active, number);
  }

  /** All but one: the listen numbered held has left the maps and is in hand. */
  ghost predicate InHand(t: Tracker, held: nat, zone: Zone) {
    && held < t.numbered && zone !in t.active
    && (forall z | z in t.active :: t.active[z].zone == z)
    && forall number: nat {:trigger Places(t, number)} ::
         Places(t, number) + One(held, number) == if number < t.numbered then 1 else 0
  }

  lemma TakeInHand(t: Tracker, t': Tracker, zone: Zone)
    requires Accounted(t) && zone in t.active
    requires t'.active == t.active - {zone} && t'.finalized == t.finalized && t'.numbered == t.numbered
    ensures InHand(t', t.active[zone].number, zone)
  {
    hide Places;
    forall number: nat
      ensures Places(t', number) + One(t.active[zone].number, number) == if number < t.numbered then 1 else 0
    {
      TakePlaces(t, zone, number);
      SamePlaces(Take(t, zone), t', number);
    }
    var held := t.active[zone].number;
    assert Places(t', held) + One(held, held) == if held < t.numbered then 1 else 0;
  }

  lemma PutBack(t: Tracker, l: Listen, zone: Zone)
    requires InHand(t, l.number, zone) && l.zone !in t.active
    ensures Accounted(Put(t, l))
  {
    hide Places;
    forall number: nat ensures Places(Put(t, l), number) == if number < t.numbered then 1 else 0 {
      PutPlaces(t, l, number);
    }
  }

  lemma FinishInHand(t: Tracker, l: Listen, completed: bool, zone: Zone)
    requires InHand(t, l.number, zone)
    ensures Accounted(Finish(t, l, completed)) && zone !in Finish(t, l, completed).active
  {
    hide Places;
    forall number: nat ensures Places(Finish(t, l, completed), number) == if number < t.numbered then 1 else 0 {
      FinishPlaces(t, l, completed, number);
    }
  }

  lemma OpenNew(t: Tracker, l: Listen)
    requires Accounted(t) && l.number == t.numbered && l.zone !in t.active
    ensures Accounted(Open(t, l))
  {
    hide Places;
    forall number: nat ensures Places(Open(t, l), number) == if number < t.numbered + 1 then 1 else 0 {
      PutPlaces(t, l, number);
      SamePlaces(Put(t, l), Open(t, l), number);
    }
  }

  lemma SameListens(t: Tracker, t': Tracker)
    requires Accounted(t) && t'.finalized == t.finalized && t'.active.Keys == t.active.Keys && t'.numbered == t.numbered
    requires forall zone | zone in t.active ::
      t'.active[zone].number == t.active[zone].number && t'.active[zone].zone == t.active[zone].zone
    ensures Accounted(t')
  {
    hide Places;
    forall number: nat ensures Places(t', number) == if number < t.numbered then 1 else 0 {
      SamePlaces(t, t', number);
    }
  }

  // ----- Time -----

  /** The listen has not counted more than it was opened with plus the time since it was opened. */
  predicate Timed(l: Listen, clock: real) {
    0.0 <= l.recovered && 0.0 <= l.listened <= l.recovered + (l.lastTick - l.startedAt) && l.startedAt <= l.lastTick <= clock
  }

  predicate Timely(t: Tracker) {
    && (forall zone | zone in t.active :: Timed(t.active[zone], t.clock))
    && (forall i | 0 <= i < |t.finalized| :: Timed(t.finalized[i].listen, t.clock))
  }

  /** The history the finalized listens leave. */
  function Histories(finalized: seq<Finalized>): seq<History> {
    if finalized == [] then []
    else
      var k := |finalized| - 1;
      Histories(finalized[..k]) + Record(finalized[k].listen, finalized[k].completed)
  }

  /** Every zone and every finalized listen keeps its time, and the history has each finalized listen once. */
  ghost predicate Sound(t: Tracker) {
    Accounted(t) && Timely(t) && t.history == Histories(t.finalized)
  }

  predicate Kept(t: Tracker) {
    Timely(t) && t.history == Histories(t.finalized)
  }

  lemma KeptWith(t: Tracker, t': Tracker)
    requires Kept(t) && t'.finalized == t.finalized && t'.history == t.history && t'.clock >= t.clock
    requires forall zone | zone in t'.active ::
      Timed(t'.active[zone], t'.clock) || (zone in t.active && t'.active[zone] == t.active[zone])
    ensures Kept(t')
  {
    hide Histories;
  }

  lemma FinishKept(t: Tracker, l: Listen, completed: bool)
    requires Kept(t) && Timed(l, t.clock)
    ensures Kept(Finish(t, l, completed))
  {
    hide Record;
    var finalized := t.finalized + [Finalized(l, completed)];
    assert finalized[..|t.finalized|] == t.finalized;
  }

  // ----- Each operation keeps both -----

  lemma StartKeeps(t: Tracker, zone: Zone, zoneName: string, profile: string, source: Source, queue: seq<Source>,
                   radio: bool, now: real)
    requires Sound(t) && now >= t.clock
    ensures Sound(StartStep(t, zone, zoneName, profile, source, queue, radio, now))
  {
    hide Places, Histories, Record;
    var cleared := Forget(t.(pending := t.pending - {zone}, clock := now), zone);
    var closed := if zone in t.active then Finish(Take(cleared, zone), t.active[zone], false) else cleared;
    KeptWith(t, cleared);
    if zone in t.active {
      TakeInHand(t, Take(cleared, zone), zone);
      FinishInHand(Take(cleared, zone), t.active[zone], false, zone);
      KeptWith(cleared, Take(cleared, zone));
      FinishKept(Take(cleared, zone), t.active[zone], false);
    } else {
      SameListens(t, cleared);
    }
    OpenKeeps(closed, NewListen(closed, Queued(profile, source, radio), zone, zoneName,
                                QueueOf(queue, radio, profile), now));
  }

  lemma OpenKeeps(t: Tracker, l: Listen)
    requires Sound(t) && l.number == t.numbered && l.zone !in t.active && Timed(l, t.clock)
    ensures Sound(Open(t, l))
  {
    OpenNew(t, l);
    hide Places, Histories;
    KeptWith(t, Open(t, l));
  }

  lemma StopKeeps(t: Tracker, zone: Zone)
    requires Sound(t)
    ensures Sound(StopStep(t, zone))
  {
    hide Places, Histories, Record, IsComplete;
    var cleared := Forget(t, zone);
    if zone in t.active {
      CloseKeeps(t, cleared, zone, IsComplete(t.active[zone].position, t.active[zone].duration));
    } else {
      SameListens(t, cleared);
    }
  }

  /** Taking a zone's listen out and finalizing it. */
  lemma CloseKeeps(t: Tracker, t': Tracker, zone: Zone, completed: bool)
    requires Sound(t) && zone in t.active
    requires t' == t.(pending := t'.pending, transferred := t'.transferred, clock := t'.clock) && t'.clock >= t.clock
    ensures Sound(Finish(Take(t', zone), t.active[zone], completed))
  {
    hide Places, Histories, Record;
    TakeInHand(t, Take(t', zone), zone);
    FinishInHand(Take(t', zone), t.active[zone], completed, zone);
    KeptWith(t, Take(t', zone));
    FinishKept(Take(t', zone), t.active[zone], completed);
  }

  lemma NextKeeps(t: Tracker, zone: Zone, now: real)
    requires Sound(t) && now >= t.clock
    ensures Sound(NextStep(t, zone, now))
  {
    hide Places, Histories, Record, Accounted, Timely;
    var cleared := Forget(t.(clock := now), zone);
    if zone in t.active {
      var l := t.active[zone];
      CloseKeeps(t, cleared, zone, false);
      var closed := Finish(Take(cleared, zone), l, false);
      if l.queue != [] {
        OpenKeeps(closed, NewListen(closed, l.queue[0], zone, l.zoneName, l.queue[1..], now));
      }
    } else {
      ClockKeeps(t, cleared);
    }
  }

  lemma ClockKeeps(t: Tracker, t': Tracker)
    requires Sound(t) && t'.clock >= t.clock
    requires t' == t.(pending := t'.pending, transferred := t'.transferred, clock := t'.clock)
    ensures Sound(t')
  {
    hide Places, Histories;
    SameListens(t, t');
    KeptWith(t, t');
  }

  /** Changing queues moves no listen. */
  lemma QueuesKeep(t: Tracker, t': Tracker, zone: Zone, queue: seq<Queued>)
    requires Sound(t)
    requires t' == t.(pending := t'.pending, active := t'.active)
    requires t'.active == t.active || (zone in t.active && t'.active == t.active[zone := t.active[zone].(queue := queue)])
    ensures Sound(t')
  {
    hide Places, Histories;
    SameListens(t, t');
    KeptWith(t, t');
  }

  /** A transfer keeps account of every listen exactly when it does not land on another one. */
  lemma TransferKeeps(t: Tracker, from: Zone, to: Zone, toName: string, position: real, duration: real,
                      playing: bool, now: real)
    requires Sound(t) && now >= t.clock
    ensures var t' := TransferStep(t, from, to, toName, position, duration, playing, now);
      && (Sound(t') <==> (from != to && from in t.active ==> to !in t.active))
      && Timely(t')
  {
    hide Places, Histories;
    if from == to || from !in t.active {
      ClockKeeps(t, t.(clock := now));
    } else {
      var l := t.active[from];
      var moved := l.(zone := to, zoneName := toName, position := Larger(position, 0.0),
                      duration := DurationOption(duration).Or(l.duration), playing := playing, lastTick := now);
      var taken := Take(t.(transferred := t.transferred[from := l.source], clock := now), from);
      TakeInHand(t, taken, from);
      KeptWith(t, taken);
      KeptWith(taken, Put(taken, moved));
      if to !in t.active {
        PutBack(taken, moved, from);
      } else {
        OverwrittenIsLost(t, taken, moved, from);
      }
    }
  }

  /** The listen a transfer lands on is in no zone and was never finalized. */
  lemma OverwrittenIsLost(t: Tracker, taken: Tracker, moved: Listen, from: Zone)
    requires Accounted(t) && from in t.active && moved.zone in t.active && moved.zone != from
    requires taken.active == t.active - {from} && taken.finalized == t.finalized && taken.numbered == t.numbered
    requires moved.number == t.active[from].number
    ensures !Accounted(Put(taken, moved))
    ensures Places(Put(taken, moved), t.active[moved.zone].number) == 0
  {
    var to := moved.zone;
    var lost := t.active[to].number;
    TakePlaces(t, to, lost);
    var without := Take(taken, to);
    TakeInHand(t, taken, from);
    SamePlaces(Take(t, from), taken, lost);
    TakePlaces(t, from, lost);
    TakePlaces(taken, to, lost);
    PutPlaces(without, moved, lost);
    SamePlaces(Put(without, moved), Put(taken, moved), lost);
    hide Places;
    assert Places(t, lost) == if lost < t.numbered then 1 else 0;
  }

  // ----- Observations -----

  lemma RecoverKeeps(t: Tracker, zone: Zone, profile: string, o: Observation, now: real, matches: Matcher,
                     local: Option<Source>)
    requires Sound(t) && t.clock == now && zone !in t.active
    ensures Sound(RecoverStep(t, zone, profile, o, now, matches, local))
  {
    hide Places, Histories, Accounted, Timely, FirstMatch;
    var recovery := Recover(t, zone, profile, o, matches, local);
    var found := t.(pending := recovery.pending);
    ClockKeeps(t, found);
    if recovery.found.Some? {
      var zoneName := if o.zoneName.Some? then o.zoneName.value else zone;
      OpenKeeps(found, SeenListen(found, recovery.found.value.0, zone, zoneName, recovery.found.value.1, o,
                                  RecoveredListened(o), now));
    }
  }

  lemma IdleKeeps(t: Tracker, zone: Zone, profile: string, o: Observation, now: real, matches: Matcher,
                  local: Option<Source>)
    requires Sound(t) && t.clock == now && zone !in t.active
    ensures Sound(IdleStep(t, zone, profile, o, now, matches, local))
  {
    hide Sound, RecoverStep;
    ForgetKeeps(t, zone);
    RecoverKeeps(Forget(t, zone), zone, profile, o, now, matches, local);
  }

  lemma ForgetKeeps(t: Tracker, zone: Zone)
    requires Sound(t)
    ensures Sound(Forget(t, zone))
  {
    hide Sound;
    ClockKeeps(t, Forget(t, zone));
  }

  /** All of Sound but for the listen in hand. */
  ghost predicate Holding(t: Tracker, l: Listen, zone: Zone) {
    InHand(t, l.number, zone) && Kept(t) && Timed(l, t.clock) && l.zone == zone
  }

  lemma PutKeeps(t: Tracker, l: Listen, l': Listen, zone: Zone)
    requires Holding(t, l, zone) && l'.number == l.number && l'.zone == zone && Timed(l', t.clock)
    ensures Sound(Put(t, l'))
  {
    hide Places, Histories;
    PutBack(t, l', zone);
    KeptWith(t, Put(t, l'));
  }

  lemma FinishKeeps(t: Tracker, l: Listen, l': Listen, completed: bool, zone: Zone)
    requires Holding(t, l, zone) && l'.number == l.number && Timed(l', t.clock)
    ensures Sound(Finish(t, l', completed)) && zone !in Finish(t, l', completed).active
  {
    hide Places, Histories;
    FinishInHand(t, l', completed, zone);
    FinishKept(t, l', completed);
  }

  lemma StoppedKeeps(t: Tracker, zone: Zone, l: Listen, o: Observation, now: real, repeat: bool)
    requires Holding(t, l, zone) && t.clock == now
    ensures Sound(StoppedStep(t, zone, l, o, now, repeat))
  {
    var merged := MergeProgress(l, o);
    var completed := IsComplete(merged.position, merged.duration);
    var waiting := if merged.waitingSince.Some? then merged.waitingSince.value else now;
    assert Timed(merged, t.clock) && Timed(merged.(lastTick := now), t.clock);
    hide Holding, Sound, IsComplete, Put, Finish;
    PutKeeps(t, l, merged.(lastTick := now), zone);
    PutKeeps(t, l, merged.(waitingSince := Some(waiting), lastTick := now), zone);
    FinishKeeps(t, l, merged.(waitingSince := Some(waiting)), completed, zone);
    FinishKeeps(t, l, merged, completed, zone);
  }

  lemma ElsewhereKeeps(t: Tracker, zone: Zone, l: Listen, profile: string, o: Observation, now: real,
                       matches: Matcher, local: Option<Source>)
    requires Holding(t, l, zone) && t.clock == now
    ensures Sound(ElsewhereStep(t, zone, l, profile, o, now, matches, local))
  {
    hide Places, Histories, Accounted, InHand, Timely, FirstMatch, RecoverStep, Put, Finish, Open, Record;
    assert Timed(l, t.clock) && Timed(l.(lastTick := now), t.clock);
    hide Holding, Sound, Kept, Timed;
    if InGrace(l, now) {
      PutKeeps(t, l, l.(lastTick := now), zone);
    } else {
      var index := FirstMatch(l.queue, o, matches);
      if index.Some? {
        AdvanceKeeps(t, zone, l, index.value, o, now);
      } else {
        FinishKeeps(t, l, l, false, zone);
        FinishClock(t, l, false);
        RecoverKeeps(Finish(t, l, false), zone, profile, o, now, matches, local);
      }
    }
  }

  lemma FinishClock(t: Tracker, l: Listen, completed: bool)
    ensures Finish(t, l, completed).clock == t.clock
  {
    hide Record;
  }

  /** Closing one listen and opening the queued one the zone has moved on to. */
  lemma AdvanceKeeps(t: Tracker, zone: Zone, l: Listen, i: nat, o: Observation, now: real)
    requires Holding(t, l, zone) && t.clock == now && i < |l.queue|
    ensures var closed := Finish(t, l.(queue := l.queue[..i]), true);
      Sound(Open(closed, SeenListen(closed, l.queue[i], zone, l.zoneName, l.queue[i + 1..], o, 0.0, now)))
  {
    hide Places, Histories, Accounted, InHand, Timely, Finish, Open, Record;
    var ended := l.(queue := l.queue[..i]);
    assert ended.number == l.number && Timed(ended, t.clock);
    hide Holding, Sound, Kept;
    FinishKeeps(t, l, ended, true, zone);
    FinishClock(t, ended, true);
    var closed := Finish(t, ended, true);
    OpenKeeps(closed, SeenListen(closed, l.queue[i], zone, l.zoneName, l.queue[i + 1..], o, 0.0, now));
  }

  lemma MatchedKeeps(t: Tracker, zone: Zone, l: Listen, o: Observation, now: real)
    requires Holding(t, l, zone) && t.clock == now
    ensures Sound(MatchedStep(t, l, o, now))
  {
    var playing := o.state == "Playing";
    var ticked := l.(pendingMatch := false, waitingSince := None, lastTick := now, playing := playing,
                     listened := l.listened + if playing then Tick(l, now) else 0.0);
    assert Timed(UpdateProgress(ticked, o), now);
    hide Holding, Sound, Put;
    PutKeeps(t, l, UpdateProgress(ticked, o), zone);
  }

  lemma ObserveKeeps(t0: Tracker, zone: Zone, profile: string, o: Observation, now: real, matches: Matcher,
                     repeat: bool, local: Option<Source>)
    requires Sound(t0) && now >= t0.clock
    ensures Sound(ObserveStep(t0, zone, profile, o, now, matches, repeat, local))
  {
    hide IdleStep, StoppedStep, ElsewhereStep, MatchedStep, Places, Histories;
    var t := t0.(clock := now);
    ClockKeeps(t0, t);
    if zone !in t.active {
      IdleKeeps(t, zone, profile, o, now, matches, local);
    } else {
      var l, taken := t.active[zone], Forget(Take(t, zone), zone);
      TakeInHand(t, taken, zone);
      KeptWith(t, taken);
      hide Sound;
      StoppedKeeps(taken, zone, l, o, now, repeat);
      ElsewhereKeeps(taken, zone, l, profile, o, now, matches, local);
      MatchedKeeps(taken, zone, l, o, now);
    }
  }

  // ----- Runs -----

  datatype Event =
    | Started(zone: Zone, zoneName: string, profile: string, source: Source, queue: seq<Source>, radio: bool, now: real)
    | QueueSet(zone: Zone, profile: string, queue: seq<Source>, radio: bool)
    | QueueAppended(zone: Zone, profile: string, queue: seq<Source>, radio: bool)
    | Transferred(from: Zone, to: Zone, toName: string, position: real, duration: real, playing: bool, now: real)
    | Observed(zone: Zone, profile: string, seen: Observation, now: real, matches: Matcher, repeat: bool,
               local: Option<Source>)
    | Stopped(zone: Zone)
    | Skipped(zone: Zone, now: real)

  function Step(t: Tracker, e: Event): Tracker {
    match e
    case Started(zone, zoneName, profile, source, queue, radio, now) =>
      StartStep(t, zone, zoneName, profile, source, queue, radio, now)
    case QueueSet(zone, profile, queue, radio) => SetQueueStep(t, zone, profile, queue, radio)
    case QueueAppended(zone, profile, queue, radio) => AppendQueueStep(t, zone, profile, queue, radio)
    case Transferred(from, to, toName, position, duration, playing, now) =>
      TransferStep(t, from, to, toName, position, duration, playing, now)
    case Observed(zone, profile, seen, now, matches, repeat, local) =>
      ObserveStep(t, zone, profile, seen, now, matches, repeat, local)
    case Stopped(zone) => StopStep(t, zone)
    case Skipped(zone, now) => NextStep(t, zone, now)
  }

  /** The clock never runs backwards. */
  predicate InOrder(t: Tracker, e: Event) {
    match e
    case Started(_, _, _, _, _, _, now) => now >= t.clock
    case Transferred(_, _, _, _, _, _, now) => now >= t.clock
    case Observed(_, _, _, now, _, _, _) => now >= t.clock
    case Skipped(_, now) => now >= t.clock
    case _ => true
  }

  /** The event moves a listen onto another one. */
  predicate LandsOnAnother(t: Tracker, e: Event) {
    e.Transferred? && e.from != e.to && e.from in t.active && e.to in t.active
  }

  lemma StepKeeps(t: Tracker, e: Event)
    requires Sound(t) && InOrder(t, e)
    ensures Sound(Step(t, e)) <==> !LandsOnAnother(t, e)
  {
    hide Sound, StartStep, TransferStep, ObserveStep, StopStep, NextStep;
    match e
    case Started(zone, zoneName, profile, source, queue, radio, now) =>
      StartKeeps(t, zone, zoneName, profile, source, queue, radio, now);
    case QueueSet(zone, profile, queue, radio) =>
      QueuesKeep(t, Step(t, e), zone, QueueOf(queue, radio, profile));
    case QueueAppended(zone, profile, queue, radio) =>
      var longer := if zone in t.active then t.active[zone].queue + QueueOf(queue, radio, profile) else [];
      QueuesKeep(t, Step(t, e), zone, longer);
    case Transferred(from, to, toName, position, duration, playing, now) =>
      TransferKeeps(t, from, to, toName, position, duration, playing, now);
    case Observed(zone, profile, seen, now, matches, repeat, local) =>
      ObserveKeeps(t, zone, profile, seen, now, matches, repeat, local);
    case Stopped(zone) => StopKeeps(t, zone);
    case Skipped(zone, now) => NextKeeps(t, zone, now);
  }

  function Run(t: Tracker, events: seq<Event>): Tracker
    decreases |events|
  {
    if events == [] then t else Run(Step(t, events[0]), events[1..])
  }

  predicate WellBehaved(t: Tracker, events: seq<Event>)
    decreases |events|
  {
    events == [] || (InOrder(t, events[0]) && !LandsOnAnother(t, events[0])
                     && WellBehaved(Step(t, events[0]), events[1..]))
  }

  function Empty(clock: real): Tracker {
    Tracker(map[], map[], map[], [], 0, [], clock)
  }

  lemma EmptyIsSound(clock: real)
    ensures Sound(Empty(clock))
  {
    var t := Empty(clock);
    forall number: nat ensures Places(t, number) == 0 {
      assert ZonesOf(t.active, number) == {};
    }
  }

  lemma {:induction false} RunKeeps(t: Tracker, events: seq<Event>)
    requires Sound(t) && WellBehaved(t, events)
    ensures Sound(Run(t, events))
    decreases |events|
  {
    hide Sound, Step, InOrder, LandsOnAnother;
    if events != [] {
      StepKeeps(t, events[0]);
      RunKeeps(Step(t, events[0]), events[1..]);
    }
  }
}
