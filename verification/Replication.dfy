/** What the client's cache holds against what the server remembers of it, with messages on the way
    (cuberef_server/src/network_server/client_context.rs, cuberef_client/src/net_client/client_context.rs). */
module Replication {
  import opened Wrappers
  import opened Coordinates
  import opened ChunkTable
  import opened Subscriptions

  // ----- the client's side -----------------------------------------------------------------------------------------

  /** The chunks the client has after a message. */
  function Received(cache: set<ChunkCoordinate>, m: Message): set<ChunkCoordinate> {
    match m
    case FullChunk(coord, _) => cache + {coord}
    case MapDelta(_) => cache
    case Unsubscribe(coords) => cache - Elements(coords)
  }

  /** Whether the client accepts the message without a bugcheck. */
  predicate Accepts(cache: set<ChunkCoordinate>, m: Message) {
    match m
    case FullChunk(_, _) => true
    case MapDelta(updates) => ChunksOf(updates) <= cache
    case Unsubscribe(coords) => Elements(coords) <= cache && Distinct(coords)
  }

  /** The cache when all messages are delivered. */
  function Drained(cache: set<ChunkCoordinate>, ms: seq<Message>): set<ChunkCoordinate>
    decreases |ms|
  {
    if ms == [] then cache else Drained(Received(cache, ms[0]), ms[1..])
  }

  predicate AllAccepted(cache: set<ChunkCoordinate>, ms: seq<Message>)
    decreases |ms|
  {
    ms == [] || (Accepts(cache, ms[0]) && AllAccepted(Received(cache, ms[0]), ms[1..]))
  }

  lemma {:induction false} DrainedAppend(cache: set<ChunkCoordinate>, a: seq<Message>, b: seq<Message>)
    ensures Drained(cache, a + b) == Drained(Drained(cache, a), b)
    ensures AllAccepted(cache, a + b) <==> AllAccepted(cache, a) && AllAccepted(Drained(cache, a), b)
    decreases |a|
  {
    hide Received, Accepts;
    if a == [] {
      assert a + b == b;
    } else {
      assert (a + b)[1..] == a[1..] + b;
      DrainedAppend(Received(cache, a[0]), a[1..], b);
    }
  }

  lemma {:induction false} FullChunksDrained(cache: set<ChunkCoordinate>, coords: seq<ChunkCoordinate>, ids: MapIds)
    ensures Drained(cache, FullChunks(coords, ids)) == cache + Elements(coords)
    ensures AllAccepted(cache, FullChunks(coords, ids))
    decreases |coords|
  {
    if coords == [] {
      assert FullChunks(coords, ids) == [];
    } else {
      var ms := FullChunks(coords, ids);
      assert ms[1..] == FullChunks(coords[1..], ids);
      FullChunksDrained(cache + {coords[0]}, coords[1..], ids);
      assert Elements(coords) == {coords[0]} + Elements(coords[1..]);
    }
  }

  // ----- both sides ------------------------------------------------------------------------------------------------

  datatype System = System(
    known: set<ChunkCoordinate>,
    interested: set<ChunkCoordinate>,
    channel: seq<Message>,
    cache: set<ChunkCoordinate>,
    bugchecks: nat,
    lagged: bool)                  // whether the server ever had to forget what it sent

  datatype Step =
    | Move(center: ChunkCoordinate, chunksToSend: nat, ids: MapIds, unsubscribed: seq<ChunkCoordinate>)
    | Update(events: seq<BlockUpdate>, ids: MapIds)
    | Lag
    | Deliver

  predicate Enabled(s: System, step: Step) {
    match step
    case Move(center, _, _, unsubscribed) => InBounds(center) && Lists(unsubscribed, Far(center, s.known))
    case Update(events, _) => events != []
    case Lag => true
    case Deliver => s.channel != []
  }

  /** What the two contexts' methods do, message delivery in between; `table` is the server's table of offsets. */
  function Do(table: seq<Offset>, s: System, step: Step): System
    requires Enabled(s, step)
  {
    match step
    case Move(center, chunksToSend, ids, unsubscribed) =>
      var near := s.known - Far(center, s.known);
      var sent := First(Missing(center, near, table, 0), chunksToSend + 1);
      s.(known := near + Elements(sent),
         interested := s.interested - Far(center, s.interested),
         channel := s.channel + (FullChunks(sent, ids) + UnsubscribeMessage(unsubscribed)))
    case Update(events, ids) =>
      var updates := Batched(s.interested, [events[0]], events[1..]).0;
      s.(known := s.known + ChunksOf(updates),
         channel := s.channel + (FullChunks(Unknown(s.known, updates), ids) + [MapDelta(updates)]))
    case Lag => s.(known := {}, interested := {}, lagged := true)
    case Deliver =>
      s.(channel := s.channel[1..],
         cache := Received(s.cache, s.channel[0]),
         bugchecks := s.bugchecks + if Accepts(s.cache, s.channel[0]) then 0 else 1)
  }

  /** The server remembers only chunks that the client will have when all messages have arrived, and exactly those
      unless it had to forget; and the client will accept every message on the way. */
  predicate InStep(s: System) {
    var drained := Drained(s.cache, s.channel);
    && s.known <= drained
    && (!s.lagged ==> s.known == drained)
    && AllAccepted(s.cache, s.channel)
    && s.bugchecks == 0
  }

  // ----- what is served --------------------------------------------------------------------------------------------

  /** Served chunks are in bounds, near the player, and were not there before. */
  lemma {:induction false} MissingAreNear(
    center: ChunkCoordinate, known: set<ChunkCoordinate>, table: seq<Offset>, i: nat, k: nat)
    requires InBounds(center) && i <= |table| && k < |Missing(center, known, table, i)|
    requires forall j :: 0 <= j < |table| ==> InCube(table[j], LOAD_LAZY_DISTANCE)
    ensures var c := Missing(center, known, table, i)[k];
      InBounds(c) && c !in known && ManhattanDistance(center, c) <= LOAD_EAGER_DISTANCE
    decreases |table| - i
  {
    hide InBounds;
    if Serves(center, known, table[i]) {
      DistanceAt(center, table[i]);
      if k > 0 { MissingAreNear(center, known + {At(center, table[i])}, table, i + 1, k - 1); }
    } else {
      MissingAreNear(center, known, table, i + 1, k);
    }
  }

  /** The table's distance is the distance from the player, and different entries are different chunks. */
  lemma DistanceAt(center: ChunkCoordinate, o: Offset)
    requires InBounds(center) && InCube(o, LOAD_LAZY_DISTANCE)
    ensures ManhattanDistance(center, At(center, o)) == Distance(o)
    ensures At(center, o) == ChunkCoordinate(center.x + o.x, center.y + o.y, center.z + o.z)
  {
  }

  /** Each point of the cube once, nearest first. */
  ghost predicate IsTable(table: seq<Offset>) {
    NearestFirst(table) && forall o: Offset :: Occurrences(table, o) == if InCube(o, LOAD_LAZY_DISTANCE) then 1 else 0
  }

  /** The server's table is one. */
  lemma BuiltTable()
    ensures IsTable(Table(LOAD_LAZY_DISTANCE))
  {
    hide Table, Occurrences;
    forall o: Offset
      ensures Occurrences(Table(LOAD_LAZY_DISTANCE), o) == if InCube(o, LOAD_LAZY_DISTANCE) then 1 else 0
    {
      TableIsExact(LOAD_LAZY_DISTANCE, o);
    }
    TableIsExact(LOAD_LAZY_DISTANCE, Offset(0, 0, 0));
  }

  /** The near chunks that the client lacks, in the order in which they are served. */
  function Lacking(table: seq<Offset>, center: ChunkCoordinate, known: set<ChunkCoordinate>): seq<ChunkCoordinate> {
    Missing(center, known, table, 0)
  }

  lemma OffsetsInCube(table: seq<Offset>, j: nat)
    requires IsTable(table) && j < |table|
    ensures InCube(table[j], LOAD_LAZY_DISTANCE)
  {
    hide Table;
    var o := table[j];
    CountedIn(table, j);
  }

  lemma {:induction false} MissingHas(
    center: ChunkCoordinate, known: set<ChunkCoordinate>, table: seq<Offset>, i: nat, j: nat)
    requires i <= j < |table| && Serves(center, known, table[j])
    ensures At(center, table[j]) in Missing(center, known, table, i)
    decreases |table| - i
  {
    hide At, InBounds;
    if Serves(center, known, table[i]) {
      if At(center, table[i]) != At(center, table[j]) {
        MissingHas(center, known + {At(center, table[i])}, table, i + 1, j);
      }
    } else {
      MissingHas(center, known, table, i + 1, j);
    }
  }

  /** A chunk near the player is at some entry of the table. */
  lemma NearIsListed(table: seq<Offset>, center: ChunkCoordinate, c: ChunkCoordinate) returns (j: nat)
    requires IsTable(table)
    requires InBounds(center) && InBounds(c) && ManhattanDistance(center, c) <= LOAD_EAGER_DISTANCE
    ensures j < |table| && At(center, table[j]) == c && Distance(table[j]) <= LOAD_EAGER_DISTANCE
  {
    hide Table;
    var o := Offset(c.x - center.x, c.y - center.y, c.z - center.z);
    assert InCube(o, LOAD_LAZY_DISTANCE);
    DistanceAt(center, o);
    InCounted(table, o);
    j :| 0 <= j < |table| && table[j] == o;
  }

  /** What is lacking is every chunk in bounds, within the eager distance, and not with the client. */
  lemma LackingExactly(table: seq<Offset>, center: ChunkCoordinate, known: set<ChunkCoordinate>, c: ChunkCoordinate)
    requires IsTable(table)
    requires InBounds(center)
    ensures c in Lacking(table, center, known) <==>
            InBounds(c) && c !in known && ManhattanDistance(center, c) <= LOAD_EAGER_DISTANCE
  {
    hide Missing, At, InBounds, ManhattanDistance, Distance;
    forall j: nat | j < |table| ensures InCube(table[j], LOAD_LAZY_DISTANCE) { OffsetsInCube(table, j); }
    if c in Lacking(table, center, known) {
      var k :| 0 <= k < |Lacking(table, center, known)| && Lacking(table, center, known)[k] == c;
      MissingAreNear(center, known, table, 0, k);
    } else if InBounds(c) && c !in known && ManhattanDistance(center, c) <= LOAD_EAGER_DISTANCE {
      var j := NearIsListed(table, center, c);
      MissingHas(center, known, table, 0, j);
    }
  }

  lemma {:induction false} MissingInOrder(
    center: ChunkCoordinate, known: set<ChunkCoordinate>, table: seq<Offset>, i: nat)
    requires InBounds(center) && i <= |table| && NearestFirst(table)
    requires forall j :: 0 <= j < |table| ==> InCube(table[j], LOAD_LAZY_DISTANCE)
    ensures var m := Missing(center, known, table, i);
      && Distinct(m)
      && (forall k :: 0 <= k < |m| ==> m[k] !in known)
      && (forall k :: 0 <= k < |m| ==> ManhattanDistance(center, m[k]) >= Distance(table[i]))
      && (forall k, l :: 0 <= k < l < |m| ==> ManhattanDistance(center, m[k]) <= ManhattanDistance(center, m[l]))
    decreases |table| - i
  {
    hide InBounds, InCube, ManhattanDistance, Distance;
    if i < |table| {
      DistanceAt(center, table[i]);
      assert i + 1 < |table| ==> Distance(table[i]) <= Distance(table[i + 1]);
      if Serves(center, known, table[i]) {
        MissingInOrder(center, known + {At(center, table[i])}, table, i + 1);
      } else {
        MissingInOrder(center, known, table, i + 1);
      }
    }
  }

  /** A position update serves exactly as many chunks as it may, or all that are lacking; and while one is left, it is
      no nearer than any served. */
  lemma NearestServedFirst(
    table: seq<Offset>,
    center: ChunkCoordinate, known: set<ChunkCoordinate>, n: nat, served: ChunkCoordinate, left: ChunkCoordinate)
    requires IsTable(table)
    requires InBounds(center)
    ensures var sent := First(Lacking(table, center, known), n + 1);
      && |sent| == Min(|Lacking(table, center, known)|, n + 1)
      && Distinct(sent)
      && (served in sent && left in Lacking(table, center, known) && left !in sent ==>
            ManhattanDistance(center, served) <= ManhattanDistance(center, left))
  {
    hide Missing, ManhattanDistance;
    forall j: nat | j < |table| ensures InCube(table[j], LOAD_LAZY_DISTANCE) { OffsetsInCube(table, j); }
    MissingInOrder(center, known, table, 0);
    var lacking := Lacking(table, center, known);
    var sent := First(lacking, n + 1);
    if served in sent && left in lacking && left !in sent {
      var k :| 0 <= k < |sent| && sent[k] == served;
      var l :| 0 <= l < |lacking| && lacking[l] == left;
      assert forall i :: 0 <= i < |sent| ==> lacking[i] == sent[i];
    }
  }

  // ----- every step keeps both sides in step -----------------------------------------------------------------------

  /** The near chunks sent are not among the far ones dropped: so the list of dropped chunks may follow them. */
  lemma SentAreNotFar(
    table: seq<Offset>, center: ChunkCoordinate, known: set<ChunkCoordinate>, n: nat, all: set<ChunkCoordinate>)
    requires IsTable(table)
    requires InBounds(center)
    ensures Elements(First(Lacking(table, center, known), n)) !! Far(center, all)
  {
    hide Missing, ManhattanDistance;
    forall c | c in First(Lacking(table, center, known), n) ensures c !in Far(center, all) {
      assert c in Lacking(table, center, known);
      LackingExactly(table, center, known, c);
    }
  }

  lemma MoveKeeps(table: seq<Offset>, s: System, step: Step)
    requires IsTable(table)
    requires InStep(s) && Enabled(s, step) && step.Move?
    ensures InStep(Do(table, s, step))
  {
    hide Missing, FullChunks, Far, Lists, InBounds;
    var Move(center, n, ids, unsubscribed) := step;
    var near := s.known - Far(center, s.known);
    var sent := First(Missing(center, near, table, 0), n + 1);
    SentAreNotFar(table, center, near, n + 1, s.known);
    FarAreKnown(center, s.known);
    var drained := Drained(s.cache, s.channel);
    DrainedAppend(s.cache, s.channel, FullChunks(sent, ids) + UnsubscribeMessage(unsubscribed));
    DrainedAppend(drained, FullChunks(sent, ids), UnsubscribeMessage(unsubscribed));
    FullChunksDrained(drained, sent, ids);
    UnsubscribeDrained(drained + Elements(sent), unsubscribed, Far(center, s.known));
  }

  lemma FarAreKnown(center: ChunkCoordinate, known: set<ChunkCoordinate>)
    ensures Far(center, known) <= known
  {
  }

  lemma UnsubscribeDrained(cache: set<ChunkCoordinate>, list: seq<ChunkCoordinate>, far: set<ChunkCoordinate>)
    requires Lists(list, far) && far <= cache
    ensures Drained(cache, UnsubscribeMessage(list)) == cache - far
    ensures AllAccepted(cache, UnsubscribeMessage(list))
  {
    if list == [] {
      assert far == {};
    } else {
      OneMessage(cache, Unsubscribe(list));
    }
  }

  lemma OneMessage(cache: set<ChunkCoordinate>, m: Message)
    ensures Drained(cache, [m]) == Received(cache, m)
    ensures AllAccepted(cache, [m]) <==> Accepts(cache, m)
  {
    assert [m][1..] == [];
  }

  lemma {:induction false} UnknownCovers(known: set<ChunkCoordinate>, updates: seq<BlockUpdate>)
    ensures known + Elements(Unknown(known, updates)) == known + ChunksOf(updates)
    decreases |updates|
  {
    hide ChunkOf;
    if updates != [] {
      var c := ChunkOf(updates[0].location);
      assert updates == [updates[0]] + updates[1..];
      assert ChunksOf(updates) == {c} + ChunksOf(updates[1..]);
      if c in known {
        UnknownCovers(known, updates[1..]);
      } else {
        UnknownCovers(known + {c}, updates[1..]);
        var rest := Unknown(known + {c}, updates[1..]);
        assert Elements([c] + rest) == {c} + Elements(rest);
      }
    }
  }

  lemma UpdateKeeps(table: seq<Offset>, s: System, step: Step)
    requires InStep(s) && Enabled(s, step) && step.Update?
    ensures InStep(Do(table, s, step))
  {
    hide FullChunks, Unknown, Batched, ChunksOf, Elements;
    var Update(events, ids) := step;
    var updates := Batched(s.interested, [events[0]], events[1..]).0;
    var sent := Unknown(s.known, updates);
    var drained := Drained(s.cache, s.channel);
    DrainedAppend(s.cache, s.channel, FullChunks(sent, ids) + [MapDelta(updates)]);
    DrainedAppend(drained, FullChunks(sent, ids), [MapDelta(updates)]);
    FullChunksDrained(drained, sent, ids);
    UnknownCovers(s.known, updates);
    OneMessage(drained + Elements(sent), MapDelta(updates));
  }

  lemma InStepKept(table: seq<Offset>, s: System, step: Step)
    requires IsTable(table)
    requires InStep(s) && Enabled(s, step)
    ensures InStep(Do(table, s, step))
  {
    match step
    case Move(_, _, _, _) => MoveKeeps(table, s, step);
    case Update(_, _) => UpdateKeeps(table, s, step);
    case _ =>
  }

  // ----- whole runs ------------------------------------------------------------------------------------------------

  predicate Runs(table: seq<Offset>, s: System, steps: seq<Step>)
    decreases |steps|
  {
    steps == [] || (Enabled(s, steps[0]) && Runs(table, Do(table, s, steps[0]), steps[1..]))
  }

  function AfterRun(table: seq<Offset>, s: System, steps: seq<Step>): System
    requires Runs(table, s, steps)
    decreases |steps|
  {
    if steps == [] then s else AfterRun(table, Do(table, s, steps[0]), steps[1..])
  }

  const START: System := System({}, {}, [], {}, 0, false)

  lemma {:induction false} InStepOverRun(table: seq<Offset>, s: System, steps: seq<Step>)
    requires IsTable(table)
    requires InStep(s) && Runs(table, s, steps)
    ensures InStep(AfterRun(table, s, steps))
    decreases |steps|
  {
    hide Enabled, Do, InStep;
    if steps != [] {
      InStepKept(table, s, steps[0]);
      InStepOverRun(table, Do(table, s, steps[0]), steps[1..]);
    }
  }

  /** In every run from a fresh connection, the client never gets an unsubscribe or a delta for a chunk it lacks, and
      all that the server remembers is with the client once the messages on the way have arrived; nothing more, as
      long as the server never lagged. */
  lemma NoBugcheckEver(table: seq<Offset>, steps: seq<Step>)
    requires IsTable(table)
    requires Runs(table, START, steps)
    ensures var s := AfterRun(table, START, steps);
      && s.bugchecks == 0 && AllAccepted(s.cache, s.channel)
      && s.known <= Drained(s.cache, s.channel)
      && (!s.lagged ==> s.known == Drained(s.cache, s.channel))
  {
    assert InStep(START);
    InStepOverRun(table, START, steps);
  }

  lemma {:induction false} NobodyInterested(table: seq<Offset>, s: System, steps: seq<Step>)
    requires s.interested == {} && Runs(table, s, steps)
    ensures AfterRun(table, s, steps).interested == {}
    decreases |steps|
  {
    if steps != [] {
      assert Do(table, s, steps[0]).interested == {};
      hide Enabled, Do;
      NobodyInterested(table, Do(table, s, steps[0]), steps[1..]);
    }
  }

  /** In every run: since no step ever makes a client interested in a chunk, an update is sent only if it is the first
      of its batch. All that are queued behind it are taken from the queue and dropped. */
  lemma QueuedUpdatesDropped(table: seq<Offset>, steps: seq<Step>, events: seq<BlockUpdate>)
    requires Runs(table, START, steps) && events != []
    ensures Batched(AfterRun(table, START, steps).interested, [events[0]], events[1..]) == ([events[0]], [])
  {
    hide Runs, AfterRun, Batched;
    NobodyInterested(table, START, steps);
    BatchedExactly({}, [events[0]], events[1..]);
    var (updates, rest) := Batched({}, [events[0]], events[1..]);
    NothingWanted(events[1..][..|events[1..]| - |rest|]);
    assert updates == [events[0]];
  }

  lemma {:induction false} NothingWanted(events: seq<BlockUpdate>)
    ensures Wanted({}, events) == []
  {
    if events != [] { NothingWanted(events[..|events| - 1]); }
  }

  // ----- progress --------------------------------------------------------------------------------------------------

  /** How many near chunks the client lacks. */
  function LackingCount(table: seq<Offset>, center: ChunkCoordinate, known: set<ChunkCoordinate>): nat {
    |Lacking(table, center, known)|
  }

  /** The count depends on which near chunks are known only, and drops by one for each that becomes known. */
  lemma LackingAfter(
    table: seq<Offset>, center: ChunkCoordinate, known: set<ChunkCoordinate>, after: set<ChunkCoordinate>, n: nat)
    requires IsTable(table)
    requires InBounds(center)
    requires n <= LackingCount(table, center, known)
    requires forall c :: c in Lacking(table, center, known) ==>
               (c in after <==> c in Lacking(table, center, known)[..n])
    requires forall c :: ManhattanDistance(center, c) <= LOAD_EAGER_DISTANCE && c in known ==> c in after
    ensures LackingCount(table, center, after) == LackingCount(table, center, known) - n
  {
    hide Missing, InBounds, ManhattanDistance, First;
    var before, later := Lacking(table, center, known), Lacking(table, center, after);
    LackingDistinct(table, center, known);
    LackingDistinct(table, center, after);
    DistinctSize(before[n..]);
    DistinctSize(later);
    forall c ensures c in later <==> c in before[n..] {
      LackingExactly(table, center, known, c);
      LackingExactly(table, center, after, c);
      SplitMembership(before, n, c);
    }
    assert Elements(later) == Elements(before[n..]);
  }

  lemma SplitMembership(s: seq<ChunkCoordinate>, n: nat, c: ChunkCoordinate)
    requires n <= |s| && Distinct(s)
    ensures c in s <==> c in s[..n] || c in s[n..]
    ensures !(c in s[..n] && c in s[n..])
  {
    assert s == s[..n] + s[n..];
  }

  lemma LackingDistinct(table: seq<Offset>, center: ChunkCoordinate, known: set<ChunkCoordinate>)
    requires IsTable(table)
    requires InBounds(center)
    ensures Distinct(Lacking(table, center, known))
  {
    hide Missing, ManhattanDistance;
    forall j: nat | j < |table| ensures InCube(table[j], LOAD_LAZY_DISTANCE) { OffsetsInCube(table, j); }
    MissingInOrder(center, known, table, 0);
  }

  lemma LackingOnlyNear(
    table: seq<Offset>, center: ChunkCoordinate, known: set<ChunkCoordinate>, after: set<ChunkCoordinate>)
    requires IsTable(table)
    requires InBounds(center) && known <= after
    ensures LackingCount(table, center, after) <= LackingCount(table, center, known)
  {
    hide Missing, InBounds, ManhattanDistance;
    LackingDistinct(table, center, known);
    LackingDistinct(table, center, after);
    DistinctSize(Lacking(table, center, known));
    DistinctSize(Lacking(table, center, after));
    forall c | c in Elements(Lacking(table, center, after)) ensures c in Elements(Lacking(table, center, known)) {
      LackingExactly(table, center, known, c);
      LackingExactly(table, center, after, c);
    }
    SubsetSize(Elements(Lacking(table, center, after)), Elements(Lacking(table, center, known)));
  }

  function Less(count: nat, served: nat): nat { if count <= served then 0 else count - served }

  /** A position update brings the count down by as much as it may serve. */
  lemma MoveServes(table: seq<Offset>, s: System, step: Step)
    requires IsTable(table)
    requires Enabled(s, step) && step.Move?
    ensures LackingCount(table, step.center, Do(table, s, step).known) ==
            Less(LackingCount(table, step.center, s.known), step.chunksToSend + 1)
  {
    hide Missing, InBounds, ManhattanDistance, FullChunks, Lists;
    var center := step.center;
    var near := s.known - Far(center, s.known);
    NearAreNotFar(table, center, s.known);
    LackingAfter(table, center, s.known, near, 0);
    var lacking := Lacking(table, center, near);
    var sent := First(lacking, step.chunksToSend + 1);
    LackingDistinct(table, center, near);
    forall c | c in lacking ensures c in near + Elements(sent) <==> c in lacking[..|sent|] {
      LackingExactly(table, center, near, c);
    }
    LackingAfter(table, center, near, near + Elements(sent), |sent|);
  }

  lemma NearAreNotFar(table: seq<Offset>, center: ChunkCoordinate, known: set<ChunkCoordinate>)
    requires IsTable(table)
    requires InBounds(center)
    ensures forall c :: ManhattanDistance(center, c) <= LOAD_EAGER_DISTANCE && c in known ==> c !in Far(center, known)
    ensures forall c :: c in Lacking(table, center, known) ==> c !in known
  {
    hide ManhattanDistance, InBounds, Missing;
    forall c | c in Lacking(table, center, known) ensures c !in known { LackingExactly(table, center, known, c); }
  }

  /** All position updates of the run are from one place, and the server does not lag. */
  predicate StaysAt(center: ChunkCoordinate, steps: seq<Step>) {
    forall k :: 0 <= k < |steps| ==> !steps[k].Lag? && (steps[k].Move? ==> steps[k].center == center)
  }

  function Moves(steps: seq<Step>): nat {
    if steps == [] then 0 else (if steps[0].Move? then 1 else 0) + Moves(steps[1..])
  }

  /** A player who stays has all near chunks after as many position updates as chunks were lacking, or fewer, whatever
      else is sent in between. */
  lemma {:induction false} StayingServesAll(table: seq<Offset>, s: System, steps: seq<Step>, center: ChunkCoordinate)
    requires IsTable(table)
    requires InBounds(center) && Runs(table, s, steps) && StaysAt(center, steps)
    ensures LackingCount(table, center, AfterRun(table, s, steps).known)
         <= Less(LackingCount(table, center, s.known), Moves(steps))
    decreases |steps|
  {
    hide Enabled, Do, Lacking, LackingCount;
    if steps != [] {
      var next := Do(table, s, steps[0]);
      StayingServesAll(table, next, steps[1..], center);
      if steps[0].Move? {
        MoveServes(table, s, steps[0]);
      } else {
        OthersOnlyAdd(table, s, steps[0]);
        LackingOnlyNear(table, center, s.known, next.known);
      }
    }
  }

  lemma OthersOnlyAdd(table: seq<Offset>, s: System, step: Step)
    requires Enabled(s, step) && (step.Update? || step.Deliver?)
    ensures s.known <= Do(table, s, step).known
  {
  }
}
