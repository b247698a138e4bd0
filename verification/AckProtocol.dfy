/** Sequence numbers and their acknowledgements (cuberef_client/src/net_client/client_context.rs,
    cuberef_server/src/network_server/client_context.rs). */
module AckProtocol {
  import opened Wrappers

  /** What a message is about; a position and velocity may have a component that is not a finite number. */
  datatype Payload = Ready | Action | Position(finite: bool)

  /** A message to the server, and its sequence number, zero for none. */
  datatype Message = Message(sequence: nat, payload: Payload)

  /** The client's bookkeeping, whether its outbound loop still runs, and the two channels. */
  datatype State = State(
    sequence: nat,
    ackMap: set<nat>,
    lastPosUpdateSeq: Option<nat>,
    open: bool,
    toServer: seq<Message>,
    toClient: seq<nat>,
    bugchecks: nat)

  datatype Step =
    | Connect
    | SendAction
    | SendPosition(finite: bool)
    | ServerHandles(ok: bool)      // `ok` is about actions only
    | ClientGetsAck

  /** Whether the client refuses to send positions that are not finite, as the game's client does. */
  datatype Client = Careful | Careless

  const START: State := State(1, {}, None, true, [], [], 0)

  /** A message with the next number, remembered until its acknowledgement. */
  function SendSequenced(s: State, payload: Payload): State {
    s.(sequence := s.sequence + 1,
       ackMap := s.ackMap + {s.sequence + 1},
       toServer := s.toServer + [Message(s.sequence + 1, payload)])
  }

  /** Whether the last position update waits for its acknowledgement. */
  predicate Withholds(s: State) { s.lastPosUpdateSeq.Some? && s.lastPosUpdateSeq.value in s.ackMap }

  /** Whether the server handles a message without an error: a position exactly if it is finite. */
  predicate Handles(m: Message, ok: bool) { if m.payload.Position? then m.payload.finite else ok }

  predicate Enabled(s: State, step: Step) {
    match step
    case Connect | SendAction | SendPosition(_) => s.open
    case ServerHandles(_) => s.toServer != []
    case ClientGetsAck => s.toClient != []
  }

  /** Whether a step sends a position update. */
  predicate Sends(client: Client, s: State, step: Step) {
    step.SendPosition? && !Withholds(s) && (step.finite || client.Careless?)
  }

  function Do(client: Client, s: State, step: Step): State
    requires Enabled(s, step)
  {
    match step
    case Connect => s.(toServer := s.toServer + [Message(0, Ready)])
    case SendAction => SendSequenced(s, Action)
    case SendPosition(finite) =>
      if Sends(client, s, step) then SendSequenced(s, Position(finite)).(lastPosUpdateSeq := Some(s.sequence + 1))
      else if Withholds(s) then s
      else s.(open := false)
    case ServerHandles(ok) =>
      var m := s.toServer[0];
      s.(toServer := s.toServer[1..],
         toClient := if Handles(m, ok) && m.sequence != 0 then s.toClient + [m.sequence] else s.toClient)
    case ClientGetsAck =>
      s.(toClient := s.toClient[1..],
         ackMap := s.ackMap - {s.toClient[0]},
         bugchecks := s.bugchecks + if s.toClient[0] in s.ackMap then 0 else 1)
  }

  // ----- the two sides ---------------------------------------------------------------------------------------------

  /** The client's outbound and inbound contexts, which share the map of sequence numbers. */
  class ClientContexts {
    var sequence: nat
    var ackMap: set<nat>
    var lastPosUpdateSeq: Option<nat>
    var open: bool
    var outbound: seq<Message>
    var bugchecks: nat

    /** This side of the state. */
    ghost function With(acks: seq<nat>): State
      reads this
    {
      State(sequence, ackMap, lastPosUpdateSeq, open, outbound, acks, bugchecks)
    }

    constructor ()
      ensures With([]) == START
    {
      sequence, ackMap, lastPosUpdateSeq, open, outbound, bugchecks := 1, {}, None, true, [], 0;
    }

    method Connect()
      requires open
      modifies this`outbound
      ensures forall acks :: With(acks) == Do(Careful, old(With(acks)), Step.Connect)
    {
      outbound := outbound + [Message(0, Ready)];
    }

    method SendSequencedMessage(payload: Payload) returns (sent: nat)
      modifies this`sequence, this`ackMap, this`outbound
      ensures forall acks :: With(acks) == SendSequenced(old(With(acks)), payload)
      ensures sent == sequence == old(sequence) + 1 && ackMap == old(ackMap) + {sent}
      ensures outbound == old(outbound) + [Message(sent, payload)]
    {
      sequence := sequence + 1;
      ackMap := ackMap + {sequence};
      outbound := outbound + [Message(sequence, payload)];
      sent := sequence;
    }

    /** A position that is not finite ends the outbound loop. */
    method SendPositionUpdate(finite: bool)
      requires open
      modifies this
      ensures forall acks :: With(acks) == Do(Careful, old(With(acks)), SendPosition(finite))
      ensures var waits := old(lastPosUpdateSeq).Some? && old(lastPosUpdateSeq).value in old(ackMap);
        && (outbound == old(outbound) <==> waits || !finite) && (open <==> waits || finite)
        && (!waits && finite ==>
              && outbound == old(outbound) + [Message(old(sequence) + 1, Position(true))]
              && lastPosUpdateSeq == Some(old(sequence) + 1) && old(sequence) + 1 in ackMap)
    {
      if lastPosUpdateSeq.Some? && lastPosUpdateSeq.value in ackMap {
        return;
      }
      if !finite {
        open := false;
        return;
      }
      var sent := SendSequencedMessage(Position(true));
      lastPosUpdateSeq := Some(sent);
    }

    method HandleAck(seqNo: nat)
      modifies this`ackMap, this`bugchecks
      ensures forall acks :: With(acks) == Do(Careful, old(With([seqNo] + acks)), ClientGetsAck)
      ensures ackMap == old(ackMap) - {seqNo}
      ensures bugchecks == old(bugchecks) + if seqNo in old(ackMap) then 0 else 1
    {
      if seqNo in ackMap {
        ackMap := ackMap - {seqNo};
      } else {
        bugchecks := bugchecks + 1;
      }
      assert forall acks: seq<nat> :: ([seqNo] + acks)[1..] == acks;
    }
  }

  /** `handle_message`: the acknowledgement is reached only if the message was handled without an error. */
  method HandleMessage(m: Message, ok: bool, outbound: seq<nat>) returns (outbound': seq<nat>)
    ensures forall s: State ::
              (s.toServer != [] && s.toServer[0] == m && s.toClient == outbound
               ==> Do(Careful, s, ServerHandles(ok)).toClient == outbound')
    ensures outbound' == outbound + if m.sequence != 0 && (if m.payload.Position? then m.payload.finite else ok)
                                    then [m.sequence] else []
  {
    outbound' := outbound;
    var handled := match m.payload
      case Position(finite) => finite
      case _ => ok;
    if handled && m.sequence != 0 {
      outbound' := outbound' + [m.sequence];
    }
  }

  // ----- what every step keeps -------------------------------------------------------------------------------------

  /** The numbers of the messages on the way to the server. */
  function Numbers(ms: seq<Message>): seq<nat> {
    if ms == [] then []
    else if ms[0].sequence == 0 then Numbers(ms[1..])
    else [ms[0].sequence] + Numbers(ms[1..])
  }

  lemma {:induction false} NumbersAppend(a: seq<Message>, b: seq<Message>)
    ensures Numbers(a + b) == Numbers(a) + Numbers(b)
  {
    if a == [] {
      assert a + b == b;
    } else {
      assert (a + b)[1..] == a[1..] + b;
      NumbersAppend(a[1..], b);
    }
  }

  /** The numbers under way, in either direction, in the order in which the client will hear of them. */
  function InFlight(s: State): seq<nat> { s.toClient + Numbers(s.toServer) }

  predicate Increasing(ns: seq<nat>) { forall i, j :: 0 <= i < j < |ns| ==> ns[i] < ns[j] }

  /** Numbers under way are distinct, and each is outstanding; a position update is outstanding only if it is the last;
      and the client never got an acknowledgement that it did not wait for. */
  predicate Invariant(s: State, positions: set<nat>) {
    && Increasing(InFlight(s))
    && (forall n :: n in InFlight(s) ==> n in s.ackMap)
    && (forall n :: n in s.ackMap ==> 1 < n <= s.sequence)
    && (forall n :: n in positions && n in s.ackMap ==> s.lastPosUpdateSeq == Some(n))
    && (forall n :: n in positions ==> n <= s.sequence)
    && s.bugchecks == 0 && s.sequence >= 1
    && (forall m :: m in s.toServer && m.payload.Position? ==> m.sequence in positions && m.sequence > 0)
    && (s.lastPosUpdateSeq.Some? ==> s.lastPosUpdateSeq.value in positions)
  }

  /** The position updates sent so far. */
  function PositionsAfter(client: Client, s: State, positions: set<nat>, step: Step): set<nat> {
    if Sends(client, s, step) then positions + {s.sequence + 1} else positions
  }

  lemma InvariantKept(client: Client, s: State, positions: set<nat>, step: Step)
    requires Invariant(s, positions) && Enabled(s, step)
    ensures Invariant(Do(client, s, step), PositionsAfter(client, s, positions, step))
  {
    match step
    case Connect => ConnectKeeps(client, s, positions);
    case SendAction => SendingKeeps(s, positions, Action);
    case SendPosition(finite) =>
      SendingKeeps(s, positions, Position(finite));
      assert InFlight(s.(open := false)) == InFlight(s);
    case ServerHandles(ok) => HandlingKeeps(client, s, positions, ok);
    case ClientGetsAck => AckKeeps(client, s, positions);
  }

  lemma ConnectKeeps(client: Client, s: State, positions: set<nat>)
    requires Invariant(s, positions) && s.open
    ensures Invariant(Do(client, s, Connect), positions) && InFlight(Do(client, s, Connect)) == InFlight(s)
  {
    NumbersAppend(s.toServer, [Message(0, Ready)]);
    assert InFlight(Do(client, s, Connect)) == InFlight(s);
  }

  lemma SendingKeeps(s: State, positions: set<nat>, payload: Payload)
    requires Invariant(s, positions)
    ensures !payload.Position? ==> Invariant(SendSequenced(s, payload), positions)
    ensures payload.Position? && !Withholds(s) ==>
              Invariant(SendSequenced(s, payload).(lastPosUpdateSeq := Some(s.sequence + 1)),
                        positions + {s.sequence + 1})
  {
    SendingGrows(s, payload);
    hide InFlight;
    var ns := InFlight(s);
    forall i | 0 <= i < |ns| ensures ns[i] <= s.sequence { assert ns[i] in ns; }
    assert Increasing(ns + [s.sequence + 1]);
  }

  /** What the server's handling of a message leaves under way. */
  lemma HandlingDrops(client: Client, s: State, ok: bool)
    requires s.toServer != []
    ensures var m, rest := s.toServer[0], Numbers(s.toServer[1..]);
      && InFlight(s) == s.toClient + (if m.sequence == 0 then [] else [m.sequence]) + rest
      && InFlight(Do(client, s, ServerHandles(ok)))
         == s.toClient + (if Handles(m, ok) && m.sequence != 0 then [m.sequence] else []) + rest
  {
  }

  lemma HandlingKeeps(client: Client, s: State, positions: set<nat>, ok: bool)
    requires Invariant(s, positions) && s.toServer != []
    ensures Invariant(Do(client, s, ServerHandles(ok)), positions)
  {
    HandlingDrops(client, s, ok);
    hide InFlight;
    var n, rest := s.toServer[0].sequence, Numbers(s.toServer[1..]);
    if n != 0 && !Handles(s.toServer[0], ok) {
      DropOne(s.toClient, n, rest);
      assert s.toClient + [] + rest == s.toClient + rest;
    }
  }

  lemma AckKeeps(client: Client, s: State, positions: set<nat>)
    requires Invariant(s, positions) && s.toClient != []
    ensures Invariant(Do(client, s, ClientGetsAck), positions)
  {
    AckDrops(client, s);
    hide InFlight;
    TailIncreases(s.toClient[0], InFlight(Do(client, s, ClientGetsAck)));
  }

  lemma TailIncreases(n: nat, rest: seq<nat>)
    requires Increasing([n] + rest)
    ensures Increasing(rest) && n in [n] + rest
    ensures forall m :: m in rest ==> n < m && m in [n] + rest
  {
    var all := [n] + rest;
    assert all[0] == n;
    forall i | 0 <= i < |rest| ensures n < rest[i] { assert all[i + 1] == rest[i]; }
    forall i, j | 0 <= i < j < |rest| ensures rest[i] < rest[j] { assert all[i + 1] < all[j + 1]; }
  }

  lemma AckDrops(client: Client, s: State)
    requires s.toClient != []
    ensures InFlight(s) == [s.toClient[0]] + InFlight(Do(client, s, ClientGetsAck))
  {
  }

  lemma DropOne(a: seq<nat>, n: nat, b: seq<nat>)
    requires Increasing(a + [n] + b)
    ensures Increasing(a + b)
    ensures forall m :: m in a + b ==> m in a + [n] + b
  {
    var all, some := a + [n] + b, a + b;
    forall i, j | 0 <= i < j < |some| ensures some[i] < some[j] {
      var i', j' := if i < |a| then i else i + 1, if j < |a| then j else j + 1;
      assert all[i'] == some[i] && all[j'] == some[j];
    }
  }

  lemma SendingGrows(s: State, payload: Payload)
    ensures InFlight(SendSequenced(s, payload)) == InFlight(s) + [s.sequence + 1]
    ensures InFlight(SendSequenced(s, payload).(lastPosUpdateSeq := Some(s.sequence + 1))) ==
            InFlight(s) + [s.sequence + 1]
  {
    NumbersAppend(s.toServer, [Message(s.sequence + 1, payload)]);
    assert Numbers([Message(s.sequence + 1, payload)]) == [s.sequence + 1];
  }

  // ----- whole runs ------------------------------------------------------------------------------------------------

  predicate Runs(client: Client, s: State, steps: seq<Step>)
    decreases |steps|
  {
    steps == [] || (Enabled(s, steps[0]) && Runs(client, Do(client, s, steps[0]), steps[1..]))
  }

  function AfterRun(client: Client, s: State, steps: seq<Step>): State
    requires Runs(client, s, steps)
    decreases |steps|
  {
    if steps == [] then s else AfterRun(client, Do(client, s, steps[0]), steps[1..])
  }

  function PositionsAfterRun(client: Client, s: State, positions: set<nat>, steps: seq<Step>): set<nat>
    requires Runs(client, s, steps)
    decreases |steps|
  {
    if steps == [] then positions
    else PositionsAfterRun(client, Do(client, s, steps[0]), PositionsAfter(client, s, positions, steps[0]), steps[1..])
  }

  lemma {:induction false} InvariantOverRun(client: Client, s: State, positions: set<nat>, steps: seq<Step>)
    requires Invariant(s, positions) && Runs(client, s, steps)
    ensures Invariant(AfterRun(client, s, steps), PositionsAfterRun(client, s, positions, steps))
    decreases |steps|
  {
    hide Do, Invariant, Enabled, PositionsAfter;
    if steps != [] {
      InvariantKept(client, s, positions, steps[0]);
      InvariantOverRun(client, Do(client, s, steps[0]), PositionsAfter(client, s, positions, steps[0]), steps[1..]);
    }
  }

  /** In every run: at most one position update is unacknowledged; no two messages or acknowledgements under way have
      the same number; and each acknowledgement under way is for a number that the client waits for, so none is ever
      taken for one that was not sent. */
  lemma AcksMatch(client: Client, steps: seq<Step>, i: nat, j: nat, p: nat, q: nat)
    requires Runs(client, START, steps)
    ensures var s := AfterRun(client, START, steps);
      var positions := PositionsAfterRun(client, START, {}, steps);
      && s.bugchecks == 0
      && (i < j < |InFlight(s)| ==> InFlight(s)[i] != InFlight(s)[j])
      && (i < |s.toClient| ==> s.toClient[i] in s.ackMap)
      && (p in positions && p in s.ackMap && q in positions && q in s.ackMap ==> p == q)
  {
    hide AfterRun, PositionsAfterRun, Runs;
    assert Invariant(START, {});
    InvariantOverRun(client, START, {}, steps);
    var s := AfterRun(client, START, steps);
    assert i < |s.toClient| ==> InFlight(s)[i] == s.toClient[i];
  }

  // ----- positions that the server cannot handle -------------------------------------------------------------------

  /** The client waits for an acknowledgement that is not under way. */
  predicate Stalled(s: State) { Withholds(s) && s.lastPosUpdateSeq.value !in InFlight(s) }

  /** Whether the last position update was finite: true before there is one. */
  function LastFinite(client: Client, s: State, was: bool, step: Step): bool {
    if Sends(client, s, step) then step.finite else was
  }

  function LastFiniteAfterRun(client: Client, s: State, was: bool, steps: seq<Step>): bool
    requires Runs(client, s, steps)
    decreases |steps|
  {
    if steps == [] then was
    else LastFiniteAfterRun(client, Do(client, s, steps[0]), LastFinite(client, s, was, steps[0]), steps[1..])
  }

  /** The client is stalled exactly if its last position update was not finite and the server has got it. */
  predicate StallExplained(s: State, lastFinite: bool) {
    && (Stalled(s) <==> s.lastPosUpdateSeq.Some? && !lastFinite && s.lastPosUpdateSeq.value !in Numbers(s.toServer))
    && (!lastFinite ==> s.lastPosUpdateSeq.Some? && s.lastPosUpdateSeq.value in s.ackMap
                        && s.lastPosUpdateSeq.value !in s.toClient)
    && (forall m :: m in s.toServer && m.payload.Position? ==>
          s.lastPosUpdateSeq == Some(m.sequence) && m.payload.finite == lastFinite)
    && (s.lastPosUpdateSeq.Some? && s.lastPosUpdateSeq.value in Numbers(s.toServer) ==>
          Message(s.lastPosUpdateSeq.value, Position(lastFinite)) in s.toServer)
  }

  lemma {:induction false} NumberedMessage(ms: seq<Message>, m: Message)
    ensures m in ms && m.sequence != 0 ==> m.sequence in Numbers(ms)
  {
    if ms != [] { NumberedMessage(ms[1..], m); }
  }

  lemma {:induction false} NumberOfMessage(ms: seq<Message>, n: nat)
    ensures n in Numbers(ms) ==> exists m :: m in ms && m.sequence == n && n != 0
  {
    if ms != [] { NumberOfMessage(ms[1..], n); }
  }

  lemma StallKept(client: Client, s: State, positions: set<nat>, lastFinite: bool, step: Step)
    requires Invariant(s, positions) && StallExplained(s, lastFinite) && Enabled(s, step)
    ensures StallExplained(Do(client, s, step), LastFinite(client, s, lastFinite, step))
  {
    match step
    case Connect => NumbersAppend(s.toServer, [Message(0, Ready)]);
    case SendAction => StallKeptBySending(s, positions, lastFinite, Action);
    case SendPosition(finite) =>
      StallKeptBySending(s, positions, lastFinite, Position(finite));
    case ServerHandles(ok) => StallKeptByServer(client, s, positions, lastFinite, ok);
    case ClientGetsAck => StallKeptByAck(client, s, positions, lastFinite);
  }

  lemma StallKeptBySending(s: State, positions: set<nat>, lastFinite: bool, payload: Payload)
    requires Invariant(s, positions) && StallExplained(s, lastFinite)
    ensures !payload.Position? ==> StallExplained(SendSequenced(s, payload), lastFinite)
    ensures payload.Position? && !Withholds(s) ==>
              StallExplained(SendSequenced(s, payload).(lastPosUpdateSeq := Some(s.sequence + 1)), payload.finite)
  {
    var m := Message(s.sequence + 1, payload);
    NumbersAppend(s.toServer, [m]);
    assert Numbers([m]) == [m.sequence];
    SendingGrows(s, payload);
    InFlightIsKnown(s, positions);
    if payload.Position? && !Withholds(s) {
      forall k | k in s.toServer && k.payload.Position? ensures false {
        NumberedMessage(s.toServer, k);
      }
    }
  }

  /** All that is under way was sent before the next number. */
  lemma InFlightIsKnown(s: State, positions: set<nat>)
    requires Invariant(s, positions)
    ensures forall n :: n in s.toClient || n in Numbers(s.toServer) ==>
              n in InFlight(s) && n <= s.sequence && n in s.ackMap
  {
    assert forall n :: n in s.toClient || n in Numbers(s.toServer) ==> n in InFlight(s);
  }

  lemma StallKeptByServer(client: Client, s: State, positions: set<nat>, lastFinite: bool, ok: bool)
    requires Invariant(s, positions) && StallExplained(s, lastFinite) && s.toServer != []
    ensures StallExplained(Do(client, s, ServerHandles(ok)), lastFinite)
  {
    var m, rest := s.toServer[0], s.toServer[1..];
    assert s.toServer == [m] + rest;
    HandlingDrops(client, s, ok);
    InFlightIsKnown(s, positions);
    if m.sequence != 0 {
      OnceInFlight(client, s);
      if s.lastPosUpdateSeq == Some(m.sequence) {
        var l := Message(m.sequence, Position(lastFinite));
        assert m.sequence in Numbers(s.toServer) && l in s.toServer;
        NumberedMessage(rest, l);
        assert l == m;
      }
    }
    if s.lastPosUpdateSeq.Some? && s.lastPosUpdateSeq.value in Numbers(rest) {
      var l := Message(s.lastPosUpdateSeq.value, Position(lastFinite));
      NumberOfMessage(rest, s.lastPosUpdateSeq.value);
      assert l in s.toServer;
    }
  }

  lemma StallKeptByAck(client: Client, s: State, positions: set<nat>, lastFinite: bool)
    requires Invariant(s, positions) && StallExplained(s, lastFinite) && s.toClient != []
    ensures StallExplained(Do(client, s, ClientGetsAck), lastFinite)
  {
    AckDrops(client, s);
    InFlightIsKnown(s, positions);
    TailIncreases(s.toClient[0], InFlight(Do(client, s, ClientGetsAck)));
  }

  lemma OnceInFlight(client: Client, s: State)
    requires Increasing(InFlight(s)) && s.toServer != [] && s.toServer[0].sequence != 0
    ensures s.toServer[0].sequence in InFlight(s)
    ensures s.toServer[0].sequence !in s.toClient + Numbers(s.toServer[1..])
  {
    HandlingDrops(client, s, false);
    var n, ns := s.toServer[0].sequence, InFlight(s);
    var rest := Numbers(s.toServer[1..]);
    assert ns[|s.toClient|] == n;
    forall i | 0 <= i < |s.toClient| ensures s.toClient[i] < n { assert ns[i] == s.toClient[i]; }
    forall i | 0 <= i < |rest| ensures n < rest[i] { assert ns[|s.toClient| + 1 + i] == rest[i]; }
  }

  lemma {:induction false} StallOverRun(
    client: Client, s: State, positions: set<nat>, lastFinite: bool, steps: seq<Step>)
    requires Invariant(s, positions) && StallExplained(s, lastFinite) && Runs(client, s, steps)
    ensures StallExplained(AfterRun(client, s, steps), LastFiniteAfterRun(client, s, lastFinite, steps))
    decreases |steps|
  {
    hide Do, Invariant, Enabled, PositionsAfter, StallExplained, LastFinite;
    if steps != [] {
      InvariantKept(client, s, positions, steps[0]);
      StallKept(client, s, positions, lastFinite, steps[0]);
      StallOverRun(client, Do(client, s, steps[0]), PositionsAfter(client, s, positions, steps[0]),
        LastFinite(client, s, lastFinite, steps[0]), steps[1..]);
    }
  }

  /** In every run of any client: it waits for an acknowledgement that will not come exactly if its last position update
      was not finite and has reached the server. */
  lemma StallsExactly(client: Client, steps: seq<Step>)
    requires Runs(client, START, steps)
    ensures var s := AfterRun(client, START, steps);
      Stalled(s) <==>
        && s.lastPosUpdateSeq.Some? && !LastFiniteAfterRun(client, START, true, steps)
        && s.lastPosUpdateSeq.value !in Numbers(s.toServer)
  {
    hide AfterRun, Runs, LastFiniteAfterRun;
    assert Invariant(START, {}) && StallExplained(START, true);
    StallOverRun(client, START, {}, true, steps);
  }

  lemma {:induction false} CarefulIsFinite(s: State, steps: seq<Step>)
    requires Runs(Careful, s, steps)
    ensures LastFiniteAfterRun(Careful, s, true, steps)
    decreases |steps|
  {
    hide Do, Enabled;
    if steps != [] { CarefulIsFinite(Do(Careful, s, steps[0]), steps[1..]); }
  }

  /** The game's own client, which sends finite positions only, never stalls. */
  lemma OwnClientNeverStalls(steps: seq<Step>)
    requires Runs(Careful, START, steps)
    ensures !Stalled(AfterRun(Careful, START, steps))
  {
    hide AfterRun, Runs, LastFiniteAfterRun;
    StallsExactly(Careful, steps);
    CarefulIsFinite(START, steps);
  }

  /** A client that sends what is not finite stalls at once. */
  lemma CarelessClientStalls()
    ensures var steps := [SendPosition(false), ServerHandles(true)];
      Runs(Careless, START, steps) && Stalled(AfterRun(Careless, START, steps))
  {
    var steps := [SendPosition(false), ServerHandles(true)];
    var s1 := Do(Careless, START, steps[0]);
    assert s1.toServer == [Message(2, Position(false))];
    var s2 := Do(Careless, s1, steps[1]);
    assert s2.toServer == [] && s2.toClient == [] && InFlight(s2) == [];
    assert steps[1..] == [steps[1]] && steps[1..][1..] == [];
    assert Runs(Careless, s1, [steps[1]]) && AfterRun(Careless, s1, [steps[1]]) == s2;
  }

  /** Once stalled, it never sends its position again. */
  lemma {:induction false} StalledForever(client: Client, s: State, positions: set<nat>, steps: seq<Step>)
    requires Invariant(s, positions) && Stalled(s) && Runs(client, s, steps)
    ensures Stalled(AfterRun(client, s, steps)) && PositionsAfterRun(client, s, positions, steps) == positions
    decreases |steps|
  {
    hide Do, Invariant, Enabled, PositionsAfter, Stalled;
    if steps != [] {
      StalledStays(client, s, positions, steps[0]);
      InvariantKept(client, s, positions, steps[0]);
      StalledForever(client, Do(client, s, steps[0]), positions, steps[1..]);
    }
  }

  lemma StalledStays(client: Client, s: State, positions: set<nat>, step: Step)
    requires Invariant(s, positions) && Enabled(s, step) && Stalled(s)
    ensures Stalled(Do(client, s, step)) && PositionsAfter(client, s, positions, step) == positions
  {
    match step
    case Connect => ConnectKeeps(client, s, positions);
    case SendAction => SendingGrows(s, Action);
    case SendPosition(_) => {}
    case ServerHandles(ok) => HandlingDrops(client, s, ok);
    case ClientGetsAck => AckDrops(client, s);
  }

  // ----- positions get through -------------------------------------------------------------------------------------

  /** What becomes of a position: it is held back while the last update waits for its acknowledgement; otherwise it is
      sent with the next number, which the client then waits for, if it is finite or the client does not care; and
      otherwise it ends the client's loop. */
  lemma PositionFate(client: Client, s: State, finite: bool)
    requires s.open
    ensures var s', waits := Do(client, s, SendPosition(finite)), s.lastPosUpdateSeq.Some?
                                                                 && s.lastPosUpdateSeq.value in s.ackMap;
      && (waits ==> s' == s)
      && (!waits && (finite || client == Careless) ==>
            s' == s.(sequence := s.sequence + 1, ackMap := s.ackMap + {s.sequence + 1},
                     lastPosUpdateSeq := Some(s.sequence + 1),
                     toServer := s.toServer + [Message(s.sequence + 1, Position(finite))]))
      && (!waits && !finite && client == Careful ==> s' == s.(open := false))
  {
  }

  /** Enough steps for all messages and acknowledgements on the way to be received. */
  function Draining(client: Client, s: State): (steps: seq<Step>)
    ensures forall step :: step in steps ==> step.ServerHandles? || step.ClientGetsAck?
    ensures |steps| <= 2 * |s.toServer| + |s.toClient|
    decreases 2 * |s.toServer| + |s.toClient|
  {
    if s.toServer != [] then [ServerHandles(true)] + Draining(client, Do(client, s, ServerHandles(true)))
    else if s.toClient != [] then [ClientGetsAck] + Draining(client, Do(client, s, ClientGetsAck))
    else []
  }

  lemma {:induction false} DrainingDrains(client: Client, s: State)
    ensures Runs(client, s, Draining(client, s))
    ensures var s' := AfterRun(client, s, Draining(client, s));
      s'.toServer == [] && s'.toClient == [] && s'.open == s.open && s'.lastPosUpdateSeq == s.lastPosUpdateSeq
    decreases 2 * |s.toServer| + |s.toClient|
  {
    hide Handles;
    var steps := Draining(client, s);
    if steps != [] {
      var next := Do(client, s, steps[0]);
      assert steps[1..] == Draining(client, next);
      DrainingDrains(client, next);
    }
  }

  lemma {:induction false} RunsConcat(client: Client, s: State, a: seq<Step>, b: seq<Step>)
    requires Runs(client, s, a) && Runs(client, AfterRun(client, s, a), b)
    ensures Runs(client, s, a + b) && AfterRun(client, s, a + b) == AfterRun(client, AfterRun(client, s, a), b)
    decreases |a|
  {
    hide Do, Enabled;
    if a == [] {
      assert a + b == b;
    } else {
      assert (a + b)[1..] == a[1..] + b;
      RunsConcat(client, Do(client, s, a[0]), a[1..], b);
    }
  }

  /** From every reachable state in which the loop of the game's own client still runs, its next finite position is sent
      once what is on the way has been received: the server's turns and the acknowledgements are enough. */
  lemma PositionsGetThrough(steps: seq<Step>)
    requires Runs(Careful, START, steps) && AfterRun(Careful, START, steps).open
    ensures var s := AfterRun(Careful, START, steps);
      var wait := Draining(Careful, s);
      && Runs(Careful, s, wait)
      && var t := AfterRun(Careful, s, wait);
         && t.open
         && Do(Careful, t, SendPosition(true)).toServer == [Message(t.sequence + 1, Position(true))]
  {
    hide AfterRun, Runs, Draining, Do;
    var s := AfterRun(Careful, START, steps);
    var wait := Draining(Careful, s);
    DrainingDrains(Careful, s);
    RunsConcat(Careful, START, steps, wait);
    OwnClientNeverStalls(steps + wait);
    var t := AfterRun(Careful, s, wait);
    assert InFlight(t) == [];
    PositionFate(Careful, t, true);
    assert [] + [Message(t.sequence + 1, Position(true))] == [Message(t.sequence + 1, Position(true))];
  }
}
