/** The SHIP connection states per device pair and their anomalies (internal/api/connections.go). */
module Connections {
  import opened Common
  import opened Model

  datatype Pair = Pair(src: string, dst: string)

  datatype StateEntry = StateEntry(state: string, timestamp: int, messageId: int)

  /** The anomaly texts: hello missing after init, closed before data, out-of-order transitions. */
  datatype Anomaly = MissingHello | ClosedEarly | OutOfOrder

  datatype Connection = Connection(pair: Pair, states: seq<StateEntry>, current: string, anomalies: seq<Anomaly>)

  function Reverse(p: Pair): Pair { Pair(p.dst, p.src) }

  /** The same two devices, in whichever orientation. */
  predicate SameDevices(p: Pair, q: Pair) { p == q || p == Reverse(q) }

  /** internal/api/connections.go: shipMsgTypeToState. */
  function StateOf(shipType: string): string {
    match shipType
    case "init" => "init"
    case "connectionHello" => "hello"
    case "messageProtocolHandshake" => "handshake"
    case "connectionPinState" => "pin"
    case "accessMethods" => "access"
    case "data" => "data"
    case "connectionClose" => "closed"
    case _ => ""
  }

  /** The device pair of a message that takes part in a connection. */
  function Eligible(m: Message): Option<Pair> {
    var fallback := m.deviceSource == "" && m.deviceDest == "";
    var src := if fallback then m.sourceAddr else m.deviceSource;
    var dst := if fallback then m.destAddr else m.deviceDest;
    if StateOf(m.shipMsgType) == "" || src == "" || dst == "" then None else Some(Pair(src, dst))
  }

  function EntryOf(m: Message): StateEntry { StateEntry(StateOf(m.shipMsgType), m.timestamp, m.id) }

  /** The states of the messages between the devices of `p`, in order. */
  function StatesOf(log: seq<Message>, p: Pair): seq<StateEntry> {
    if log == [] then []
    else
      var m := log[|log| - 1];
      var e := Eligible(m);
      StatesOf(log[..|log| - 1], p) + (if e.Some? && SameDevices(e.value, p) then [EntryOf(m)] else [])
  }

  predicate Known(order: seq<Pair>, p: Pair) { p in order || Reverse(p) in order }

  /** The pairs in the order of first appearance, in the orientation of their first message. */
  function FirstPairs(log: seq<Message>): seq<Pair> {
    if log == [] then []
    else
      var front, e := FirstPairs(log[..|log| - 1]), Eligible(log[|log| - 1]);
      if e.Some? && !Known(front, e.value) then front + [e.value] else front
  }

  lemma LogMore(log: seq<Message>, m: Message)
    ensures FirstPairs(log + [m]) ==
              if Eligible(m).Some? && !Known(FirstPairs(log), Eligible(m).value)
              then FirstPairs(log) + [Eligible(m).value]
              else FirstPairs(log)
    ensures forall p :: StatesOf(log + [m], p) ==
              StatesOf(log, p) + (if Eligible(m).Some? && SameDevices(Eligible(m).value, p) then [EntryOf(m)] else [])
  {
    assert (log + [m])[..|log|] == log;
  }

  lemma {:induction false} NoStatesOfUnknown(log: seq<Message>, p: Pair)
    ensures StatesOf(log, p) == [] <==> !Known(FirstPairs(log), p)
  {
    if log != [] {
      NoStatesOfUnknown(log[..|log| - 1], p);
    }
  }

  lemma {:induction false} OneOrientation(log: seq<Message>)
    ensures var o := FirstPairs(log);
            NoRepeats(o) && forall i, j :: 0 <= i < j < |o| ==> !SameDevices(o[i], o[j])
  {
    if log != [] {
      OneOrientation(log[..|log| - 1]);
    }
  }

  /** The name of the last state. */
  function CurrentState(states: seq<StateEntry>): string {
    match LastOf(states)
    case None => ""
    case Some(e) => e.state
  }

  /** What is reported about a pair with these states. */
  ghost function ReportOf(p: Pair, states: seq<StateEntry>): Connection {
    Connection(p, states, CurrentState(states), Anomalies(states))
  }

  /** A reported connection shows the state it is in: that of its last message. */
  lemma ReportShows(p: Pair, states: seq<StateEntry>)
    requires states != []
    ensures ReportOf(p, states).pair == p && ReportOf(p, states).states == states
    ensures ReportOf(p, states).current == states[|states| - 1].state
  {
  }

  /** internal/api/connections.go: buildConnectionStates. */
  method BuildConnectionStates(log: seq<Message>) returns (results: seq<Connection>)
    ensures |results| == |FirstPairs(log)|
    ensures forall i :: 0 <= i < |results| ==>
              results[i] == ReportOf(FirstPairs(log)[i], StatesOf(log, FirstPairs(log)[i]))
  {
    var order, pairMap := CollectStates(log);
    results := SummarizeAll(order, pairMap);
  }

  /** The second loop of buildConnectionStates. */
  method SummarizeAll(order: seq<Pair>, pairMap: map<Pair, seq<StateEntry>>) returns (results: seq<Connection>)
    requires forall p :: p in order ==> p in pairMap
    ensures |results| == |order| && forall k :: 0 <= k < |order| ==> results[k] == ReportOf(order[k], pairMap[order[k]])
  {
    results := [];
    for i := 0 to |order|
      invariant |results| == i
      invariant forall k :: 0 <= k < i ==> results[k] == ReportOf(order[k], pairMap[order[k]])
    {
      var c := Summarize(order[i], pairMap[order[i]]);
      ghost var before := results;
      results := results + [c];
      assert results[i] == c && forall k :: 0 <= k < i ==> results[k] == before[k];
    }
  }

  /** The body of that loop. */
  method Summarize(p: Pair, states: seq<StateEntry>) returns (c: Connection)
    ensures c == ReportOf(p, states)
  {
    var anomalies := DetectAnomalies(states);
    c := Connection(p, states, CurrentState(states), anomalies);
  }

  /** The map holds the states of the listed pairs. */
  ghost predicate Collected(log: seq<Message>, order: seq<Pair>, pairMap: map<Pair, seq<StateEntry>>) {
    && order == FirstPairs(log)
    && (forall p :: p in pairMap <==> p in order)
    && (forall p :: p in pairMap ==> pairMap[p] == StatesOf(log, p))
  }

  lemma CollectedMore(log: seq<Message>, m: Message, pairMap: map<Pair, seq<StateEntry>>, order: seq<Pair>, used: Pair)
    requires Collected(log, FirstPairs(log), pairMap) && order == FirstPairs(log + [m])
    requires Eligible(m).Some? && SameDevices(Eligible(m).value, used) && used in order
    requires forall p :: p in order ==> p == used || p in pairMap
    ensures Collected(log + [m], order, pairMap[used := StatesOf(log, used) + [EntryOf(m)]])
  {
    OneOrientation(log + [m]);
    OnlyOne(order, used);
    var all := pairMap[used := StatesOf(log, used) + [EntryOf(m)]];
    forall p | p in all ensures all[p] == StatesOf(log + [m], p) {
      StatesMore(log, m, p);
    }
  }

  lemma StatesMore(log: seq<Message>, m: Message, p: Pair)
    ensures StatesOf(log + [m], p) ==
              StatesOf(log, p) + (if Eligible(m).Some? && SameDevices(Eligible(m).value, p) then [EntryOf(m)] else [])
  {
    LogMore(log, m);
  }

  /** The first loop of buildConnectionStates. */
  method CollectStates(log: seq<Message>) returns (order: seq<Pair>, pairMap: map<Pair, seq<StateEntry>>)
    ensures Collected(log, order, pairMap)
  {
    order, pairMap := [], map[];
    for i := 0 to |log|
      invariant Collected(log[..i], order, pairMap)
    {
      assert log[..i + 1] == log[..i] + [log[i]];
      order, pairMap := RecordState(log[i], order, pairMap, log[..i]);
    }
    assert log[..|log|] == log;
  }

  /** The body of that loop. */
  method RecordState(msg: Message, order0: seq<Pair>, map0: map<Pair, seq<StateEntry>>, ghost log: seq<Message>)
    returns (order: seq<Pair>, pairMap: map<Pair, seq<StateEntry>>)
    requires Collected(log, order0, map0)
    ensures Collected(log + [msg], order, pairMap)
  {
    order, pairMap := order0, map0;
    LogMore(log, msg);
    var eligible := Eligible(msg);
    if eligible.None? {
      return;
    }
    var key := eligible.value;
    if key in pairMap {
      CollectedMore(log, msg, map0, order, key);
      pairMap := pairMap[key := pairMap[key] + [EntryOf(msg)]];
    } else if Reverse(key) in pairMap {
      CollectedMore(log, msg, map0, order, Reverse(key));
      pairMap := pairMap[Reverse(key) := pairMap[Reverse(key)] + [EntryOf(msg)]];
    } else {
      order := order + [key];
      NoStatesOfUnknown(log, key);
      CollectedMore(log, msg, map0, order, key);
      pairMap := pairMap[key := [EntryOf(msg)]];
    }
  }

  lemma OnlyOne(order: seq<Pair>, used: Pair)
    requires used in order && forall i, j :: 0 <= i < j < |order| ==> !SameDevices(order[i], order[j])
    ensures forall p :: p in order && SameDevices(used, p) ==> p == used
  {
  }

  /** Every eligible message belongs to exactly one reported connection. */
  lemma ExactlyOneConnection(log: seq<Message>, k: nat)
    requires k < |log| && Eligible(log[k]).Some?
    ensures var o, p := FirstPairs(log), Eligible(log[k]).value;
            && (exists i :: 0 <= i < |o| && SameDevices(o[i], p))
            && (forall i, j :: 0 <= i < |o| && 0 <= j < |o| && SameDevices(o[i], p) && SameDevices(o[j], p) ==> i == j)
            && forall i :: 0 <= i < |o| && SameDevices(o[i], p) ==> EntryOf(log[k]) in StatesOf(log, o[i])
  {
    var o, p := FirstPairs(log), Eligible(log[k]).value;
    OneOrientation(log);
    EntryIsListed(log, k, p);
    NoStatesOfUnknown(log, p);
    forall i | 0 <= i < |o| && SameDevices(o[i], p) ensures EntryOf(log[k]) in StatesOf(log, o[i]) {
      EntryIsListed(log, k, o[i]);
    }
    if i :| 0 <= i < |o| && o[i] == p { assert SameDevices(o[i], p); }
    if i :| 0 <= i < |o| && o[i] == Reverse(p) { assert SameDevices(o[i], p); }
  }

  lemma {:induction false} EntryIsListed(log: seq<Message>, k: nat, q: Pair)
    requires k < |log| && Eligible(log[k]).Some? && SameDevices(Eligible(log[k]).value, q)
    ensures EntryOf(log[k]) in StatesOf(log, q)
  {
    if k < |log| - 1 {
      EntryIsListed(log[..|log| - 1], k, q);
    }
  }

  /** The message types that take part in a connection, and the phases of the handshake they stand
      for in the expected order. */
  lemma TypesAndPhases(t: string)
    ensures Rank(StateOf("init")) == 0 && Rank(StateOf("connectionHello")) == 1
    ensures Rank(StateOf("messageProtocolHandshake")) == 2 && Rank(StateOf("connectionPinState")) == 3
    ensures Rank(StateOf("accessMethods")) == 4 && Rank(StateOf("data")) == 5
    ensures StateOf("connectionClose") == "closed"
    ensures StateOf(t) == "" || Rank(StateOf(t)) < 6 || t == "connectionClose"
    ensures StateOf(t) != "" ==>
              || t == "init" || t == "connectionHello" || t == "messageProtocolHandshake"
              || t == "connectionPinState" || t == "accessMethods" || t == "data" || t == "connectionClose"
  {
  }

  /** A message takes part in the connection of pair `p` exactly if its type has a state and it names
      `p`: by its device addresses, or by its network addresses if it has no device address at all. */
  lemma EligibleExactly(m: Message, p: Pair)
    ensures Eligible(m) == Some(p) <==>
              && StateOf(m.shipMsgType) != "" && p.src != "" && p.dst != ""
              && (|| (m.deviceSource == p.src && m.deviceDest == p.dst)
                  || (m.deviceSource == "" && m.deviceDest == "" && m.sourceAddr == p.src && m.destAddr == p.dst))
  {
  }

  /** Message `k` of the log is between the devices of `p`. */
  predicate Between(log: seq<Message>, p: Pair, k: nat) {
    k < |log| && Eligible(log[k]).Some? && SameDevices(Eligible(log[k]).value, p)
  }

  /** The positions of the messages between the devices of `p`. */
  function PositionsOf(log: seq<Message>, p: Pair): seq<nat> {
    if log == [] then []
    else
      PositionsOf(log[..|log| - 1], p) + (if Between(log, p, |log| - 1) then [|log| - 1 as nat] else [])
  }

  lemma {:induction false} PositionsAre(log: seq<Message>, p: Pair)
    ensures forall a :: 0 <= a < |PositionsOf(log, p)| ==> Between(log, p, PositionsOf(log, p)[a])
    ensures forall a, b :: 0 <= a < b < |PositionsOf(log, p)| ==> PositionsOf(log, p)[a] < PositionsOf(log, p)[b]
    ensures forall k: nat :: Between(log, p, k) ==> k in PositionsOf(log, p)
  {
    if log != [] {
      var front := log[..|log| - 1];
      PositionsAre(front, p);
      var ks := PositionsOf(front, p);
      forall a | 0 <= a < |ks| ensures ks[a] < |front| && Between(log, p, ks[a]) {
        assert Between(front, p, ks[a]) && log[ks[a]] == front[ks[a]];
      }
      forall k: nat | Between(log, p, k) ensures k in PositionsOf(log, p) {
        if k < |front| {
          assert Between(front, p, k);
        }
      }
    }
  }

  /** The states of a connection stand one for one, in the order of the log, for the messages between
      its devices, each with the state, time and id of its message. */
  lemma {:induction false} StatesAreFilter(log: seq<Message>, p: Pair)
    ensures |StatesOf(log, p)| == |PositionsOf(log, p)|
    ensures forall a :: 0 <= a < |PositionsOf(log, p)| ==>
              var k := PositionsOf(log, p)[a];
              && Between(log, p, k)
              && StatesOf(log, p)[a] == StateEntry(StateOf(log[k].shipMsgType), log[k].timestamp, log[k].id)
    ensures forall a, b :: 0 <= a < b < |PositionsOf(log, p)| ==> PositionsOf(log, p)[a] < PositionsOf(log, p)[b]
    ensures forall k: nat :: Between(log, p, k) ==> k in PositionsOf(log, p)
  {
    PositionsAre(log, p);
    if log != [] {
      StatesAreFilter(log[..|log| - 1], p);
    }
  }

  /** The connections stand in the order of their first messages, each in the orientation of its first
      message. */
  lemma {:induction false} FirstMessageDecides(log: seq<Message>, i: nat)
    requires i < |FirstPairs(log)|
    ensures var p := FirstPairs(log)[i];
            var ks := PositionsOf(log, p);
            && ks != [] && ks[0] < |log| && Eligible(log[ks[0]]) == Some(p)
            && forall j :: 0 <= j < i ==>
                 PositionsOf(log, FirstPairs(log)[j]) != [] && PositionsOf(log, FirstPairs(log)[j])[0] < ks[0]
  {
    var front, m := log[..|log| - 1], log[|log| - 1];
    var p := FirstPairs(log)[i];
    StatesAreFilter(front, p);
    NoStatesOfUnknown(front, p);
    if i < |FirstPairs(front)| {
      FirstMessageDecides(front, i);
    } else {
      forall j | 0 <= j < i ensures PositionsOf(front, FirstPairs(log)[j]) != []
                                    && PositionsOf(front, FirstPairs(log)[j])[0] < |front| {
        FirstMessageDecides(front, j);
      }
    }
  }

  // --------------------------------------------------------------- anomalies

  /** The position of a state in the expected order; 6 for states that are not in it. */
  function Rank(state: string): nat {
    match state
    case "init" => 0
    case "hello" => 1
    case "handshake" => 2
    case "pin" => 3
    case "access" => 4
    case "data" => 5
    case _ => 6
  }

  ghost predicate Occurs(states: seq<StateEntry>, state: string) {
    exists i :: 0 <= i < |states| && states[i].state == state
  }

  /** The states other than "closed" are all expected ones and appear in the expected order. */
  ghost predicate InOrder(states: seq<StateEntry>) {
    && (forall i :: 0 <= i < |states| && states[i].state != "closed" ==> Rank(states[i].state) < 6)
    && (forall i, j :: 0 <= i < j < |states| && states[i].state != "closed" && states[j].state != "closed"
          ==> Rank(states[i].state) <= Rank(states[j].state))
  }

  ghost predicate MissesHello(states: seq<StateEntry>) { Occurs(states, "init") && !Occurs(states, "hello") }

  ghost predicate ClosesEarly(states: seq<StateEntry>) {
    states != [] && states[|states| - 1].state == "closed" && !Occurs(states, "data")
  }

  function Found(noHello: bool, early: bool, disordered: bool): seq<Anomaly> {
    (if noHello then [MissingHello] else []) + (if early then [ClosedEarly] else [])
    + (if disordered then [OutOfOrder] else [])
  }

  ghost function Anomalies(states: seq<StateEntry>): seq<Anomaly> {
    Found(MissesHello(states), ClosesEarly(states), !InOrder(states))
  }

  const EXPECTED := ["init", "hello", "handshake", "pin", "access", "data"]

  /** internal/api/connections.go: detectAnomalies. */
  method DetectAnomalies(states: seq<StateEntry>) returns (anomalies: seq<Anomaly>)
    ensures anomalies == Anomalies(states)
  {
    anomalies := [];
    if |states| == 0 {
      return;
    }
    var hasInit := Has(states, "init");
    var hasHello := Has(states, "hello");
    if hasInit && !hasHello {
      anomalies := anomalies + [MissingHello];
    }
    if states[|states| - 1].state == "closed" {
      var reachedData := Has(states, "data");
      if !reachedData {
        anomalies := anomalies + [ClosedEarly];
      }
    }
    var disordered := FindDisorder(states);
    if disordered {
      anomalies := anomalies + [OutOfOrder];
    }
  }

  /** The searching loops of detectAnomalies. */
  method Has(states: seq<StateEntry>, state: string) returns (found: bool)
    ensures found <==> Occurs(states, state)
  {
    for i := 0 to |states|
      invariant forall k :: 0 <= k < i ==> states[k].state != state
    {
      if states[i].state == state {
        return true;
      }
    }
    return false;
  }

  lemma ExpectedRanks(i: nat, state: string)
    requires i < 6
    ensures EXPECTED[i] == state <==> Rank(state) == i
  {
  }

  /** The last loop of detectAnomalies, which moves through the expected states. */
  method FindDisorder(states: seq<StateEntry>) returns (disordered: bool)
    ensures disordered <==> !InOrder(states)
  {
    var expectedIdx := 0;
    ghost var at := 0;
    for k := 0 to |states|
      invariant 0 <= expectedIdx < 6
      invariant InOrder(states[..k])
      invariant forall i :: 0 <= i < k && states[i].state != "closed" ==> Rank(states[i].state) <= expectedIdx
      invariant expectedIdx > 0 ==> 0 <= at < k && states[at].state != "closed" && Rank(states[at].state) == expectedIdx
    {
      if states[k].state == "closed" {
        continue;
      }
      var state, start := states[k].state, expectedIdx;
      while expectedIdx < 6 && EXPECTED[expectedIdx] != state
        invariant start <= expectedIdx <= 6
        invariant !(start <= Rank(state) < expectedIdx)
      {
        ExpectedRanks(expectedIdx, state);
        expectedIdx := expectedIdx + 1;
      }
      if expectedIdx >= 6 {
        assert Rank(state) < start || Rank(state) == 6;
        return true;
      }
      ExpectedRanks(expectedIdx, state);
      at := k;
    }
    assert states[..|states|] == states;
    return false;
  }
}
