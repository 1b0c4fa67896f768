/** The message flow view: the batch builders of internal/analysis/flow.go, and the view of
    web/static/js/flow.js that is loaded once and then grows one message at a time. */
module Flow {
  import opened Common
  import opened Model

  /** A response row and the request row it refers to. */
  datatype RowPair = RowPair(request: nat, response: nat)

  datatype CorrelationPair = CorrelationPair(requestId: int, responseId: int, rows: RowPair,
                                             latencyMs: real, relationship: string)

  // ------------------------------------------------------------ participants

  /** web/static/js/flow.js: effectiveAddrs. */
  function Source(m: Message): string {
    if m.deviceSource == "" && m.deviceDest == "" then m.sourceAddr else m.deviceSource
  }

  function Dest(m: Message): string {
    if m.deviceSource == "" && m.deviceDest == "" then m.destAddr else m.deviceDest
  }

  function Named(addr: string): seq<string> { if addr == "" then [] else [addr] }

  /** The non-empty addresses of the rows, in order. */
  function Addresses(log: seq<Message>): seq<string> {
    if log == [] then []
    else
      var m := log[|log| - 1];
      Addresses(log[..|log| - 1]) + Named(Source(m)) + Named(Dest(m))
  }

  /** Each address once, in the order of first appearance. */
  function Participants(log: seq<Message>): seq<string> { Distinct(Addresses(log)) }

  function Added(participants: seq<string>, addr: string): seq<string> {
    if addr == "" || addr in participants then participants else participants + [addr]
  }

  lemma DistinctNamed(s: seq<string>, addr: string)
    ensures Distinct(s + Named(addr)) == Added(Distinct(s), addr)
  {
    if addr == "" {
      assert s + [] == s;
    } else {
      assert (s + [addr])[..|s|] == s;
    }
  }

  lemma ParticipantsMore(log: seq<Message>, m: Message)
    ensures Participants(log + [m]) == Added(Added(Participants(log), Source(m)), Dest(m))
  {
    assert (log + [m])[..|log|] == log;
    DistinctNamed(Addresses(log), Source(m));
    DistinctNamed(Addresses(log) + Named(Source(m)), Dest(m));
  }

  /** The addIfNew closure of ExtractFlowParticipants. */
  method AddIfNew(addr: string, seen0: set<string>, list0: seq<string>) returns (seen: set<string>, list: seq<string>)
    requires forall a :: a in seen0 <==> a in list0
    ensures list == Added(list0, addr)
    ensures forall a :: a in seen <==> a in list
  {
    seen, list := seen0, list0;
    if addr == "" || addr in seen {
      return;
    }
    seen := seen + {addr};
    list := list + [addr];
  }

  /** internal/analysis/flow.go: ExtractFlowParticipants. */
  method ExtractFlowParticipants(log: seq<Message>) returns (participants: seq<string>)
    ensures participants == Participants(log)
  {
    var seen: set<string> := {};
    participants := [];
    for i := 0 to |log|
      invariant participants == Participants(log[..i])
      invariant forall a :: a in seen <==> a in participants
    {
      ParticipantsMore(log[..i], log[i]);
      TakeMore(log, i);
      seen, participants := AddIfNew(Source(log[i]), seen, participants);
      seen, participants := AddIfNew(Dest(log[i]), seen, participants);
    }
    assert log[..|log|] == log;
  }

  // ------------------------------------------------------------- correlation

  /** The last of the first `h` rows that carries counter `c`. */
  function LastCounter(log: seq<Message>, h: nat, c: string): (r: Option<nat>)
    requires h <= |log|
    ensures r.Some? ==> r.value < h && log[r.value].msgCounter == c
                        && forall j :: r.value < j < h ==> log[j].msgCounter != c
    ensures r.None? ==> forall j :: 0 <= j < h ==> log[j].msgCounter != c
  {
    if h == 0 then None
    else if log[h - 1].msgCounter == c then Some(h - 1)
    else LastCounter(log, h - 1, c)
  }

  /** How many rows row `i` could see when its reference was looked up, in a view that was loaded
      with the first `n` rows and then grew. */
  function Horizon(n: nat, i: nat): nat { if i < n then n else i + 1 }

  function PairOf(log: seq<Message>, h: nat, i: nat): seq<RowPair>
    requires h <= |log| && i < |log|
  {
    var ref := log[i].msgCounterRef;
    if ref == "" then []
    else
      match LastCounter(log, h, ref)
      case None => []
      case Some(r) => [RowPair(r, i)]
  }

  /** The pairs of the first `k` rows in such a view. */
  function PairsTo(log: seq<Message>, n: nat, k: nat): seq<RowPair>
    requires n <= |log| && k <= |log|
  {
    if k == 0 then [] else PairsTo(log, n, k - 1) + PairOf(log, Horizon(n, k - 1), k - 1)
  }

  /** The pairs of a view loaded with the first `n` rows of the log that grew by the others. */
  function ViewPairs(log: seq<Message>, n: nat): seq<RowPair>
    requires n <= |log|
  {
    PairsTo(log, n, |log|)
  }

  /** The pairs of the batch build, which sees the whole log at once. */
  function BatchPairs(log: seq<Message>): seq<RowPair> { ViewPairs(log, |log|) }

  /** `index` finds the last row of the first `h` by counter. */
  ghost predicate IndexesCounters(index: map<string, nat>, log: seq<Message>, h: nat)
    requires h <= |log|
  {
    forall c :: c != "" ==>
      LastCounter(log, h, c) == if c in index then Some(index[c]) else None
  }

  /** The loop that both builders start with. */
  method IndexCounters(log: seq<Message>) returns (index: map<string, nat>)
    ensures IndexesCounters(index, log, |log|)
    ensures forall c :: c in index ==> c != ""
  {
    index := map[];
    for i := 0 to |log|
      invariant IndexesCounters(index, log, i)
      invariant forall c :: c in index ==> c != ""
    {
      if log[i].msgCounter != "" {
        index := index[log[i].msgCounter := i];
      }
    }
  }

  function Describe(log: seq<Message>, p: RowPair): CorrelationPair
    requires p.request < |log| && p.response < |log|
  {
    var req, resp := log[p.request], log[p.response];
    CorrelationPair(req.id, resp.id, p, (resp.timestamp - req.timestamp) as real / 1_000_000.0,
                    req.cmdClassifier + "-" + resp.cmdClassifier)
  }

  /** internal/analysis/flow.go: BuildCorrelationPairs. */
  method BuildCorrelationPairs(log: seq<Message>) returns (pairs: seq<CorrelationPair>)
    ensures |pairs| == |BatchPairs(log)|
    ensures forall i :: 0 <= i < |pairs| ==>
              && pairs[i].rows == BatchPairs(log)[i]
              && pairs[i].rows.request < |log| && pairs[i].rows.response < |log|
              && pairs[i] == Describe(log, pairs[i].rows)
  {
    var counterIndex := IndexCounters(log);
    pairs := [];
    for i := 0 to |log|
      invariant |pairs| == |PairsTo(log, |log|, i)|
      invariant forall j :: 0 <= j < |pairs| ==>
                  && pairs[j].rows == PairsTo(log, |log|, i)[j]
                  && pairs[j].rows.request < |log| && pairs[j].rows.response < |log|
                  && pairs[j] == Describe(log, pairs[j].rows)
    {
      var s := log[i];
      if s.msgCounterRef == "" || s.msgCounterRef !in counterIndex {
        continue;
      }
      var reqIdx := counterIndex[s.msgCounterRef];
      pairs := pairs + [Describe(log, RowPair(reqIdx, i))];
    }
  }

  /** The second loop of the view's _buildCorrelationMap. */
  method PairAllRows(log: seq<Message>, index: map<string, nat>) returns (pairs: seq<RowPair>)
    requires IndexesCounters(index, log, |log|)
    ensures pairs == BatchPairs(log)
  {
    pairs := [];
    for j := 0 to |log|
      invariant pairs == PairsTo(log, |log|, j)
    {
      var ref := log[j].msgCounterRef;
      if ref != "" && ref in index {
        pairs := pairs + [RowPair(index[ref], j)];
      }
    }
  }

  // --------------------------------------------------------------- flow view

  /** The correlation map and pairs of a view loaded with the first `n` rows of `log`. */
  ghost predicate Correlated(index: map<string, nat>, pairs: seq<RowPair>, log: seq<Message>, n: nat) {
    n <= |log| && IndexesCounters(index, log, |log|) && pairs == ViewPairs(log, n)
  }

  /** web/static/js/flow.js: FlowView, without drawing. `loaded` counts the rows of the last setData. */
  class FlowView {
    var data: seq<Message>
    var participants: seq<string>
    var correlationMap: map<string, nat>
    var correlationPairs: seq<RowPair>
    ghost var loaded: nat

    constructor ()
      ensures Valid() && data == [] && loaded == 0
    {
      data, participants, correlationMap, correlationPairs, loaded := [], [], map[], [], 0;
    }

    ghost predicate Valid()
      reads this
    {
      && loaded <= |data|
      && participants == Participants(data)
      && Correlated(correlationMap, correlationPairs, data, loaded)
    }

    /** FlowView.setData with _extractParticipants and _buildCorrelationMap. */
    method SetData(summaries: seq<Message>)
      modifies this
      ensures Valid() && data == summaries && loaded == |summaries|
    {
      data, loaded := summaries, |summaries|;
      participants := ExtractFlowParticipants(data);
      correlationMap := IndexCounters(data);
      correlationPairs := PairAllRows(data, correlationMap);
    }

    /** The search for one address in FlowView.appendMessage. */
    method AddParticipant(addr: string)
      modifies this`participants
      ensures participants == Added(old(participants), addr)
    {
      if addr == "" {
        return;
      }
      var found := false;
      for i := 0 to |participants|
        invariant found <==> addr in participants[..i]
        invariant participants == old(participants)
      {
        assert participants[..i + 1] == participants[..i] + [participants[i]];
        if participants[i] == addr {
          found := true;
          break;
        }
      }
      assert participants[..|participants|] == participants;
      if !found {
        participants := participants + [addr];
      }
    }

    /** The part of FlowView.appendMessage that updates the participants. */
    method AddParticipants(summary: Message, ghost before: seq<Message>)
      requires data == before + [summary] && participants == Participants(before)
      modifies this`participants
      ensures participants == Participants(data)
    {
      ParticipantsMore(before, summary);
      AddParticipant(Source(summary));
      AddParticipant(Dest(summary));
    }

    /** The part of FlowView.appendMessage that updates the correlation map and the pairs. */
    method Correlate(summary: Message, ghost before: seq<Message>)
      requires data == before + [summary] && loaded <= |before|
      requires Correlated(correlationMap, correlationPairs, before, loaded)
      modifies this`correlationMap, this`correlationPairs
      ensures Correlated(correlationMap, correlationPairs, data, loaded)
    {
      IndexMore(correlationMap, before, summary);
      if summary.msgCounter != "" {
        correlationMap := correlationMap[summary.msgCounter := |data| - 1];
      }
      PairsMore(correlationMap, before, summary, loaded);
      var ref := summary.msgCounterRef;
      if ref != "" && ref in correlationMap {
        correlationPairs := correlationPairs + [RowPair(correlationMap[ref], |data| - 1)];
      }
    }

    /** FlowView.appendMessage. */
    method AppendMessage(summary: Message)
      requires Valid()
      modifies this
      ensures Valid() && data == old(data) + [summary] && loaded == old(loaded)
    {
      ghost var before := data;
      data := data + [summary];
      AddParticipants(summary, before);
      assert Correlated(correlationMap, correlationPairs, before, loaded);
      Correlate(summary, before);
    }
  }

  // -------------------------------------------------------------------- laws

  /** The effective addresses of a row: its device addresses, or its network addresses if it has no
      device address at all. */
  lemma EffectiveAddresses(m: Message)
    ensures m.deviceSource != "" || m.deviceDest != "" ==> Source(m) == m.deviceSource && Dest(m) == m.deviceDest
    ensures m.deviceSource == "" && m.deviceDest == "" ==> Source(m) == m.sourceAddr && Dest(m) == m.destAddr
  {
  }

  /** Rows `r` and `i` are a request and its response: `i` refers to the counter `r` carries, and no
      later row carries it. */
  ghost predicate Answers(log: seq<Message>, r: nat, i: nat) {
    && r < |log| && i < |log| && log[i].msgCounterRef != "" && log[r].msgCounter == log[i].msgCounterRef
    && forall j :: r < j < |log| ==> log[j].msgCounter != log[i].msgCounterRef
  }

  lemma {:induction false} PairsToAre(log: seq<Message>, k: nat, p: RowPair)
    requires k <= |log|
    ensures p in PairsTo(log, |log|, k) <==> p.response < k && Answers(log, p.request, p.response)
  {
    if k > 0 {
      PairsToAre(log, k - 1, p);
      PairOfIs(log, k - 1, p);
      assert PairsTo(log, |log|, k) == PairsTo(log, |log|, k - 1) + PairOf(log, |log|, k - 1);
    }
  }

  lemma PairOfIs(log: seq<Message>, i: nat, p: RowPair)
    requires i < |log|
    ensures p in PairOf(log, |log|, i) <==> p.response == i && Answers(log, p.request, i)
  {
    var r := LastCounter(log, |log|, log[i].msgCounterRef);
    if Answers(log, p.request, i) {
      assert r.Some? && !(r.value < p.request) && !(p.request < r.value);
      assert p == RowPair(p.request, p.response);
    } else if r.Some? {
      assert log[i].msgCounterRef != "" ==> Answers(log, r.value, i);
    }
  }

  /** Pairs in the order of their responses. */
  ghost predicate InOrder(ps: seq<RowPair>) {
    forall a, b :: 0 <= a < b < |ps| ==> ps[a].response < ps[b].response
  }

  lemma InOrderMore(ps: seq<RowPair>, last: seq<RowPair>, i: nat)
    requires InOrder(ps) && |last| <= 1 && forall p :: p in last ==> p.response == i
    requires forall p :: p in ps ==> p.response < i
    ensures InOrder(ps + last)
  {
  }

  lemma {:induction false} PairsToOrdered(log: seq<Message>, k: nat)
    requires k <= |log|
    ensures InOrder(PairsTo(log, |log|, k))
  {
    if k > 0 {
      PairsToOrdered(log, k - 1);
      forall p | p in PairsTo(log, |log|, k - 1) ensures p.response < k - 1 {
        PairsToAre(log, k - 1, p);
      }
      InOrderMore(PairsTo(log, |log|, k - 1), PairOf(log, |log|, k - 1), k - 1);
    }
  }

  /** The batch pairs are exactly the responses with the last row carrying their reference, in the
      order of the responses. */
  lemma BatchPairsExactly(log: seq<Message>)
    ensures forall p: RowPair :: p in BatchPairs(log) <==> Answers(log, p.request, p.response)
    ensures InOrder(BatchPairs(log))
  {
    assert BatchPairs(log) == PairsTo(log, |log|, |log|);
    forall p: RowPair ensures p in BatchPairs(log) <==> Answers(log, p.request, p.response) {
      PairsToAre(log, |log|, p);
    }
    PairsToOrdered(log, |log|);
  }

  /** What is shown of a pair: both ids, the time from request to response in milliseconds, and both
      classifiers with a dash between them. */
  lemma PairShows(log: seq<Message>, p: RowPair)
    requires p.request < |log| && p.response < |log|
    ensures var c, dash := Describe(log, p), |log[p.request].cmdClassifier|;
            && c.rows == p && c.requestId == log[p.request].id && c.responseId == log[p.response].id
            && c.latencyMs * 1_000_000.0 == log[p.response].timestamp as real - log[p.request].timestamp as real
            && |c.relationship| == dash + 1 + |log[p.response].cmdClassifier| && c.relationship[dash] == '-'
            && c.relationship[..dash] == log[p.request].cmdClassifier
            && c.relationship[dash + 1..] == log[p.response].cmdClassifier
  {
  }

  lemma PrefixLookup(log: seq<Message>, m: Message)
    ensures forall h: nat, c :: h <= |log| ==> LastCounter(log + [m], h, c) == LastCounter(log, h, c)
  {
    forall h: nat, c | h <= |log| ensures LastCounter(log + [m], h, c) == LastCounter(log, h, c) {
      PrefixLookupAt(log, m, h, c);
    }
  }

  lemma {:induction false} PrefixLookupAt(log: seq<Message>, m: Message, h: nat, c: string)
    requires h <= |log|
    ensures LastCounter(log + [m], h, c) == LastCounter(log, h, c)
  {
    if h > 0 {
      PrefixLookupAt(log, m, h - 1, c);
    }
  }

  lemma {:induction false} PrefixPairs(log: seq<Message>, m: Message, n: nat, k: nat)
    requires n <= |log| && k <= |log|
    ensures PairsTo(log + [m], n, k) == PairsTo(log, n, k)
  {
    if k > 0 {
      PrefixPairs(log, m, n, k - 1);
      PrefixLookup(log, m);
    }
  }

  lemma IndexMore(index: map<string, nat>, log: seq<Message>, m: Message)
    requires IndexesCounters(index, log, |log|)
    ensures IndexesCounters(if m.msgCounter != "" then index[m.msgCounter := |log|] else index, log + [m], |log| + 1)
  {
    forall c ensures LastCounter(log + [m], |log|, c) == LastCounter(log, |log|, c) {
      PrefixLookupAt(log, m, |log|, c);
    }
  }

  lemma PairsMore(index: map<string, nat>, log: seq<Message>, m: Message, n: nat)
    requires n <= |log| && IndexesCounters(index, log + [m], |log| + 1)
    ensures ViewPairs(log + [m], n) == ViewPairs(log, n) +
              if m.msgCounterRef != "" && m.msgCounterRef in index then [RowPair(index[m.msgCounterRef], |log|)] else []
  {
    PrefixPairs(log, m, n, |log|);
  }

  /** Rows appended after loading `n` carry no counter that an earlier row refers to. */
  ghost predicate NoLateRequest(log: seq<Message>, n: nat) {
    forall i, j :: 0 <= i < j < |log| && n <= j && log[i].msgCounterRef != "" ==>
      log[j].msgCounter != log[i].msgCounterRef
  }

  lemma {:induction false} SamePairs(log: seq<Message>, n: nat, k: nat)
    requires n <= |log| && k <= |log| && NoLateRequest(log, n)
    ensures PairsTo(log, n, k) == PairsTo(log, |log|, k)
  {
    if k > 0 {
      SamePairs(log, n, k - 1);
      if log[k - 1].msgCounterRef != "" {
        SameLookup(log, n, k - 1);
      }
    }
  }

  lemma SameLookup(log: seq<Message>, n: nat, i: nat)
    requires n <= |log| && i < |log| && NoLateRequest(log, n) && log[i].msgCounterRef != ""
    ensures LastCounter(log, Horizon(n, i), log[i].msgCounterRef) == LastCounter(log, |log|, log[i].msgCounterRef)
  {
    var ref := log[i].msgCounterRef;
    forall j | Horizon(n, i) <= j < |log| ensures log[j].msgCounter != ref {
      assert i < j && n <= j;
    }
    LookupStable(log, Horizon(n, i), |log|, ref);
  }

  lemma {:induction false} LookupStable(log: seq<Message>, h: nat, k: nat, c: string)
    requires h <= k <= |log| && forall j :: h <= j < k ==> log[j].msgCounter != c
    ensures LastCounter(log, h, c) == LastCounter(log, k, c)
  {
    if h < k {
      LookupStable(log, h, k - 1, c);
    }
  }

  /** A view never pairs a row with a request outside its horizon. */
  lemma {:induction false} PairsWithinHorizon(log: seq<Message>, n: nat, k: nat, p: RowPair)
    requires n <= |log| && k <= |log| && p in PairsTo(log, n, k)
    ensures p.response < k && p.request < Horizon(n, p.response)
  {
    if p in PairsTo(log, n, k - 1) {
      PairsWithinHorizon(log, n, k - 1, p);
    }
  }

  lemma {:induction false} PairIsListed(log: seq<Message>, n: nat, k: nat, i: nat)
    requires n <= |log| && i < k <= |log|
    ensures forall p :: p in PairOf(log, Horizon(n, i), i) ==> p in PairsTo(log, n, k)
  {
    if i < k - 1 {
      PairIsListed(log, n, k - 1, i);
    }
  }

  /** The pairs of a view that was loaded with `n` rows and grew equal those of a batch build of the
      same rows exactly when no appended row carries a counter that an earlier row refers to. */
  lemma IncrementalEqualsBatch(log: seq<Message>, n: nat)
    requires n <= |log|
    ensures ViewPairs(log, n) == BatchPairs(log) <==> NoLateRequest(log, n)
  {
    if NoLateRequest(log, n) {
      SamePairs(log, n, |log|);
    } else {
      var i, j :| 0 <= i < j < |log| && n <= j && log[i].msgCounterRef != ""
                     && log[j].msgCounter == log[i].msgCounterRef;
      var r := LastCounter(log, |log|, log[i].msgCounterRef);
      var p := RowPair(r.value, i);
      PairIsListed(log, |log|, |log|, i);
      assert p in PairOf(log, |log|, i);
      if p in ViewPairs(log, n) {
        PairsWithinHorizon(log, n, |log|, p);
      }
    }
  }

  /** In particular they agree for logs whose counters are pairwise distinct and in which no row
      refers to a later one. */
  lemma DistinctCountersAgree(log: seq<Message>, n: nat)
    requires n <= |log|
    requires forall i, j :: 0 <= i < j < |log| && log[i].msgCounter != "" ==> log[i].msgCounter != log[j].msgCounter
    requires forall i, j :: 0 <= i < |log| && 0 <= j < |log| && log[i].msgCounterRef != "" ==>
                              (log[j].msgCounter == log[i].msgCounterRef ==> j <= i)
    ensures ViewPairs(log, n) == BatchPairs(log)
  {
    IncrementalEqualsBatch(log, n);
  }
}
