/** The WebSocket hub (internal/api/hub.go) as a system of interleaved steps: registrations,
    broadcasts, the write pump and read pump of every client, and the reader/writer lock around the
    client set. A channel is a bounded queue with a closed flag; sending on a closed channel or
    closing one twice panics, as in Go. */
module Hub {
  import opened Common

  const CLIENT_BUFFER_SIZE := 256

  type Client = nat
  type Data = seq<byte>

  /** Where a pump goroutine is: in its loop, on its way through unregister, or gone. */
  datatype Pump = Looping | Unregistering | Gone

  datatype Side = Writing | Reading

  /** One execution of the select statement in BroadcastEvent: what was offered by which broadcast,
      whether it was queued, and how long the queue was. */
  datatype Offer = Offer(cast: nat, data: Data, taken: bool, length: nat)

  /** A wsClient with its channel, the message its write pump holds, and (for the statements) what
      was offered to it, written to its connection, and lost to a failed write. */
  datatype ClientState = ClientState(queue: seq<Data>, closed: bool, closes: nat,
                                     hand: Option<Data>, writer: Pump, reader: Pump,
                                     offers: seq<Offer>, written: seq<Data>, lost: seq<Data>)

  /** The write lock is held by one unregister call at a time, which first deletes the client from
      the set, then closes its channel, then unlocks. */
  datatype Stage = Checking | Closing | Releasing
  datatype Lock = Free | Held(client: Client, side: Side, stage: Stage)

  /** A broadcast: its data, the clients it found, and the ones its loop has not visited yet. It
      holds the read lock until its loop is done. */
  datatype Cast = Cast(data: Data, found: set<Client>, pending: set<Client>, done: bool)

  datatype State = State(known: map<Client, ClientState>, clients: set<Client>, lock: Lock,
                         casts: map<nat, Cast>, panicked: bool)

  datatype Action =
    | Register(c: Client)
    | Begin(b: nat, data: Data)
    | Send(b: nat, c: Client)
    | End(b: nat)
    | Take(c: Client)
    | Drained(c: Client)
    | WriteOk(c: Client)
    | WriteFail(c: Client)
    | ReadFail(c: Client)
    | Acquire(c: Client, side: Side)
    | Delete
    | Close
    | Release

  const INITIAL := State(map[], {}, Free, map[], false)

  function NewClient(): ClientState {
    ClientState([], false, 0, None, Looping, Looping, [], [], [])
  }

  /** No goroutine holds the read lock. */
  predicate NoReaders(s: State) { forall b :: b in s.casts ==> s.casts[b].done }

  function PumpOf(x: ClientState, side: Side): Pump { if side == Writing then x.writer else x.reader }

  predicate Enabled(s: State, a: Action) {
    !s.panicked &&
    match a
    case Register(c) => s.lock.Free? && NoReaders(s) && c !in s.known
    case Begin(b, _) => s.lock.Free? && b !in s.casts
    case Send(b, c) => b in s.casts && c in s.casts[b].pending && c in s.known
    case End(b) => b in s.casts && !s.casts[b].done && s.casts[b].pending == {}
    case Take(c) => c in s.known && s.known[c].writer.Looping? && s.known[c].hand.None? && s.known[c].queue != []
    case Drained(c) =>
      && c in s.known && s.known[c].writer.Looping? && s.known[c].hand.None?
      && s.known[c].queue == [] && s.known[c].closed
    case WriteOk(c) => c in s.known && s.known[c].writer.Looping? && s.known[c].hand.Some?
    case WriteFail(c) => c in s.known && s.known[c].writer.Looping? && s.known[c].hand.Some?
    case ReadFail(c) => c in s.known && s.known[c].reader.Looping?
    case Acquire(c, side) => s.lock.Free? && NoReaders(s) && c in s.known && PumpOf(s.known[c], side).Unregistering?
    case Delete => s.lock.Held? && s.lock.stage.Checking?
    case Close => s.lock.Held? && s.lock.stage.Closing? && s.lock.client in s.known
    case Release => s.lock.Held? && s.lock.stage.Releasing? && s.lock.client in s.known
  }

  function Update(s: State, c: Client, x: ClientState): State { s.(known := s.known[c := x]) }

  /** The client of a pump step after the step. */
  function Pumped(x: ClientState, a: Action): ClientState
    requires a.Take? ==> x.queue != []
    requires a.WriteOk? || a.WriteFail? ==> x.hand.Some?
  {
    match a
    case Take(_) => x.(hand := Some(x.queue[0]), queue := x.queue[1..])
    case Drained(_) => x.(writer := Gone)
    case WriteOk(_) => x.(hand := None, written := x.written + [x.hand.value])
    case WriteFail(_) => x.(hand := None, lost := x.lost + [x.hand.value], writer := Unregistering)
    case ReadFail(_) => x.(reader := Unregistering)
    case _ => x
  }

  /** The effect of a step. */
  function Do(s: State, a: Action): State
    requires Enabled(s, a)
  {
    match a
    case Register(c) => Update(s, c, NewClient()).(clients := s.clients + {c})
    case Begin(b, data) => s.(casts := s.casts[b := Cast(data, s.clients, s.clients, false)])
    case Send(b, c) =>
      var x, cast := s.known[c], s.casts[b];
      var t := s.(casts := s.casts[b := cast.(pending := cast.pending - {c})]);
      if x.closed then t.(panicked := true)
      else
        var taken := |x.queue| < CLIENT_BUFFER_SIZE;
        Update(t, c, x.(queue := if taken then x.queue + [cast.data] else x.queue,
                        offers := x.offers + [Offer(b, cast.data, taken, |x.queue|)]))
    case End(b) => s.(casts := s.casts[b := s.casts[b].(done := true)])
    case Acquire(c, side) => s.(lock := Held(c, side, Checking))
    case Delete =>
      var c := s.lock.client;
      if c in s.clients then s.(clients := s.clients - {c}, lock := s.lock.(stage := Closing))
      else s.(lock := s.lock.(stage := Releasing))
    case Close =>
      var c := s.lock.client;
      var x := s.known[c];
      if x.closed then s.(panicked := true)
      else Update(s, c, x.(closed := true, closes := x.closes + 1)).(lock := s.lock.(stage := Releasing))
    case Release =>
      var c := s.lock.client;
      var x := s.known[c];
      Update(s, c, if s.lock.side == Writing then x.(writer := Gone) else x.(reader := Gone)).(lock := Free)
    case _ => Update(s, a.c, Pumped(s.known[a.c], a))
  }

  // --------------------------------------------------------------- invariant

  function Taken(offers: seq<Offer>): seq<Data> {
    if offers == [] then []
    else
      var o := offers[|offers| - 1];
      Taken(offers[..|offers| - 1]) + (if o.taken then [o.data] else [])
  }

  /** How often broadcast `b` was offered. */
  function OffersOf(offers: seq<Offer>, b: nat): nat {
    if offers == [] then 0
    else OffersOf(offers[..|offers| - 1], b) + (if offers[|offers| - 1].cast == b then 1 else 0)
  }

  function InHand(x: ClientState): seq<Data> { if x.hand.Some? then [x.hand.value] else [] }

  /** The channel of `c` is open exactly while `c` is in the client set, or was just deleted from it
      by the unregister call that is about to close the channel. */
  predicate ChannelOpen(s: State, c: Client) {
    c in s.clients || (s.lock.Held? && s.lock.client == c && s.lock.stage.Closing?)
  }

  /** Nothing a client was sent is lost or reordered before its connection fails. */
  ghost predicate GoodFlow(x: ClientState) {
    && |x.queue| <= CLIENT_BUFFER_SIZE
    && x.written + x.lost + InHand(x) + x.queue == Taken(x.offers)
    && (x.writer.Looping? ==> x.lost == [])
    && (x.hand.Some? ==> x.writer.Looping?)
    && (forall i :: 0 <= i < |x.offers| ==> (x.offers[i].taken <==> x.offers[i].length < CLIENT_BUFFER_SIZE))
  }

  ghost predicate GoodChannel(s: State, c: Client, x: ClientState) {
    && x.closed == !ChannelOpen(s, c)
    && x.closes == (if x.closed then 1 else 0)
  }

  /** A broadcast was offered to `c` once if its loop visited `c`, and otherwise not at all. */
  ghost predicate GoodOffers(casts: map<nat, Cast>, c: Client, offers: seq<Offer>) {
    && (forall i :: 0 <= i < |offers| ==> offers[i].cast in casts && offers[i].data == casts[offers[i].cast].data)
    && (forall b :: b in casts ==>
          OffersOf(offers, b) == if c in casts[b].found && c !in casts[b].pending then 1 else 0)
  }

  ghost predicate GoodClient(s: State, c: Client)
    requires c in s.known
  {
    var x := s.known[c];
    GoodFlow(x) && GoodChannel(s, c, x) && GoodOffers(s.casts, c, x.offers)
  }

  ghost predicate Inv(s: State) {
    && !s.panicked
    && s.clients <= s.known.Keys
    && (forall c :: c in s.known ==> GoodClient(s, c))
    && (forall b :: b in s.casts ==>
          && s.casts[b].found <= s.known.Keys && s.casts[b].pending <= s.casts[b].found
          && (if s.casts[b].done then s.casts[b].pending == {} else s.casts[b].pending <= s.clients && s.lock.Free?))
    && (s.lock.Held? ==> s.lock.client in s.known && PumpOf(s.known[s.lock.client], s.lock.side).Unregistering?)
    && (s.lock.Held? && s.lock.stage.Closing? ==> s.lock.client !in s.clients)
  }

  lemma OfferMore(offers: seq<Offer>, o: Offer)
    ensures Taken(offers + [o]) == Taken(offers) + (if o.taken then [o.data] else [])
    ensures forall b :: OffersOf(offers + [o], b) == OffersOf(offers, b) + (if o.cast == b then 1 else 0)
  {
    assert (offers + [o])[..|offers|] == offers;
  }

  /** A broadcast nobody was offered yet has no offers. */
  lemma {:induction false} NoOffersOf(offers: seq<Offer>, b: nat)
    requires forall i :: 0 <= i < |offers| ==> offers[i].cast != b
    ensures OffersOf(offers, b) == 0
  {
    if offers != [] {
      NoOffersOf(offers[..|offers| - 1], b);
    }
  }

  lemma TakeKeepsFlow(x: ClientState)
    requires GoodFlow(x) && x.writer.Looping? && x.hand.None? && x.queue != []
    ensures GoodFlow(x.(hand := Some(x.queue[0]), queue := x.queue[1..]))
  {
    assert x.written + x.lost + [x.queue[0]] + x.queue[1..] == x.written + x.lost + [] + x.queue;
  }

  lemma WriteOkKeepsFlow(x: ClientState)
    requires GoodFlow(x) && x.hand.Some?
    ensures GoodFlow(x.(hand := None, written := x.written + [x.hand.value]))
  {
    assert (x.written + [x.hand.value]) + [] + [] + x.queue == x.written + [] + [x.hand.value] + x.queue;
  }

  lemma WriteFailKeepsFlow(x: ClientState)
    requires GoodFlow(x) && x.hand.Some?
    ensures GoodFlow(x.(hand := None, lost := x.lost + [x.hand.value], writer := Unregistering))
  {
    assert x.written + (x.lost + [x.hand.value]) + [] + x.queue == x.written + x.lost + [x.hand.value] + x.queue;
  }

  lemma SendKeepsFlow(x: ClientState, b: nat, data: Data)
    requires GoodFlow(x)
    ensures var taken := |x.queue| < CLIENT_BUFFER_SIZE;
            GoodFlow(x.(queue := if taken then x.queue + [data] else x.queue,
                        offers := x.offers + [Offer(b, data, taken, |x.queue|)]))
  {
    OfferMore(x.offers, Offer(b, data, |x.queue| < CLIENT_BUFFER_SIZE, |x.queue|));
    Regroup(x.written + x.lost + InHand(x), x.queue, [data]);
  }

  /** A step of one client's pumps. */
  lemma ClientStepKeepsInv(s: State, c: Client, y: ClientState)
    requires Inv(s) && c in s.known && GoodFlow(y)
    requires var x := s.known[c]; y.offers == x.offers && y.closed == x.closed && y.closes == x.closes
                                   && forall side :: PumpOf(x, side).Unregistering? ==> PumpOf(y, side).Unregistering?
    ensures Inv(Update(s, c, y))
  {
    forall d | d in s.known ensures GoodClient(Update(s, c, y), d) {
      assert GoodClient(s, d);
    }
  }

  lemma PumpStepKeepsFlow(s: State, a: Action)
    requires Enabled(s, a) && (a.Take? || a.Drained? || a.WriteOk? || a.WriteFail? || a.ReadFail?)
    requires GoodFlow(s.known[a.c])
    ensures GoodFlow(Pumped(s.known[a.c], a))
  {
    var x := s.known[a.c];
    match a {
      case Take(_) => TakeKeepsFlow(x);
      case WriteOk(_) => WriteOkKeepsFlow(x);
      case WriteFail(_) => WriteFailKeepsFlow(x);
      case _ =>
    }
  }

  lemma PumpStepKeepsInv(s: State, a: Action)
    requires Inv(s) && Enabled(s, a)
    requires a.Take? || a.Drained? || a.WriteOk? || a.WriteFail? || a.ReadFail?
    ensures Inv(Do(s, a))
  {
    assert GoodClient(s, a.c);
    PumpStepKeepsFlow(s, a);
    PumpStepIsUpdate(s, a);
    ClientStepKeepsInv(s, a.c, Pumped(s.known[a.c], a));
  }

  /** A pump step touches neither the channel's openness nor what was offered, and no pump that has
      left its loop. */
  lemma PumpStepIsUpdate(s: State, a: Action)
    requires Enabled(s, a) && (a.Take? || a.Drained? || a.WriteOk? || a.WriteFail? || a.ReadFail?)
    ensures var x, y := s.known[a.c], Pumped(s.known[a.c], a);
            && Do(s, a) == Update(s, a.c, y) && y.offers == x.offers && y.closed == x.closed && y.closes == x.closes
            && forall side :: PumpOf(x, side).Unregistering? ==> PumpOf(y, side).Unregistering?
  {
  }

  lemma RegisterKeepsInv(s: State, c: Client)
    requires Inv(s) && Enabled(s, Register(c))
    ensures Inv(Do(s, Register(c)))
  {
    var t := Do(s, Register(c));
    forall d | d in t.known ensures GoodClient(t, d) {
      if d != c {
        assert GoodClient(s, d);
      }
    }
  }

  lemma BeginKeepsInv(s: State, b: nat, data: Data)
    requires Inv(s) && Enabled(s, Begin(b, data))
    ensures Inv(Do(s, Begin(b, data)))
  {
    var t := Do(s, Begin(b, data));
    forall d | d in t.known ensures GoodClient(t, d) {
      assert GoodClient(s, d);
      NoOffersOf(s.known[d].offers, b);
    }
  }

  lemma EndKeepsInv(s: State, b: nat)
    requires Inv(s) && Enabled(s, End(b))
    ensures Inv(Do(s, End(b)))
  {
    var t := Do(s, End(b));
    forall d | d in t.known ensures GoodClient(t, d) {
      assert GoodClient(s, d);
    }
  }

  lemma SendKeepsOthers(s: State, b: nat, c: Client, d: Client)
    requires Inv(s) && Enabled(s, Send(b, c)) && d in s.known && d != c && !s.known[c].closed
    ensures GoodClient(Do(s, Send(b, c)), d)
  {
    assert GoodClient(s, d);
  }

  lemma SendKeepsOwn(s: State, b: nat, c: Client)
    requires Inv(s) && Enabled(s, Send(b, c)) && !s.known[c].closed
    ensures GoodClient(Do(s, Send(b, c)), c)
  {
    var x := s.known[c];
    assert GoodClient(s, c);
    SendKeepsFlow(x, b, s.casts[b].data);
    SendKeepsOffers(s.casts, b, c, x.offers, |x.queue|);
  }

  lemma SendKeepsInv(s: State, b: nat, c: Client)
    requires Inv(s) && Enabled(s, Send(b, c))
    ensures Inv(Do(s, Send(b, c)))
  {
    assert !s.known[c].closed by {
      assert GoodClient(s, c) && c in s.clients;
    }
    var t := Do(s, Send(b, c));
    forall d | d in t.known ensures GoodClient(t, d) {
      SendKeepsClient(s, b, c, d);
    }
  }

  lemma SendKeepsClient(s: State, b: nat, c: Client, d: Client)
    requires Inv(s) && Enabled(s, Send(b, c)) && !s.known[c].closed && d in s.known
    ensures GoodClient(Do(s, Send(b, c)), d)
  {
    if d == c {
      SendKeepsOwn(s, b, c);
    } else {
      SendKeepsOthers(s, b, c, d);
    }
  }

  lemma SendKeepsOffers(casts: map<nat, Cast>, b: nat, c: Client, offers: seq<Offer>, length: nat)
    requires GoodOffers(casts, c, offers) && b in casts && c in casts[b].pending && casts[b].pending <= casts[b].found
    ensures GoodOffers(casts[b := casts[b].(pending := casts[b].pending - {c})], c,
                       offers + [Offer(b, casts[b].data, length < CLIENT_BUFFER_SIZE, length)])
  {
    OfferMore(offers, Offer(b, casts[b].data, length < CLIENT_BUFFER_SIZE, length));
  }

  lemma AcquireKeepsInv(s: State, c: Client, side: Side)
    requires Inv(s) && Enabled(s, Acquire(c, side))
    ensures Inv(Do(s, Acquire(c, side)))
  {
    var t := Do(s, Acquire(c, side));
    forall d | d in t.known ensures GoodClient(t, d) {
      assert GoodClient(s, d);
    }
  }

  lemma DeleteKeepsInv(s: State)
    requires Inv(s) && Enabled(s, Delete)
    ensures Inv(Do(s, Delete))
  {
    var t := Do(s, Delete);
    assert NoReaders(s);
    forall d | d in t.known ensures GoodClient(t, d) {
      assert GoodClient(s, d);
    }
  }

  lemma CloseKeepsClient(s: State, d: Client)
    requires !s.panicked && s.lock.Held? && s.lock.stage.Closing?
    requires s.lock.client in s.known && s.lock.client !in s.clients
    requires !s.known[s.lock.client].closed && d in s.known && GoodClient(s, d)
    ensures GoodClient(Do(s, Close), d)
  {
  }

  lemma CloseKeepsInv(s: State)
    requires Inv(s) && Enabled(s, Close)
    ensures Inv(Do(s, Close))
  {
    var t := Do(s, Close);
    assert GoodClient(s, s.lock.client);
    forall d | d in t.known ensures GoodClient(t, d) {
      CloseKeepsClient(s, d);
    }
  }

  lemma ReleaseKeepsClient(s: State, d: Client)
    requires s.lock.Held? && s.lock.stage.Releasing? && s.lock.client in s.known && !s.panicked
    requires PumpOf(s.known[s.lock.client], s.lock.side).Unregistering? && d in s.known && GoodClient(s, d)
    ensures GoodClient(Do(s, Release), d)
  {
    var x := s.known[d];
    if d == s.lock.client {
      assert x.writer.Unregistering? ==> x.hand.None?;
    }
  }

  lemma ReleaseKeepsInv(s: State)
    requires Inv(s) && Enabled(s, Release)
    ensures Inv(Do(s, Release))
  {
    var t := Do(s, Release);
    forall d | d in t.known ensures GoodClient(t, d) {
      ReleaseKeepsClient(s, d);
    }
  }

  lemma StepKeepsInv(s: State, a: Action)
    requires Inv(s) && Enabled(s, a)
    ensures Inv(Do(s, a))
  {
    match a
    case Register(c) => RegisterKeepsInv(s, c);
    case Begin(b, data) => BeginKeepsInv(s, b, data);
    case Send(b, c) => SendKeepsInv(s, b, c);
    case End(b) => EndKeepsInv(s, b);
    case Acquire(c, side) => AcquireKeepsInv(s, c, side);
    case Delete => DeleteKeepsInv(s);
    case Close => CloseKeepsInv(s);
    case Release => ReleaseKeepsInv(s);
    case _ => PumpStepKeepsInv(s, a);
  }

  // -------------------------------------------------------------------- runs

  /** The state after a run of steps, or None if some step is not enabled when its turn comes. */
  function After(run: seq<Action>): Option<State> {
    if run == [] then Some(INITIAL)
    else
      match After(run[..|run| - 1])
      case None => None
      case Some(s) => if Enabled(s, run[|run| - 1]) then Some(Do(s, run[|run| - 1])) else None
  }

  lemma {:induction false} EveryRunKeepsInv(run: seq<Action>)
    requires After(run).Some?
    ensures Inv(After(run).value)
  {
    if run != [] {
      EveryRunKeepsInv(run[..|run| - 1]);
      StepKeepsInv(After(run[..|run| - 1]).value, run[|run| - 1]);
    }
  }

  /** `p` can be made from `q` by leaving elements out. */
  predicate Subsequence(p: seq<Data>, q: seq<Data>) {
    if q == [] then p == []
    else
      || (p != [] && p[|p| - 1] == q[|q| - 1] && Subsequence(p[..|p| - 1], q[..|q| - 1]))
      || Subsequence(p, q[..|q| - 1])
  }

  function AllData(offers: seq<Offer>): seq<Data> {
    if offers == [] then [] else AllData(offers[..|offers| - 1]) + [offers[|offers| - 1].data]
  }

  lemma {:induction false} TakenIsSubsequence(offers: seq<Offer>)
    ensures Subsequence(Taken(offers), AllData(offers))
  {
    if offers != [] {
      var front, o := offers[..|offers| - 1], offers[|offers| - 1];
      TakenIsSubsequence(front);
      assert AllData(offers)[..|AllData(front)|] == AllData(front);
      if o.taken {
        assert Taken(offers)[..|Taken(front)|] == Taken(front);
      } else {
        assert Taken(offers) == Taken(front);
      }
    }
  }

  /** The channel was closed at most once and holds at most its capacity; what was written, lost or
      is still under way is in order what the channel took of what it was offered; and an offer was
      dropped only when the queue was full. */
  ghost predicate SafeClient(x: ClientState) {
    && x.closes <= 1 && |x.queue| <= 256
    && x.written + x.lost + InHand(x) + x.queue == Taken(x.offers)
    && Subsequence(x.written + x.lost + InHand(x) + x.queue, AllData(x.offers))
    && forall i :: 0 <= i < |x.offers| && !x.offers[i].taken ==> x.offers[i].length >= 256
  }

  lemma GoodIsSafe(s: State, c: Client)
    requires c in s.known && GoodClient(s, c)
    ensures SafeClient(s.known[c])
  {
    TakenIsSubsequence(s.known[c].offers);
  }

  /** Safety of every interleaving: nothing sends on a closed channel or closes one twice, and every
      client is served safely. */
  lemma EveryInterleavingIsSafe(run: seq<Action>)
    requires After(run).Some?
    ensures !After(run).value.panicked
    ensures forall c :: c in After(run).value.known ==> SafeClient(After(run).value.known[c])
  {
    EveryRunKeepsInv(run);
    var s := After(run).value;
    forall c | c in s.known ensures SafeClient(s.known[c]) {
      GoodIsSafe(s, c);
    }
  }

  /** Once a broadcast is over, each client that was registered when it began was offered its
      message exactly once, and no other client was. */
  lemma EveryBroadcastReachesItsClientsOnce(run: seq<Action>, b: nat, c: Client)
    requires After(run).Some?
    requires var s := After(run).value; b in s.casts && s.casts[b].done && c in s.known
    ensures var s := After(run).value;
            OffersOf(s.known[c].offers, b) == if c in s.casts[b].found then 1 else 0
  {
    EveryRunKeepsInv(run);
    assert GoodClient(After(run).value, c);
  }

  /** An unregistered client's channel is closed once its unregister call is over, whichever pump
      came first, and the other pump's call changes nothing. */
  lemma UnregisterClosesOnce(run: seq<Action>, c: Client)
    requires After(run).Some?
    requires var s := After(run).value; c in s.known && s.lock.Free?
    ensures var s := After(run).value;
            && (s.known[c].closed <==> c !in s.clients)
            && s.known[c].closes == if c in s.clients then 0 else 1
  {
    EveryRunKeepsInv(run);
    assert GoodClient(After(run).value, c);
  }

  /** A pump that is gone has left its client unregistered, and so has an unregister call that is past
      its look into the client set. */
  ghost predicate GoneAreUnregistered(s: State) {
    && (forall c :: c in s.known && (s.known[c].writer.Gone? || s.known[c].reader.Gone?) ==> c !in s.clients)
    && (s.lock.Held? && !s.lock.stage.Checking? ==> s.lock.client !in s.clients)
  }

  lemma ClosedIsUnregistered(s: State, c: Client)
    requires Inv(s) && c in s.known
    ensures s.known[c].closed == !ChannelOpen(s, c)
  {
    assert GoodClient(s, c);
  }

  lemma StepKeepsGone(s: State, a: Action)
    requires GoneAreUnregistered(s) && Enabled(s, a) && s.clients <= s.known.Keys
    requires a.Drained? ==> a.c !in s.clients
    ensures GoneAreUnregistered(Do(s, a))
  {
  }

  /** In every interleaving a failed connection is cleaned up before its pump ends: a client one of
      whose pumps is gone is no longer in the client set. */
  lemma {:induction false} EveryGonePumpUnregistered(run: seq<Action>)
    requires After(run).Some?
    ensures GoneAreUnregistered(After(run).value)
  {
    if run != [] {
      EveryRunKeepsInv(run[..|run| - 1]);
      EveryGonePumpUnregistered(run[..|run| - 1]);
      var s, a := After(run[..|run| - 1]).value, run[|run| - 1];
      if a.Drained? {
        ClosedIsUnregistered(s, a.c);
      }
      StepKeepsGone(s, a);
    }
  }

  /** The next step of the unregister call that holds the lock. */
  function HolderStep(stage: Stage): Action {
    match stage case Checking => Delete case Closing => Close case Releasing => Release
  }

  /** The client set changes only under the write lock: a step that changes it is a registration while
      nobody holds the lock, or the deletion of the client whose unregister call holds it, and in
      both cases no broadcast is reading the set. */
  lemma ClientSetChangesAlone(run: seq<Action>, a: Action)
    requires After(run).Some? && Enabled(After(run).value, a)
    ensures var s := After(run).value;
            Do(s, a).clients != s.clients ==>
              && NoReaders(s)
              && ((a.Register? && s.lock.Free? && Do(s, a).clients == s.clients + {a.c})
                  || (a.Delete? && s.lock.Held? && Do(s, a).clients == s.clients - {s.lock.client}))
  {
    EveryRunKeepsInv(run);
  }

  /** Nothing deadlocks: the pumps. In every reachable state a write pump in its loop can go on, unless
      its queue is empty and its channel still open, and a read pump can meet the end of its connection. */
  lemma NoPumpIsStuck(run: seq<Action>, c: Client)
    requires After(run).Some? && c in After(run).value.known
    ensures var s := After(run).value;
            && (s.known[c].writer.Looping? ==>
                  || Enabled(s, Take(c)) || (Enabled(s, WriteOk(c)) && Enabled(s, WriteFail(c)))
                  || Enabled(s, Drained(c)) || (s.known[c].queue == [] && ChannelOpen(s, c)))
            && (s.known[c].reader.Looping? ==> Enabled(s, ReadFail(c)))
  {
    EveryRunKeepsInv(run);
    ClosedIsUnregistered(After(run).value, c);
    PumpGoesOn(After(run).value, c);
  }

  lemma PumpGoesOn(s: State, c: Client)
    requires !s.panicked && c in s.known && s.known[c].closed == !ChannelOpen(s, c)
    ensures s.known[c].writer.Looping? ==>
              || Enabled(s, Take(c)) || (Enabled(s, WriteOk(c)) && Enabled(s, WriteFail(c)))
              || Enabled(s, Drained(c)) || (s.known[c].queue == [] && ChannelOpen(s, c))
    ensures s.known[c].reader.Looping? ==> Enabled(s, ReadFail(c))
  {
  }

  /** The lock: its holder can go on, and a pump on its way out gets it once it is free. */
  lemma NoUnregisterIsStuck(run: seq<Action>, c: Client, side: Side)
    requires After(run).Some?
    ensures var s := After(run).value;
            && (s.lock.Held? ==> Enabled(s, HolderStep(s.lock.stage)))
            && (c in s.known && PumpOf(s.known[c], side).Unregistering? && s.lock.Free? && NoReaders(s) ==>
                  Enabled(s, Acquire(c, side)))
  {
    EveryRunKeepsInv(run);
  }

  /** The broadcasts: one that is running can offer its message to a client or end. */
  lemma NoBroadcastIsStuck(run: seq<Action>, b: nat)
    requires After(run).Some? && b in After(run).value.casts && !After(run).value.casts[b].done
    ensures var s := After(run).value; Enabled(s, End(b)) || exists c :: Enabled(s, Send(b, c))
  {
    EveryRunKeepsInv(run);
    var s := After(run).value;
    if s.casts[b].pending != {} {
      var c :| c in s.casts[b].pending;
      assert Enabled(s, Send(b, c));
    }
  }
}
