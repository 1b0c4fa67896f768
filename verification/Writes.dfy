/** Write durations and the effective state (internal/api/writetracking.go). Durations are
    nanoseconds, milliseconds are reals. */
module Writes {
  import opened Common

  datatype WriteEntry = WriteEntry(timestamp: int, messageId: int, itemId: string, details: string, value: real,
                                   durationMs: Option<real>)

  /** An entry of the effective state: the fields copied from its write. */
  datatype Effective = Effective(itemId: string, details: string, value: real, since: int, messageId: int)

  /** time.Duration.Microseconds, which truncates towards zero. */
  function Microseconds(d: int): int { if d >= 0 then d / 1_000 else -((-d) / 1_000) }

  function Milliseconds(d: int): real { Microseconds(d) as real / 1000.0 }

  /** The positions of the writes to an item. */
  function Positions(es: seq<WriteEntry>, id: string): (ps: seq<nat>)
    ensures forall a :: 0 <= a < |ps| ==> ps[a] < |es|
  {
    if es == [] then []
    else Positions(es[..|es| - 1], id) + (if es[|es| - 1].itemId == id then [|es| - 1 as nat] else [])
  }

  lemma PositionsMore(es: seq<WriteEntry>, e: WriteEntry)
    ensures forall id :: Positions(es + [e], id) ==
                           if e.itemId == id then Positions(es, id) + [|es|] else Positions(es, id)
  {
    assert (es + [e])[..|es|] == es;
  }

  lemma {:induction false} PositionsIncrease(es: seq<WriteEntry>, id: string)
    ensures var ps := Positions(es, id); forall a, b :: 0 <= a < b < |ps| ==> ps[a] < ps[b]
  {
    if es != [] {
      var front := es[..|es| - 1];
      PositionsIncrease(front, id);
      assert Positions(front, id) + [] == Positions(front, id);
    }
  }

  lemma {:induction false} PositionAt(es: seq<WriteEntry>, id: string, a: nat)
    requires a < |Positions(es, id)|
    ensures es[Positions(es, id)[a]].itemId == id
  {
    var front := es[..|es| - 1];
    if a < |Positions(front, id)| {
      PositionAt(front, id, a);
    }
  }

  lemma {:induction false} PositionOf(es: seq<WriteEntry>, id: string, k: nat) returns (a: nat)
    requires k < |es| && es[k].itemId == id
    ensures a < |Positions(es, id)| && Positions(es, id)[a] == k
  {
    var front := es[..|es| - 1];
    if k < |front| {
      a := PositionOf(front, id, k);
    } else {
      a := |Positions(front, id)|;
    }
  }

  /** The next write to the same item as write `i`, looking from position `from` on. */
  function NextFrom(es: seq<WriteEntry>, i: nat, from: nat): (r: Option<nat>)
    requires i < |es| && from <= |es|
    ensures r.Some? ==> from <= r.value < |es| && es[r.value].itemId == es[i].itemId
                        && forall k :: from <= k < r.value ==> es[k].itemId != es[i].itemId
    ensures r.None? ==> forall k :: from <= k < |es| ==> es[k].itemId != es[i].itemId
    decreases |es| - from
  {
    if from == |es| then None
    else if es[from].itemId == es[i].itemId then Some(from)
    else NextFrom(es, i, from + 1)
  }

  function Next(es: seq<WriteEntry>, i: nat): Option<nat>
    requires i < |es|
  {
    NextFrom(es, i, i + 1)
  }

  /** Write `i` with the time to the next write to its item as its duration, if there is one. */
  function Timed(es: seq<WriteEntry>, i: nat): WriteEntry
    requires i < |es|
  {
    match Next(es, i)
    case None => es[i]
    case Some(j) => es[i].(durationMs := Some(Milliseconds(es[j].timestamp - es[i].timestamp)))
  }

  /** The writes with the durations computed. */
  function TimedAll(es: seq<WriteEntry>): (r: seq<WriteEntry>)
    ensures |r| == |es| && forall i :: 0 <= i < |es| ==> r[i] == Timed(es, i)
  {
    seq(|es|, i requires 0 <= i < |es| => Timed(es, i))
  }

  /** Neighbouring positions of an item are each other's next write. */
  lemma NextOfPosition(es: seq<WriteEntry>, id: string, a: nat)
    requires a < |Positions(es, id)|
    ensures var ps := Positions(es, id);
            Next(es, ps[a]) == if a + 1 < |ps| then Some(ps[a + 1]) else None
  {
    var ps := Positions(es, id);
    PositionAt(es, id, a);
    PositionsIncrease(es, id);
    if a + 1 < |ps| {
      PositionAt(es, id, a + 1);
    }
    var r := Next(es, ps[a]);
    if r.Some? {
      var b := PositionOf(es, id, r.value);
      assert b > a;
      assert b == a + 1;
    }
  }

  /** `byId` groups the positions of the writes by item. */
  ghost predicate Groups(byId: map<string, seq<nat>>, es: seq<WriteEntry>) {
    forall id :: if id in byId then byId[id] == Positions(es, id) else Positions(es, id) == []
  }

  lemma GroupsMore(byId: map<string, seq<nat>>, es: seq<WriteEntry>, e: WriteEntry)
    requires Groups(byId, es)
    ensures Groups(byId[e.itemId := (if e.itemId in byId then byId[e.itemId] else []) + [|es|]], es + [e])
  {
    var id := e.itemId;
    PositionsMore(es, e);
    assert Positions(es, id) == if id in byId then byId[id] else [];
  }

  /** The first loop of computeWriteDurations. */
  method GroupByItem(entries: array<WriteEntry>) returns (byId: map<string, seq<nat>>)
    ensures Groups(byId, entries[..])
  {
    byId := map[];
    ghost var was := entries[..];
    for i := 0 to entries.Length
      invariant Groups(byId, was[..i])
    {
      var id := entries[i].itemId;
      GroupsMore(byId, was[..i], was[i]);
      TakeMore(was, i);
      byId := byId[id := (if id in byId then byId[id] else []) + [i]];
    }
    assert was[..entries.Length] == was;
  }

  /** The inner loop of computeWriteDurations, for the writes to one item. */
  method TimeItem(entries: array<WriteEntry>, id: string, indices: seq<nat>, ghost was: seq<WriteEntry>)
    requires |was| == entries.Length && indices == Positions(was, id) && indices != []
    requires forall i :: 0 <= i < |was| && was[i].itemId == id ==> entries[i] == was[i]
    requires forall a :: 0 <= a < |indices| ==> was[indices[a]].itemId == id
    modifies entries
    ensures forall i :: 0 <= i < |was| && was[i].itemId != id ==> entries[i] == old(entries[i])
    ensures forall i :: 0 <= i < |was| && was[i].itemId == id ==> entries[i] == Timed(was, i)
  {
    PositionsIncrease(was, id);
    for k := 0 to |indices| - 1
      invariant forall i :: 0 <= i < |was| && was[i].itemId != id ==> entries[i] == old(entries[i])
      invariant forall a :: 0 <= a < k ==> entries[indices[a]] == Timed(was, indices[a])
      invariant forall a :: k <= a < |indices| ==> entries[indices[a]] == was[indices[a]]
    {
      NextOfPosition(was, id, k);
      PositionAt(was, id, k);
      var curr, next := indices[k], indices[k + 1];
      var dur := Milliseconds(entries[next].timestamp - entries[curr].timestamp);
      assert entries[curr] == was[curr] && entries[next] == was[next];
      entries[curr] := entries[curr].(durationMs := Some(dur));
    }
    NextOfPosition(was, id, |indices| - 1);
    forall i | 0 <= i < |was| && was[i].itemId == id ensures entries[i] == Timed(was, i) {
      var a := PositionOf(was, id, i);
    }
  }

  lemma NoneAt(es: seq<WriteEntry>, id: string)
    requires Positions(es, id) == []
    ensures forall i :: 0 <= i < |es| ==> es[i].itemId != id
  {
    forall i | 0 <= i < |es| ensures es[i].itemId != id {
      if es[i].itemId == id {
        var a := PositionOf(es, id, i);
      }
    }
  }

  /** internal/api/writetracking.go: computeWriteDurations. */
  method ComputeWriteDurations(entries: array<WriteEntry>)
    modifies entries
    ensures entries[..] == TimedAll(old(entries[..]))
  {
    ghost var was := entries[..];
    var byId := GroupByItem(entries);
    forall i | 0 <= i < |was| ensures was[i].itemId in byId {
      var a := PositionOf(was, was[i].itemId, i);
    }
    var pending := byId.Keys;
    while pending != {}
      invariant pending <= byId.Keys
      invariant forall i :: 0 <= i < |was| ==> entries[i] == if was[i].itemId in pending then was[i] else Timed(was, i)
      decreases |pending|
    {
      var id :| id in pending;
      pending := pending - {id};
      if byId[id] != [] {
        forall a | 0 <= a < |byId[id]| ensures was[byId[id][a]].itemId == id {
          PositionAt(was, id, a);
        }
        TimeItem(entries, id, byId[id], was);
      } else {
        NoneAt(was, id);
      }
    }
  }

  function EffectiveOf(e: WriteEntry): Effective { Effective(e.itemId, e.details, e.value, e.timestamp, e.messageId) }

  function ItemIds(es: seq<WriteEntry>): (r: seq<string>)
    ensures |r| == |es| && forall i :: 0 <= i < |es| ==> r[i] == es[i].itemId
  {
    seq(|es|, i requires 0 <= i < |es| => es[i].itemId)
  }

  /** The written items in the order of their first write. */
  function Items(es: seq<WriteEntry>): seq<string> { Distinct(ItemIds(es)) }

  /** The position of the last write to an item. */
  function LastWrite(es: seq<WriteEntry>, id: string): (r: Option<nat>)
    ensures r.Some? ==> r.value < |es| && es[r.value].itemId == id
                        && forall j :: r.value < j < |es| ==> es[j].itemId != id
    ensures r.None? ==> forall j :: 0 <= j < |es| ==> es[j].itemId != id
  {
    if |es| == 0 then None
    else if es[|es| - 1].itemId == id then Some(|es| - 1)
    else LastWrite(es[..|es| - 1], id)
  }

  lemma ItemsMore(es: seq<WriteEntry>, e: WriteEntry)
    ensures Items(es + [e]) == if e.itemId in Items(es) then Items(es) else Items(es) + [e.itemId]
  {
    var ids := ItemIds(es + [e]);
    assert ids == ItemIds(es) + [e.itemId];
    assert ids[..|es|] == ItemIds(es);
  }

  lemma LastWriteMore(es: seq<WriteEntry>, e: WriteEntry, id: string)
    ensures LastWrite(es + [e], id) == if id == e.itemId then Some(|es|) else LastWrite(es, id)
  {
    assert (es + [e])[..|es|] == es;
  }

  /** The written items with the positions of their last writes. */
  ghost predicate LastWrites(es: seq<WriteEntry>, lastById: map<string, WriteEntry>) {
    forall id ::
      if id in lastById then LastWrite(es, id).Some? && lastById[id] == es[LastWrite(es, id).value]
      else LastWrite(es, id).None?
  }

  lemma LastWritesMore(es: seq<WriteEntry>, e: WriteEntry, lastById: map<string, WriteEntry>)
    requires LastWrites(es, lastById)
    ensures LastWrites(es + [e], lastById[e.itemId := e])
  {
    forall id ensures LastWrite(es + [e], id) == if id == e.itemId then Some(|es|) else LastWrite(es, id) {
      LastWriteMore(es, e, id);
    }
  }

  /** The first loop of buildEffectiveState. */
  method CollectLastWrites(entries: seq<WriteEntry>) returns (lastById: map<string, WriteEntry>, idOrder: seq<string>)
    ensures idOrder == Items(entries) && LastWrites(entries, lastById)
    ensures forall id :: id in lastById <==> id in idOrder
  {
    lastById, idOrder := map[], [];
    for i := 0 to |entries|
      invariant idOrder == Items(entries[..i]) && LastWrites(entries[..i], lastById)
      invariant forall id :: id in lastById <==> id in idOrder
    {
      TakeMore(entries, i);
      LastWritesMore(entries[..i], entries[i], lastById);
      ItemsMore(entries[..i], entries[i]);
      lastById, idOrder := RecordWrite(entries[i], lastById, idOrder);
    }
    assert entries[..|entries|] == entries;
  }

  /** The body of that loop. */
  method RecordWrite(e: WriteEntry, last0: map<string, WriteEntry>, order0: seq<string>)
    returns (lastById: map<string, WriteEntry>, idOrder: seq<string>)
    requires forall id :: id in last0 <==> id in order0
    ensures lastById == last0[e.itemId := e]
    ensures idOrder == if e.itemId in order0 then order0 else order0 + [e.itemId]
    ensures forall id :: id in lastById <==> id in idOrder
  {
    lastById, idOrder := last0, order0;
    if e.itemId !in lastById {
      idOrder := idOrder + [e.itemId];
    }
    lastById := lastById[e.itemId := e];
  }

  /** internal/api/writetracking.go: buildEffectiveState. */
  method BuildEffectiveState(entries: seq<WriteEntry>) returns (state: seq<Effective>)
    ensures |state| == |Items(entries)|
    ensures forall k :: 0 <= k < |state| ==>
              var last := LastWrite(entries, Items(entries)[k]);
              last.Some? && state[k] == EffectiveOf(entries[last.value])
  {
    var lastById, idOrder := CollectLastWrites(entries);
    state := [];
    for k := 0 to |idOrder|
      invariant |state| == k
      invariant forall j :: 0 <= j < k ==> idOrder[j] in lastById && state[j] == EffectiveOf(lastById[idOrder[j]])
    {
      state := state + [EffectiveOf(lastById[idOrder[k]])];
    }
  }

  // -------------------------------------------------------------------- laws

  /** The whole microseconds of a duration: not more than the duration, less than one short of it, and
      on the same side of zero. */
  lemma MicrosecondsTruncate(d: int)
    ensures d >= 0 ==> Microseconds(d) >= 0 && d - 1_000 < 1_000 * Microseconds(d) <= d
    ensures Microseconds(-d) == -Microseconds(d)
    ensures Milliseconds(d) * 1000.0 == Microseconds(d) as real
  {
  }

  /** An entry of the effective state shows the fields of its write, and its time as the time since
      when they hold. */
  lemma EffectiveShows(e: WriteEntry)
    ensures var x := EffectiveOf(e);
            && x.itemId == e.itemId && x.details == e.details && x.value == e.value
            && x.since == e.timestamp && x.messageId == e.messageId
  {
  }

  /** For writes without durations, sorted by time: a write gets a duration exactly if a later write
      has its item, and it is the non-negative time to the next such write. */
  lemma DurationMeaning(es: seq<WriteEntry>, i: nat)
    requires i < |es| && es[i].durationMs.None?
    requires forall a, b :: 0 <= a < b < |es| ==> es[a].timestamp <= es[b].timestamp
    ensures TimedAll(es)[i].durationMs.Some? <==> exists j :: i < j < |es| && es[j].itemId == es[i].itemId
    ensures TimedAll(es)[i].durationMs.Some? ==>
              && TimedAll(es)[i].durationMs.value >= 0.0
              && exists j :: && i < j < |es| && es[j].itemId == es[i].itemId
                             && (forall k :: i < k < j ==> es[k].itemId != es[i].itemId)
                             && TimedAll(es)[i].durationMs.value == Milliseconds(es[j].timestamp - es[i].timestamp)
  {
    var r := Next(es, i);
    if r.Some? {
      assert es[r.value].timestamp >= es[i].timestamp;
    }
  }

  /** Timing the writes changes no item, so neither the order of items nor their last writes. */
  lemma {:induction false} SameLastWrite(es: seq<WriteEntry>, ts: seq<WriteEntry>, id: string)
    requires |ts| == |es| && forall j :: 0 <= j < |es| ==> ts[j].itemId == es[j].itemId
    ensures LastWrite(ts, id) == LastWrite(es, id) && ItemIds(ts) == ItemIds(es)
  {
    if |es| > 0 {
      SameLastWrite(es[..|es| - 1], ts[..|ts| - 1], id);
    }
  }

  /** The effective state is exactly the writes left without a duration: each item's last write has
      none, and every write without one is its item's last. */
  lemma EffectiveAreUntimed(es: seq<WriteEntry>, i: nat)
    requires i < |es| && es[i].durationMs.None?
    ensures Items(TimedAll(es)) == Items(es)
    ensures TimedAll(es)[i].durationMs.None? <==> LastWrite(TimedAll(es), es[i].itemId) == Some(i)
    ensures EffectiveOf(TimedAll(es)[i]) == EffectiveOf(es[i])
  {
    SameLastWrite(es, TimedAll(es), es[i].itemId);
    NextOrLast(es, i);
  }

  lemma NextOrLast(es: seq<WriteEntry>, i: nat)
    requires i < |es|
    ensures Next(es, i).None? <==> LastWrite(es, es[i].itemId) == Some(i)
  {
  }

  /** The durations of the first `n` writes to an item, added up. */
  function TotalMs(es: seq<WriteEntry>, ps: seq<nat>, n: nat): real
    requires n <= |ps| && forall a :: 0 <= a < |ps| ==> ps[a] < |es|
  {
    if n == 0 then 0.0 else TotalMs(es, ps, n - 1) + es[ps[n - 1]].durationMs.GetOr(0.0)
  }

  /** If the writes to an item carry time stamps of whole microseconds, its durations telescope. */
  lemma {:induction false} DurationsTelescope(es: seq<WriteEntry>, id: string, n: nat)
    requires n < |Positions(es, id)|
    requires forall i :: 0 <= i < |es| && es[i].itemId == id ==> es[i].timestamp % 1_000 == 0
    ensures var ps := Positions(es, id);
            TotalMs(TimedAll(es), ps, n) == (es[ps[n]].timestamp - es[ps[0]].timestamp) as real / 1_000_000.0
  {
    if n > 0 {
      DurationsTelescope(es, id, n - 1);
      DurationOfPosition(es, id, n - 1);
    }
  }

  /** The duration of a write that has a next one. */
  lemma DurationOfPosition(es: seq<WriteEntry>, id: string, a: nat)
    requires a + 1 < |Positions(es, id)|
    requires forall i :: 0 <= i < |es| && es[i].itemId == id ==> es[i].timestamp % 1_000 == 0
    ensures var ps := Positions(es, id);
            TimedAll(es)[ps[a]].durationMs.GetOr(0.0)
            == (es[ps[a + 1]].timestamp - es[ps[a]].timestamp) as real / 1_000_000.0
  {
    var ps := Positions(es, id);
    NextOfPosition(es, id, a);
    PositionAt(es, id, a);
    PositionAt(es, id, a + 1);
    WholeMicroseconds(es[ps[a + 1]].timestamp - es[ps[a]].timestamp);
  }

  lemma WholeMicroseconds(d: int)
    requires d % 1_000 == 0
    ensures Milliseconds(d) == d as real / 1_000_000.0
  {
    assert d == 1_000 * (d / 1_000);
    assert d >= 0 || (-d) / 1_000 == -(d / 1_000);
    assert Microseconds(d) * 1_000 == d;
  }
}
