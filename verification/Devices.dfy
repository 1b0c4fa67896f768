/** The devices of a log with their entity trees (internal/api/depgraph.go): discovery reports of
    several devices, mixed in one log, are merged per device. */
module Devices {
  import opened Common
  import opened Discovery
  import opened Model

  /** A discovery message with the entities its payload decodes to, unless the payload is empty. */
  datatype Report = Report(msg: Message, entities: Option<seq<Entity>>)

  /** The device a message reports about. */
  function Reporter(r: Report): Option<string> {
    if (r.msg.cmdClassifier == "reply" || r.msg.cmdClassifier == "notify") && r.msg.deviceSource != "" then
      Some(r.msg.deviceSource)
    else None
  }

  /** The reporting devices, in order, with repetitions. */
  function Reporters(log: seq<Report>): seq<string> {
    if log == [] then []
    else
      var a := Reporter(log[|log| - 1]);
      Reporters(log[..|log| - 1]) + (if a.Some? then [a.value] else [])
  }

  /** Message `r` contributes entities to device `addr`. */
  predicate Contributes(r: Report, addr: string) { Reporter(r) == Some(addr) && r.entities.Some? }

  /** Everything that was reported about a device, one report after the other. */
  function Reported(log: seq<Report>, addr: string): seq<Entity> {
    if log == [] then []
    else
      var r := log[|log| - 1];
      Reported(log[..|log| - 1], addr) + (if Contributes(r, addr) then r.entities.value else [])
  }

  /** The last message that contributed to a device. */
  function LastContribution(log: seq<Report>, addr: string): int {
    if log == [] then 0
    else if Contributes(log[|log| - 1], addr) then log[|log| - 1].msg.id
    else LastContribution(log[..|log| - 1], addr)
  }

  /** The devices in the order of their first report. */
  function DeviceOrder(log: seq<Report>): seq<string> { Distinct(Reporters(log)) }

  function Device(log: seq<Report>, addr: string): DeviceInfo {
    DeviceInfo(addr, ApiMerge([], Reported(log, addr)), LastContribution(log, addr))
  }

  lemma ReportsMore(log: seq<Report>, r: Report, addr: string)
    ensures Reported(log + [r], addr) ==
              if Contributes(r, addr) then Reported(log, addr) + r.entities.value else Reported(log, addr)
    ensures LastContribution(log + [r], addr) == if Contributes(r, addr) then r.msg.id else LastContribution(log, addr)
  {
    assert (log + [r])[..|log|] == log;
    assert Reported(log, addr) + [] == Reported(log, addr);
  }

  lemma OrderMore(log: seq<Report>, r: Report)
    ensures DeviceOrder(log + [r]) ==
              match Reporter(r)
              case None => DeviceOrder(log)
              case Some(a) => if a in DeviceOrder(log) then DeviceOrder(log) else DeviceOrder(log) + [a]
  {
    assert (log + [r])[..|log|] == log;
    var reporters := Reporters(log + [r]);
    if Reporter(r).Some? {
      assert reporters[..|reporters| - 1] == Reporters(log);
    } else {
      assert reporters == Reporters(log);
    }
  }

  lemma {:induction false} NothingOfUnknown(log: seq<Report>, addr: string)
    requires addr !in Reporters(log)
    ensures Reported(log, addr) == [] && LastContribution(log, addr) == 0
  {
    if log != [] {
      NothingOfUnknown(log[..|log| - 1], addr);
    }
  }

  /** An accumulator holds what was reported about its device. */
  ghost predicate Holds(acc: Accumulator, log: seq<Report>, addr: string)
    reads acc
  {
    && acc.Valid() && acc.addr == addr
    && acc.Tree() == ApiMerge([], Reported(log, addr)) && acc.lastMessageId == LastContribution(log, addr)
  }

  /** One accumulator for each device, no two of them the same object. */
  ghost predicate Accumulated(log: seq<Report>, accs: map<string, Accumulator>)
    reads accs.Values
  {
    && (forall a, b :: a in accs && b in accs && a != b ==> accs[a] != accs[b])
    && forall a :: a in accs ==> Holds(accs[a], log, a)
  }

  /** The merge of one message into the accumulator of its device. */
  method MergeReport(acc: Accumulator, r: Report, ghost log: seq<Report>, ghost addr: string)
    requires Holds(acc, log, addr) && Reporter(r) == Some(addr)
    modifies acc
    ensures Holds(acc, log + [r], addr)
  {
    ReportsMore(log, r, addr);
    if r.entities.Some? {
      MergeOfConcatenation([], Reported(log, addr), r.entities.value);
      acc.Merge(r.entities.value);
      acc.Note(r.msg.id);
    }
  }

  lemma HoldsForOthers(acc: Accumulator, r: Report, log: seq<Report>, addr: string)
    requires Holds(acc, log, addr) && Reporter(r) != Some(addr)
    ensures Holds(acc, log + [r], addr)
  {
    ReportsMore(log, r, addr);
  }

  lemma AccumulatedStays(r: Report, accs: map<string, Accumulator>, log: seq<Report>)
    requires Accumulated(log, accs) && Reporter(r).None?
    ensures Accumulated(log + [r], accs)
  {
    forall a | a in accs ensures Holds(accs[a], log + [r], a) {
      HoldsForOthers(accs[a], r, log, a);
    }
  }

  method Contribute(r: Report, accs: map<string, Accumulator>, addr: string, ghost log: seq<Report>)
    requires Accumulated(log, accs) && addr in accs && Reporter(r) == Some(addr)
    modifies accs[addr]
    ensures Accumulated(log + [r], accs)
  {
    forall a | a in accs && a != addr ensures Holds(accs[a], log + [r], a) {
      HoldsForOthers(accs[a], r, log, a);
    }
    MergeReport(accs[addr], r, log, addr);
  }

  /** A new accumulator for a device that was not reported before. */
  method Enter(accs0: map<string, Accumulator>, addr: string, ghost log: seq<Report>)
    returns (accs: map<string, Accumulator>)
    requires Accumulated(log, accs0) && addr !in accs0 && addr !in Reporters(log)
    ensures accs.Keys == accs0.Keys + {addr} && fresh(accs[addr]) && Accumulated(log, accs)
    ensures forall a :: a in accs0 ==> accs[a] == accs0[a]
  {
    NothingOfUnknown(log, addr);
    var acc := new Accumulator(addr);
    accs := accs0[addr := acc];
    forall a | a in accs ensures Holds(accs[a], log, a) {
      if a != addr {
        assert old(Holds(accs0[a], log, a));
      }
    }
  }

  /** The lookup that starts the body of extractDevicesFromDiscovery's first loop. */
  method Locate(addr: string, order0: seq<string>, accs0: map<string, Accumulator>, ghost log: seq<Report>)
    returns (order: seq<string>, accs: map<string, Accumulator>)
    requires order0 == DeviceOrder(log) && (forall a :: a in accs0 <==> a in order0) && Accumulated(log, accs0)
    ensures order == (if addr in order0 then order0 else order0 + [addr]) && accs.Keys == accs0.Keys + {addr}
    ensures Accumulated(log, accs)
    ensures forall a :: a in accs ==> accs[a] in accs0.Values || fresh(accs[a])
  {
    order, accs := order0, accs0;
    if addr !in accs {
      accs := Enter(accs, addr, log);
      order := order + [addr];
    }
  }

  /** That loop's body. */
  method RecordReport(r: Report, order0: seq<string>, accs0: map<string, Accumulator>, ghost log: seq<Report>)
    returns (order: seq<string>, accs: map<string, Accumulator>)
    requires order0 == DeviceOrder(log) && (forall a :: a in accs0 <==> a in order0) && Accumulated(log, accs0)
    modifies accs0.Values
    ensures order == DeviceOrder(log + [r]) && (forall a :: a in accs <==> a in order) && Accumulated(log + [r], accs)
    ensures forall a :: a in accs ==> accs[a] in accs0.Values || fresh(accs[a])
  {
    OrderMore(log, r);
    var reporter := Reporter(r);
    if reporter.None? {
      AccumulatedStays(r, accs0, log);
      return order0, accs0;
    }
    order, accs := Locate(reporter.value, order0, accs0, log);
    Contribute(r, accs, reporter.value, log);
  }

  /** The first loop of extractDevicesFromDiscovery. */
  method CollectReports(log: seq<Report>) returns (order: seq<string>, accs: map<string, Accumulator>)
    ensures order == DeviceOrder(log) && (forall a :: a in accs <==> a in order) && Accumulated(log, accs)
  {
    order, accs := [], map[];
    for i := 0 to |log|
      invariant order == DeviceOrder(log[..i]) && (forall a :: a in accs <==> a in order)
      invariant Accumulated(log[..i], accs)
      invariant forall a :: a in accs ==> fresh(accs[a])
    {
      TakeMore(log, i);
      order, accs := RecordReport(log[i], order, accs, log[..i]);
    }
    assert log[..|log|] == log;
  }

  /** Its second loop. */
  method ListDevices(order: seq<string>, accs: map<string, Accumulator>, ghost log: seq<Report>)
    returns (devices: seq<DeviceInfo>)
    requires (forall a :: a in order ==> a in accs) && Accumulated(log, accs)
    ensures |devices| == |order| && forall k :: 0 <= k < |order| ==> devices[k] == Device(log, order[k])
  {
    devices := [];
    for k := 0 to |order|
      invariant |devices| == k && forall j :: 0 <= j < k ==> devices[j] == Device(log, order[j])
    {
      assert Holds(accs[order[k]], log, order[k]);
      devices := devices + [accs[order[k]].Build()];
    }
  }

  /** internal/api/depgraph.go: extractDevicesFromDiscovery. Each reporting device is listed once, in
      the order of the first reports, with one merge of everything that was reported about it. */
  method ExtractDevicesFromDiscovery(log: seq<Report>) returns (devices: seq<DeviceInfo>)
    ensures |devices| == |DeviceOrder(log)|
    ensures forall k :: 0 <= k < |devices| ==> devices[k] == Device(log, DeviceOrder(log)[k])
  {
    var deviceOrder, accumulators := CollectReports(log);
    devices := ListDevices(deviceOrder, accumulators, log);
  }

  // -------------------------------------------------------------------- laws

  /** A message reports about a device exactly if it is a reply or a notify from that device. */
  lemma ReporterExactly(r: Report, addr: string)
    ensures Reporter(r) == Some(addr) <==>
              && addr != "" && r.msg.deviceSource == addr
              && (r.msg.cmdClassifier == "reply" || r.msg.cmdClassifier == "notify")
  {
  }

  /** The message shown with a device is the last one that contributed entities to it. */
  lemma {:induction false} LastContributionIs(log: seq<Report>, addr: string, i: nat)
    requires i < |log| && Contributes(log[i], addr)
    requires forall j :: i < j < |log| ==> !Contributes(log[j], addr)
    ensures Device(log, addr).lastDiscoveryMessageId == log[i].msg.id
  {
    if i < |log| - 1 {
      LastContributionIs(log[..|log| - 1], addr, i);
    }
  }

  /** The messages about one device. */
  function About(log: seq<Report>, addr: string): seq<Report> {
    if log == [] then []
    else
      var r := log[|log| - 1];
      About(log[..|log| - 1], addr) + (if Reporter(r) == Some(addr) then [r] else [])
  }

  /** What is shown of a device depends on its own messages only, however those of other devices are
      mixed in between. */
  lemma OwnReportsDecide(log: seq<Report>, addr: string)
    ensures Device(About(log, addr), addr) == Device(log, addr)
  {
    OwnReports(log, addr);
  }

  lemma {:induction false} OwnReports(log: seq<Report>, addr: string)
    ensures Reported(About(log, addr), addr) == Reported(log, addr)
    ensures LastContribution(About(log, addr), addr) == LastContribution(log, addr)
  {
    if log != [] {
      var front, r := log[..|log| - 1], log[|log| - 1];
      OwnReports(front, addr);
      ReportsMore(front, r, addr);
      ReportsMore(About(front, addr), r, addr);
      assert log == front + [r];
      if Reporter(r) != Some(addr) {
        assert About(log, addr) == About(front, addr);
      }
    }
  }

  /** The tree of a shown device lists each entity address once, in the order of first report, and
      every entity lists distinct feature addresses. */
  lemma ShownTreesAreClean(log: seq<Report>, addr: string)
    ensures var tree := Device(log, addr).entities;
            && AddressesOf(tree) == Distinct(AddressesOf(Reported(log, addr)))
            && forall i :: 0 <= i < |tree| ==> UniqueFeatures(tree[i].features)
  {
    TreeAddresses(Reported(log, addr));
    ApiFeaturesAreUnique(Reported(log, addr));
  }
}
