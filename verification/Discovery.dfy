/** Merging discovery reports into an entity tree: the accumulator of the API
    (internal/api/depgraph.go) and the second implementation of the CLI (cmd/eebustracer/devices.go). */
module Discovery {
  import opened Common

  datatype Feature = Feature(address: string, featureType: string, role: string, functions: seq<string>)

  datatype Entity = Entity(address: string, entityType: string, features: seq<Feature>)

  datatype DeviceInfo = DeviceInfo(addr: string, entities: seq<Entity>, lastDiscoveryMessageId: int)

  // ----------------------------------------------------------- specification

  predicate HasFeature(fs: seq<Feature>, address: string) {
    exists i :: 0 <= i < |fs| && fs[i].address == address
  }

  /** `more` added one by one, skipping addresses that are already there. */
  function AddFeatures(fs: seq<Feature>, more: seq<Feature>): seq<Feature> {
    if more == [] then fs
    else
      var sofar, f := AddFeatures(fs, more[..|more| - 1]), more[|more| - 1];
      if HasFeature(sofar, f.address) then sofar else sofar + [f]
  }

  /** Where an entity address stands in a tree. */
  function Find(tree: seq<Entity>, address: string): (r: Option<nat>)
    ensures r.Some? ==> r.value < |tree| && tree[r.value].address == address
    ensures r.None? ==> forall i :: 0 <= i < |tree| ==> tree[i].address != address
  {
    if tree == [] then None
    else if tree[|tree| - 1].address == address then Some(|tree| - 1)
    else Find(tree[..|tree| - 1], address)
  }

  function Extended(e: Entity, more: seq<Feature>): Entity { e.(features := AddFeatures(e.features, more)) }

  /** One reported entity merged into the API's tree. */
  function ApiAdd(tree: seq<Entity>, e: Entity): seq<Entity> {
    match Find(tree, e.address)
    case Some(i) => tree[i := Extended(tree[i], e.features)]
    case None => tree + [Extended(e.(features := []), e.features)]
  }

  function ApiMerge(tree: seq<Entity>, es: seq<Entity>): seq<Entity> {
    if es == [] then tree else ApiAdd(ApiMerge(tree, es[..|es| - 1]), es[|es| - 1])
  }

  /** One reported entity merged into the CLI's tree. */
  function CliAdd(tree: seq<Entity>, e: Entity): seq<Entity> {
    match Find(tree, e.address)
    case Some(i) =>
      var entityType := if tree[i].entityType == "" then e.entityType else tree[i].entityType;
      tree[i := Extended(tree[i], e.features).(entityType := entityType)]
    case None => tree + [e]
  }

  function CliMerge(tree: seq<Entity>, es: seq<Entity>): seq<Entity> {
    if es == [] then tree else CliAdd(CliMerge(tree, es[..|es| - 1]), es[|es| - 1])
  }

  ghost predicate UniqueEntities(tree: seq<Entity>) {
    forall i, j :: 0 <= i < j < |tree| ==> tree[i].address != tree[j].address
  }

  ghost predicate UniqueFeatures(fs: seq<Feature>) {
    forall i, j :: 0 <= i < j < |fs| ==> fs[i].address != fs[j].address
  }

  lemma FindIs(tree: seq<Entity>, i: nat)
    requires UniqueEntities(tree) && i < |tree|
    ensures Find(tree, tree[i].address) == Some(i)
  {
  }

  lemma AddFeaturesMore(fs: seq<Feature>, more: seq<Feature>, f: Feature)
    ensures AddFeatures(fs, more + [f]) ==
              if HasFeature(AddFeatures(fs, more), f.address) then AddFeatures(fs, more)
              else AddFeatures(fs, more) + [f]
  {
    assert (more + [f])[..|more|] == more;
  }

  lemma MergeMore(tree: seq<Entity>, es: seq<Entity>, e: Entity)
    ensures ApiMerge(tree, es + [e]) == ApiAdd(ApiMerge(tree, es), e)
    ensures CliMerge(tree, es + [e]) == CliAdd(CliMerge(tree, es), e)
  {
    assert (es + [e])[..|es|] == es;
  }

  // ---------------------------------------------------------- implementations

  /** internal/api/depgraph.go: deviceEntityAccumulator. */
  class Accumulator {
    const addr: string
    var entityOrder: seq<string>
    var entityMap: map<string, Entity>
    var featureSeen: map<string, set<string>>
    var lastMessageId: int

    constructor (addr: string)
      ensures Valid() && Tree() == [] && this.addr == addr && lastMessageId == 0
    {
      this.addr := addr;
      entityOrder, entityMap, featureSeen, lastMessageId := [], map[], map[], 0;
    }

    ghost predicate Valid()
      reads this
    {
      && NoRepeats(entityOrder)
      && (forall a :: a in entityOrder <==> a in entityMap)
      && (forall a :: a in entityMap ==> entityMap[a].address == a && a in featureSeen)
      && (forall a, x :: a in entityMap ==> (x in featureSeen[a] <==> HasFeature(entityMap[a].features, x)))
    }

    /** The entities in the order they came in. */
    function Tree(): (tree: seq<Entity>)
      requires forall a :: a in entityOrder ==> a in entityMap
      reads this
      ensures |tree| == |entityOrder|
    {
      seq(|entityOrder|, i requires 0 <= i < |entityOrder| && entityOrder[i] in entityMap reads this =>
        entityMap[entityOrder[i]])
    }

    /** deviceEntityAccumulator.build. */
    function Build(): DeviceInfo
      requires forall a :: a in entityOrder ==> a in entityMap
      reads this
    {
      DeviceInfo(addr, Tree(), lastMessageId)
    }

    /** deviceEntityAccumulator.merge. */
    method Merge(entities: seq<Entity>)
      requires Valid()
      modifies this`entityOrder, this`entityMap, this`featureSeen
      ensures Valid() && Tree() == ApiMerge(old(Tree()), entities)
    {
      for i := 0 to |entities|
        invariant Valid() && Tree() == ApiMerge(old(Tree()), entities[..i])
      {
        var e := entities[i];
        assert entities[..i + 1] == entities[..i] + [e];
        MergeMore(old(Tree()), entities[..i], e);
        AddEntity(e);
      }
      assert entities[..|entities|] == entities;
    }

    /** The body of merge's loop. */
    method AddEntity(e: Entity)
      requires Valid()
      modifies this`entityOrder, this`entityMap, this`featureSeen
      ensures Valid() && Tree() == ApiAdd(old(Tree()), e)
    {
      ghost var before := Tree();
      if e.address !in entityMap {
        Enter(e.address, e.entityType);
      }
      ghost var k: nat :| k < |entityOrder| && entityOrder[k] == e.address;
      TreeIsUnique();
      AddedAt(before, Tree(), e, k);
      Extend(e.address, e.features, k);
    }

    /** The features of one reported entity, added to the entity at position `k`. */
    method Extend(address: string, features: seq<Feature>, ghost k: nat)
      requires Valid() && k < |entityOrder| && entityOrder[k] == address
      modifies this`entityMap, this`featureSeen
      ensures Valid() && Tree() == old(Tree())[k := Extended(old(Tree())[k], features)]
    {
      ghost var tree := Tree();
      var seen, list := AddNewFeatures(features, featureSeen[address], entityMap[address].features);
      featureSeen := featureSeen[address := seen];
      entityMap := entityMap[address := entityMap[address].(features := list)];
    }

    /** A new entity without features. */
    method Enter(address: string, entityType: string)
      requires Valid() && address !in entityMap
      modifies this`entityOrder, this`entityMap, this`featureSeen
      ensures Valid() && address in entityMap
      ensures Tree() == old(Tree()) + [Entity(address, entityType, [])]
    {
      entityMap := entityMap[address := Entity(address, entityType, [])];
      entityOrder := entityOrder + [address];
      featureSeen := featureSeen[address := {}];
    }

    /** The assignment of lastMessageID after a merge. */
    method Note(id: int)
      requires Valid()
      modifies this`lastMessageId
      ensures Valid() && Tree() == old(Tree()) && lastMessageId == id
    {
      lastMessageId := id;
    }

    lemma TreeIsUnique()
      requires Valid()
      ensures UniqueEntities(Tree())
    {
    }
  }

  /** Both branches of the merge loop come down to extending the entity at its place. */
  lemma AddedAt(before: seq<Entity>, tree: seq<Entity>, e: Entity, k: nat)
    requires UniqueEntities(tree) && k < |tree| && tree[k].address == e.address
    requires tree == before || (tree == before + [Entity(e.address, e.entityType, [])])
    ensures tree[k := Extended(tree[k], e.features)] == ApiAdd(before, e)
  {
    if tree == before {
      FindIs(before, k);
    } else {
      var n := |before|;
      assert tree[n].address == e.address;
      assert forall i :: 0 <= i < n ==> before[i] == tree[i] && before[i].address != e.address;
      assert Find(before, e.address).None?;
    }
  }

  /** The inner loop of both merges: features whose address was not seen yet are appended. */
  method AddNewFeatures(features: seq<Feature>, seen0: set<string>, list0: seq<Feature>)
    returns (seen: set<string>, list: seq<Feature>)
    requires forall x :: x in seen0 <==> HasFeature(list0, x)
    ensures list == AddFeatures(list0, features)
    ensures forall x :: x in seen <==> HasFeature(list, x)
  {
    seen, list := seen0, list0;
    for i := 0 to |features|
      invariant list == AddFeatures(list0, features[..i])
      invariant forall x :: x in seen <==> HasFeature(list, x)
    {
      var f := features[i];
      assert features[..i + 1] == features[..i] + [f];
      AddFeaturesMore(list0, features[..i], f);
      if f.address in seen {
        continue;
      }
      FeatureAppended(list, f);
      seen := seen + {f.address};
      list := list + [f];
    }
    assert features[..|features|] == features;
  }

  lemma FeatureAppended(fs: seq<Feature>, f: Feature)
    ensures forall x :: HasFeature(fs + [f], x) <==> HasFeature(fs, x) || x == f.address
  {
    assert (fs + [f])[|fs|] == f;
    forall x | HasFeature(fs, x) ensures HasFeature(fs + [f], x) {
      var i :| 0 <= i < |fs| && fs[i].address == x;
      assert (fs + [f])[i].address == x;
    }
  }

  lemma {:induction false} FindUpdated(tree: seq<Entity>, i: nat, e: Entity, a: string)
    requires i < |tree| && e.address == tree[i].address
    ensures Find(tree[i := e], a) == Find(tree, a)
  {
    if i < |tree| - 1 {
      FindUpdated(tree[..|tree| - 1], i, e, a);
      assert tree[i := e][..|tree| - 1] == tree[..|tree| - 1][i := e];
    } else {
      assert tree[i := e][..i] == tree[..i];
    }
  }

  ghost predicate Indexes(idx: map<string, nat>, tree: seq<Entity>) {
    forall a :: if a in idx then Find(tree, a) == Some(idx[a]) else Find(tree, a) == None
  }

  lemma IndexMore(idx: map<string, nat>, tree: seq<Entity>, e: Entity)
    requires Indexes(idx, tree)
    ensures Indexes(idx[e.address := |tree|], tree + [e])
  {
    assert (tree + [e])[..|tree|] == tree;
  }

  /** The addresses already present in a feature list. */
  method SeenIn(fs: seq<Feature>) returns (seen: set<string>)
    ensures forall x :: x in seen <==> HasFeature(fs, x)
  {
    seen := {};
    for i := 0 to |fs|
      invariant forall x :: x in seen <==> HasFeature(fs[..i], x)
    {
      assert fs[..i + 1] == fs[..i] + [fs[i]];
      FeatureAppended(fs[..i], fs[i]);
      seen := seen + {fs[i].address};
    }
    assert fs[..|fs|] == fs;
  }

  /** The first loop of mergeDiscoveryEntities. */
  method IndexEntities(tree: seq<Entity>) returns (idx: map<string, nat>)
    ensures Indexes(idx, tree)
  {
    idx := map[];
    for i := 0 to |tree|
      invariant Indexes(idx, tree[..i])
    {
      IndexMore(idx, tree[..i], tree[i]);
      TakeMore(tree, i);
      idx := idx[tree[i].address := i];
    }
    assert tree[..|tree|] == tree;
  }

  /** cmd/eebustracer/devices.go: mergeDiscoveryEntities. */
  method MergeDiscoveryEntities(existing: seq<Entity>, incoming: seq<Entity>) returns (merged: seq<Entity>)
    ensures merged == CliMerge(existing, incoming)
  {
    var idx := IndexEntities(existing);
    merged := existing;
    for j := 0 to |incoming|
      invariant merged == CliMerge(existing, incoming[..j]) && Indexes(idx, merged)
    {
      MergeMore(existing, incoming[..j], incoming[j]);
      TakeMore(incoming, j);
      merged, idx := MergeEntity(merged, idx, incoming[j]);
    }
    assert incoming[..|incoming|] == incoming;
  }

  /** The body of mergeDiscoveryEntities' second loop. */
  method MergeEntity(existing: seq<Entity>, idx0: map<string, nat>, ent: Entity)
    returns (merged: seq<Entity>, idx: map<string, nat>)
    requires Indexes(idx0, existing)
    ensures merged == CliAdd(existing, ent) && Indexes(idx, merged)
  {
    merged, idx := existing, idx0;
    if ent.address in idx {
      var pos := idx[ent.address];
      var featSeen := SeenIn(merged[pos].features);
      var _, features := AddNewFeatures(ent.features, featSeen, merged[pos].features);
      var e := merged[pos].(features := features);
      if e.entityType == "" && ent.entityType != "" {
        e := e.(entityType := ent.entityType);
      }
      IndexKept(idx, merged, pos, e);
      merged := merged[pos := e];
    } else {
      IndexMore(idx, merged, ent);
      merged := merged + [ent];
      idx := idx[ent.address := |merged| - 1];
    }
  }

  lemma IndexKept(idx: map<string, nat>, tree: seq<Entity>, pos: nat, e: Entity)
    requires Indexes(idx, tree) && pos < |tree| && e.address == tree[pos].address
    ensures Indexes(idx, tree[pos := e])
  {
    forall a ensures Find(tree[pos := e], a) == Find(tree, a) {
      FindUpdated(tree, pos, e, a);
    }
  }

  // -------------------------------------------------------------------- laws

  function AddressesOf(es: seq<Entity>): (r: seq<string>)
    ensures |r| == |es| && forall i :: 0 <= i < |es| ==> r[i] == es[i].address
  {
    seq(|es|, i requires 0 <= i < |es| => es[i].address)
  }

  lemma AddressesMore(es: seq<Entity>, e: Entity)
    ensures AddressesOf(es + [e]) == AddressesOf(es) + [e.address]
    ensures Distinct(AddressesOf(es + [e])) ==
              if e.address in AddressesOf(es) then Distinct(AddressesOf(es))
              else Distinct(AddressesOf(es)) + [e.address]
  {
    var r := AddressesOf(es + [e]);
    assert r == AddressesOf(es) + [e.address];
    assert r[..|es|] == AddressesOf(es);
  }

  /** Both trees list the reported addresses in the order of first appearance, each once. */
  lemma {:induction false} TreeAddresses(es: seq<Entity>)
    ensures AddressesOf(ApiMerge([], es)) == AddressesOf(CliMerge([], es)) == Distinct(AddressesOf(es))
  {
    if es != [] {
      var front, e := es[..|es| - 1], es[|es| - 1];
      assert es == front + [e];
      TreeAddresses(front);
      AddressesMore(front, e);
      AddAddress(ApiMerge([], front), e);
      AddAddress(CliMerge([], front), e);
    }
  }

  lemma AddAddress(tree: seq<Entity>, e: Entity)
    ensures AddressesOf(ApiAdd(tree, e)) == AddressesOf(CliAdd(tree, e))
         == if e.address in AddressesOf(tree) then AddressesOf(tree) else AddressesOf(tree) + [e.address]
  {
    var a := AddressesOf(tree);
    if Find(tree, e.address).Some? {
      assert a[Find(tree, e.address).value] == e.address;
    }
  }

  lemma {:induction false} AddKeepsPrefix(fs: seq<Feature>, more: seq<Feature>)
    ensures fs <= AddFeatures(fs, more)
    ensures forall f :: f in more ==> HasFeature(AddFeatures(fs, more), f.address)
    ensures UniqueFeatures(fs) ==> UniqueFeatures(AddFeatures(fs, more))
  {
    if more != [] {
      var front, f := more[..|more| - 1], more[|more| - 1];
      AddKeepsPrefix(fs, front);
      FeatureAppended(AddFeatures(fs, front), f);
      assert more == front + [f];
    }
  }

  /** The entity is in the tree with all its features. */
  ghost predicate Covered(tree: seq<Entity>, e: Entity) {
    && Find(tree, e.address).Some?
    && forall f :: f in e.features ==> HasFeature(tree[Find(tree, e.address).value].features, f.address)
  }

  lemma {:induction false} AddNothingNew(fs: seq<Feature>, more: seq<Feature>)
    requires forall f :: f in more ==> HasFeature(fs, f.address)
    ensures AddFeatures(fs, more) == fs
  {
    if more != [] {
      assert more == more[..|more| - 1] + [more[|more| - 1]];
      AddNothingNew(fs, more[..|more| - 1]);
    }
  }

  lemma AddCovers(tree: seq<Entity>, e: Entity)
    ensures Covered(ApiAdd(tree, e), e)
    ensures forall d :: Covered(tree, d) ==> Covered(ApiAdd(tree, e), d)
  {
    var found := Find(tree, e.address);
    var entry := if found.Some? then tree[found.value] else e.(features := []);
    AddKeepsPrefix(entry.features, e.features);
    if found.Some? {
      forall a ensures Find(ApiAdd(tree, e), a) == Find(tree, a) {
        FindUpdated(tree, found.value, Extended(entry, e.features), a);
      }
      forall d | Covered(tree, d) ensures Covered(ApiAdd(tree, e), d) {
        HasFeatureGrows(entry.features, Extended(entry, e.features).features);
      }
    } else {
      assert ApiAdd(tree, e)[..|tree|] == tree;
    }
  }

  lemma HasFeatureGrows(fs: seq<Feature>, gs: seq<Feature>)
    requires fs <= gs
    ensures forall x :: HasFeature(fs, x) ==> HasFeature(gs, x)
  {
    forall x | HasFeature(fs, x) ensures HasFeature(gs, x) {
      var i :| 0 <= i < |fs| && fs[i].address == x;
      assert gs[i].address == x;
    }
  }

  lemma {:induction false} MergeCovers(tree: seq<Entity>, es: seq<Entity>)
    ensures forall e :: e in es ==> Covered(ApiMerge(tree, es), e)
  {
    if es != [] {
      var front, e := es[..|es| - 1], es[|es| - 1];
      MergeCovers(tree, front);
      AddCovers(ApiMerge(tree, front), e);
      forall d | d in es ensures Covered(ApiMerge(tree, es), d) {
        assert d in front || d == e;
      }
    }
  }

  lemma {:induction false} MergeCovered(tree: seq<Entity>, es: seq<Entity>)
    requires forall e :: e in es ==> Covered(tree, e)
    ensures ApiMerge(tree, es) == tree
  {
    if es != [] {
      var front, e := es[..|es| - 1], es[|es| - 1];
      assert es == front + [e];
      MergeCovered(tree, front);
      assert e in es && Covered(tree, e);
      var i := Find(tree, e.address).value;
      AddNothingNew(tree[i].features, e.features);
    }
  }

  /** Covered, and with a type if `e` has one. */
  ghost predicate CliCovered(tree: seq<Entity>, e: Entity) {
    Covered(tree, e) && (tree[Find(tree, e.address).value].entityType == "" ==> e.entityType == "")
  }

  lemma CliAddCovers(tree: seq<Entity>, e: Entity)
    ensures CliCovered(CliAdd(tree, e), e)
    ensures forall d :: CliCovered(tree, d) ==> CliCovered(CliAdd(tree, e), d)
  {
    var found, more := Find(tree, e.address), CliAdd(tree, e);
    if found.Some? {
      var entry := tree[found.value];
      AddKeepsPrefix(entry.features, e.features);
      forall a ensures Find(more, a) == Find(tree, a) {
        FindUpdated(tree, found.value, more[found.value], a);
      }
      forall d | CliCovered(tree, d) ensures CliCovered(more, d) {
        HasFeatureGrows(entry.features, more[found.value].features);
      }
    } else {
      assert more[..|tree|] == tree;
      forall f | f in e.features ensures HasFeature(e.features, f.address) {
        var i :| 0 <= i < |e.features| && e.features[i] == f;
      }
    }
  }

  lemma {:induction false} CliMergeCovers(tree: seq<Entity>, es: seq<Entity>)
    ensures forall e :: e in es ==> CliCovered(CliMerge(tree, es), e)
  {
    if es != [] {
      var front, e := es[..|es| - 1], es[|es| - 1];
      CliMergeCovers(tree, front);
      CliAddCovers(CliMerge(tree, front), e);
      forall d | d in es ensures CliCovered(CliMerge(tree, es), d) {
        assert d in front || d == e;
      }
    }
  }

  lemma {:induction false} CliMergeCovered(tree: seq<Entity>, es: seq<Entity>)
    requires forall e :: e in es ==> CliCovered(tree, e)
    ensures CliMerge(tree, es) == tree
  {
    if es != [] {
      var front, e := es[..|es| - 1], es[|es| - 1];
      assert es == front + [e];
      CliMergeCovered(tree, front);
      assert e in es && CliCovered(tree, e);
      var i := Find(tree, e.address).value;
      AddNothingNew(tree[i].features, e.features);
    }
  }

  /** Merging a report a second time changes nothing, in both implementations. */
  lemma MergeIsIdempotent(tree: seq<Entity>, es: seq<Entity>)
    ensures ApiMerge(ApiMerge(tree, es), es) == ApiMerge(tree, es)
    ensures CliMerge(CliMerge(tree, es), es) == CliMerge(tree, es)
  {
    MergeCovers(tree, es);
    MergeCovered(ApiMerge(tree, es), es);
    CliMergeCovers(tree, es);
    CliMergeCovered(CliMerge(tree, es), es);
  }

  /** Merging reports one after the other is merging their concatenation. */
  lemma {:induction false} MergeOfConcatenation(tree: seq<Entity>, es: seq<Entity>, fs: seq<Entity>)
    ensures ApiMerge(ApiMerge(tree, es), fs) == ApiMerge(tree, es + fs)
    ensures CliMerge(CliMerge(tree, es), fs) == CliMerge(tree, es + fs)
  {
    if fs == [] {
      assert es + fs == es;
    } else {
      var front, f := fs[..|fs| - 1], fs[|fs| - 1];
      MergeOfConcatenation(tree, es, front);
      SplitLast(es, fs);
      MergeMore(tree, es + front, f);
    }
  }

  // -------------------------------------------------- what the trees contain

  /** `f` is in the list, with no earlier feature of its address. */
  ghost predicate FirstOfAddress(fs: seq<Feature>, f: Feature) {
    exists k :: 0 <= k < |fs| && fs[k] == f && forall j :: 0 <= j < k ==> fs[j].address != f.address
  }

  lemma FirstOfAddressMore(fs: seq<Feature>, last: Feature, f: Feature)
    ensures FirstOfAddress(fs + [last], f) <==> FirstOfAddress(fs, f) || (f == last && !HasFeature(fs, f.address))
  {
    var all := fs + [last];
    assert all[|fs|] == last && forall j :: 0 <= j < |fs| ==> all[j] == fs[j];
    if FirstOfAddress(fs, f) {
      var k :| 0 <= k < |fs| && fs[k] == f && forall j :: 0 <= j < k ==> fs[j].address != f.address;
      assert all[k] == f;
    }
  }

  /** Features added to none: of each address the first one, and nothing else. */
  lemma {:induction false} FirstOfEachAddress(fs: seq<Feature>, f: Feature)
    ensures f in AddFeatures([], fs) <==> FirstOfAddress(fs, f)
  {
    if fs != [] {
      var front, last := fs[..|fs| - 1], fs[|fs| - 1];
      FirstOfEachAddress(front, f);
      AddressAdded(front, last.address);
      FirstOfAddressMore(front, last, f);
      assert fs == front + [last];
    }
  }

  lemma {:induction false} AddressAdded(fs: seq<Feature>, x: string)
    ensures HasFeature(AddFeatures([], fs), x) <==> HasFeature(fs, x)
  {
    if fs != [] {
      var front, last := fs[..|fs| - 1], fs[|fs| - 1];
      AddressAdded(front, x);
      AddressAdded(front, last.address);
      assert fs == front + [last];
      FeatureAppended(front, last);
      FeatureAppended(AddFeatures([], front), last);
    }
  }

  /** All features reported for an entity, one report after the other. */
  function FeaturesReported(es: seq<Entity>, a: string): seq<Feature> {
    if es == [] then []
    else
      var e := es[|es| - 1];
      FeaturesReported(es[..|es| - 1], a) + (if e.address == a then e.features else [])
  }

  lemma {:induction false} AddFeaturesConcat(fs: seq<Feature>, more: seq<Feature>, rest: seq<Feature>)
    ensures AddFeatures(AddFeatures(fs, more), rest) == AddFeatures(fs, more + rest)
  {
    if rest == [] {
      assert more + rest == more;
    } else {
      AddFeaturesConcat(fs, more, rest[..|rest| - 1]);
      SplitLast(more, rest);
      AddFeaturesMore(fs, more + rest[..|rest| - 1], rest[|rest| - 1]);
    }
  }

  lemma FindAfterApi(tree: seq<Entity>, e: Entity, a: string)
    ensures Find(ApiAdd(tree, e), a) ==
              if Find(tree, a).None? && a == e.address then Some(|tree|) else Find(tree, a)
  {
    var found := Find(tree, e.address);
    if found.Some? {
      FindUpdated(tree, found.value, Extended(tree[found.value], e.features), a);
    } else {
      assert ApiAdd(tree, e)[..|tree|] == tree;
    }
  }

  lemma FindAfterCli(tree: seq<Entity>, e: Entity, a: string)
    ensures Find(CliAdd(tree, e), a) ==
              if Find(tree, a).None? && a == e.address then Some(|tree|) else Find(tree, a)
  {
    var found := Find(tree, e.address);
    if found.Some? {
      FindUpdated(tree, found.value, CliAdd(tree, e)[found.value], a);
    } else {
      assert CliAdd(tree, e)[..|tree|] == tree;
    }
  }

  /** An entity of the API's tree has the features reported for it, of each address the first. */
  lemma {:induction false} ApiFeatures(es: seq<Entity>, a: string)
    ensures var tree, i := ApiMerge([], es), Find(ApiMerge([], es), a);
            if i.Some? then tree[i.value].features == AddFeatures([], FeaturesReported(es, a))
            else FeaturesReported(es, a) == []
  {
    if es != [] {
      var front, e := es[..|es| - 1], es[|es| - 1];
      ApiFeatures(front, a);
      FindAfterApi(ApiMerge([], front), e, a);
      AddFeaturesConcat([], FeaturesReported(front, a), e.features);
      assert FeaturesReported(front, a) + [] == FeaturesReported(front, a);
      assert [] + e.features == e.features;
    }
  }

  /** The type a tree gives to an address. */
  function TypeIn(tree: seq<Entity>, a: string): Option<string> {
    var i := Find(tree, a);
    if i.Some? then Some(tree[i.value].entityType) else None
  }

  lemma TypeAfterApi(tree: seq<Entity>, e: Entity, a: string)
    ensures TypeIn(ApiAdd(tree, e), a) ==
              if a == e.address && TypeIn(tree, a).None? then Some(e.entityType) else TypeIn(tree, a)
  {
    FindAfterApi(tree, e, a);
  }

  lemma TypeAfterCli(tree: seq<Entity>, e: Entity, a: string)
    ensures TypeIn(CliAdd(tree, e), a) ==
              if a == e.address && TypeIn(tree, a).GetOr("") == "" then Some(e.entityType) else TypeIn(tree, a)
  {
    FindAfterCli(tree, e, a);
  }

  lemma TypeOfNew(front: seq<Entity>, e: Entity)
    requires forall i :: 0 <= i < |front| ==> front[i].address != e.address
    ensures TypeIn(ApiAdd(ApiMerge([], front), e), e.address) == Some(e.entityType)
  {
    NotReportedBefore(front, e);
    TypeAfterApi(ApiMerge([], front), e, e.address);
  }

  lemma TypeOfKnown(front: seq<Entity>, e: Entity, a: string)
    requires TypeIn(ApiMerge([], front), a).Some?
    ensures TypeIn(ApiAdd(ApiMerge([], front), e), a) == TypeIn(ApiMerge([], front), a)
  {
    TypeAfterApi(ApiMerge([], front), e, a);
  }

  /** The API keeps the type an entity was first reported with. */
  lemma {:induction false} ApiTypes(es: seq<Entity>, j: nat)
    requires FirstReport(es, j)
    ensures TypeIn(ApiMerge([], es), es[j].address) == Some(es[j].entityType)
  {
    var front, e := es[..|es| - 1], es[|es| - 1];
    if j < |front| {
      assert FirstReport(front, j) && front[j] == es[j];
      ApiTypes(front, j);
      TypeOfKnown(front, e, front[j].address);
    } else {
      TypeOfNew(front, e);
    }
  }

  /** All reports of an address have an empty type. */
  ghost predicate Untyped(es: seq<Entity>, a: string) {
    forall i :: 0 <= i < |es| && es[i].address == a ==> es[i].entityType == ""
  }

  lemma {:induction false} CliUntyped(es: seq<Entity>, a: string)
    requires Untyped(es, a)
    ensures TypeIn(CliMerge([], es), a).GetOr("") == ""
  {
    if es != [] {
      CliUntyped(es[..|es| - 1], a);
      TypeAfterCli(CliMerge([], es[..|es| - 1]), es[|es| - 1], a);
    }
  }

  lemma CliTypeOfUntyped(front: seq<Entity>, e: Entity)
    requires Untyped(front, e.address)
    ensures TypeIn(CliAdd(CliMerge([], front), e), e.address) == Some(e.entityType)
  {
    CliUntyped(front, e.address);
    TypeAfterCli(CliMerge([], front), e, e.address);
  }

  lemma CliTypeOfTyped(front: seq<Entity>, e: Entity, a: string)
    requires TypeIn(CliMerge([], front), a).GetOr("") != ""
    ensures TypeIn(CliAdd(CliMerge([], front), e), a) == TypeIn(CliMerge([], front), a)
  {
    TypeAfterCli(CliMerge([], front), e, a);
  }

  /** The CLI keeps the first type that is not empty. */
  lemma {:induction false} CliTypes(es: seq<Entity>, j: nat)
    requires j < |es| && es[j].entityType != "" && Untyped(es[..j], es[j].address)
    ensures TypeIn(CliMerge([], es), es[j].address) == Some(es[j].entityType)
  {
    var front, e := es[..|es| - 1], es[|es| - 1];
    if j < |front| {
      TakeOfTake(es, |front|, j);
      CliTypes(front, j);
      CliTypeOfTyped(front, e, front[j].address);
    } else {
      CliTypeOfUntyped(front, e);
    }
  }

  // ------------------------------------------------- the two implementations

  /** Same entities and features; the types may differ. */
  ghost predicate SameShape(a: seq<Entity>, c: seq<Entity>) {
    |a| == |c| && forall i :: 0 <= i < |a| ==> a[i].address == c[i].address && a[i].features == c[i].features
  }

  /** The first report of entity `j`'s address. */
  ghost predicate FirstReport(es: seq<Entity>, j: nat) {
    j < |es| && forall i :: 0 <= i < j ==> es[i].address != es[j].address
  }

  /** Whatever is reported first of an entity lists distinct feature addresses. */
  ghost predicate CleanFirstReports(es: seq<Entity>) {
    forall j: nat :: FirstReport(es, j) ==> UniqueFeatures(es[j].features)
  }

  lemma AddOneMore(front: seq<Feature>, f: Feature)
    requires AddFeatures([], front) == front && !HasFeature(front, f.address)
    ensures AddFeatures([], front + [f]) == front + [f]
  {
    AddFeaturesMore([], front, f);
  }

  lemma {:induction false} AddUniqueToNone(fs: seq<Feature>)
    requires UniqueFeatures(fs)
    ensures AddFeatures([], fs) == fs
  {
    if |fs| > 0 {
      var front, f := fs[..|fs| - 1], fs[|fs| - 1];
      UniqueFront(fs);
      AddUniqueToNone(front);
      AddOneMore(front, f);
      assert front + [f] == fs;
    } else {
      assert fs == [];
    }
  }

  lemma UniqueFront(fs: seq<Feature>)
    requires |fs| > 0 && UniqueFeatures(fs)
    ensures UniqueFeatures(fs[..|fs| - 1]) && !HasFeature(fs[..|fs| - 1], fs[|fs| - 1].address)
  {
  }

  lemma SameShapeStep(a: seq<Entity>, c: seq<Entity>, e: Entity)
    requires SameShape(a, c) && (Find(a, e.address).None? ==> UniqueFeatures(e.features))
    ensures SameShape(ApiAdd(a, e), CliAdd(c, e))
  {
    SameFind(a, c, e.address);
    if Find(a, e.address).None? {
      AddUniqueToNone(e.features);
    }
  }

  lemma {:induction false} SameFind(a: seq<Entity>, c: seq<Entity>, x: string)
    requires SameShape(a, c)
    ensures Find(a, x) == Find(c, x)
  {
    if a != [] {
      SameFind(a[..|a| - 1], c[..|c| - 1], x);
    }
  }

  lemma {:induction false} CleanGivesSameShape(es: seq<Entity>)
    requires CleanFirstReports(es)
    ensures SameShape(ApiMerge([], es), CliMerge([], es))
  {
    if es != [] {
      var front, e := es[..|es| - 1], es[|es| - 1];
      CleanPrefixOf(es);
      CleanGivesSameShape(front);
      CleanStep(front, e);
    }
  }

  lemma FirstReportOfPrefix(es: seq<Entity>, n: nat, j: nat)
    requires j < n <= |es|
    ensures es[..n][j] == es[j] && (FirstReport(es[..n], j) <==> FirstReport(es, j))
  {
    assert forall i :: 0 <= i < n ==> es[..n][i] == es[i];
  }

  lemma CleanPrefixOf(es: seq<Entity>)
    requires es != [] && CleanFirstReports(es)
    ensures CleanFirstReports(es[..|es| - 1])
    ensures var front, e := es[..|es| - 1], es[|es| - 1];
            (forall i :: 0 <= i < |front| ==> front[i].address != e.address) ==> UniqueFeatures(e.features)
  {
    var front := es[..|es| - 1];
    forall j: nat | FirstReport(front, j) ensures UniqueFeatures(front[j].features) {
      FirstReportOfPrefix(es, |front|, j);
    }
    if forall i :: 0 <= i < |front| ==> front[i].address != es[|front|].address {
      NewIsFirstReport(es);
    }
  }

  lemma NewIsFirstReport(es: seq<Entity>)
    requires es != []
    requires var front := es[..|es| - 1]; forall i :: 0 <= i < |front| ==> front[i].address != es[|es| - 1].address
    ensures FirstReport(es, |es| - 1)
  {
    var front := es[..|es| - 1];
    forall i | 0 <= i < |front| ensures es[i].address != es[|es| - 1].address {
      assert front[i] == es[i];
    }
  }

  lemma CleanStep(front: seq<Entity>, e: Entity)
    requires SameShape(ApiMerge([], front), CliMerge([], front))
    requires (forall i :: 0 <= i < |front| ==> front[i].address != e.address) ==> UniqueFeatures(e.features)
    ensures SameShape(ApiAdd(ApiMerge([], front), e), CliAdd(CliMerge([], front), e))
  {
    NotReportedBefore(front, e);
    SameShapeStep(ApiMerge([], front), CliMerge([], front), e);
  }

  lemma NotReportedBefore(front: seq<Entity>, e: Entity)
    ensures Find(ApiMerge([], front), e.address).None?
            <==> forall i :: 0 <= i < |front| ==> front[i].address != e.address
    ensures Find(CliMerge([], front), e.address).None?
            <==> forall i :: 0 <= i < |front| ==> front[i].address != e.address
  {
    TreeAddresses(front);
    var all := AddressesOf(front);
    assert e.address in all <==> exists i :: 0 <= i < |front| && front[i].address == e.address;
    InTree(ApiMerge([], front), e.address);
    InTree(CliMerge([], front), e.address);
  }

  lemma InTree(tree: seq<Entity>, a: string)
    ensures Find(tree, a).Some? <==> a in AddressesOf(tree)
  {
    if Find(tree, a).Some? {
      assert AddressesOf(tree)[Find(tree, a).value] == a;
    }
  }

  lemma {:induction false} ApiFeaturesAreUnique(es: seq<Entity>)
    ensures forall i :: 0 <= i < |ApiMerge([], es)| ==> UniqueFeatures(ApiMerge([], es)[i].features)
  {
    if es != [] {
      var tree, e := ApiMerge([], es[..|es| - 1]), es[|es| - 1];
      ApiFeaturesAreUnique(es[..|es| - 1]);
      var found := Find(tree, e.address);
      AddKeepsPrefix(if found.Some? then tree[found.value].features else [], e.features);
    }
  }

  /** A repetition in the CLI's tree never goes away. */
  lemma {:induction false} CliKeepsRepetition(es: seq<Entity>, j: nat) returns (i: nat)
    requires FirstReport(es, j) && !UniqueFeatures(es[j].features)
    ensures i < |CliMerge([], es)| && !UniqueFeatures(CliMerge([], es)[i].features)
  {
    var front, e := es[..|es| - 1], es[|es| - 1];
    var tree := CliMerge([], front);
    if j == |front| {
      NotReportedBefore(front, e);
      i := |tree|;
    } else {
      assert FirstReport(front, j);
      i := CliKeepsRepetition(front, j);
      CliAddKeepsRepetition(tree, e, i);
    }
  }

  lemma CliAddKeepsRepetition(tree: seq<Entity>, e: Entity, i: nat)
    requires i < |tree| && !UniqueFeatures(tree[i].features)
    ensures i < |CliAdd(tree, e)| && !UniqueFeatures(CliAdd(tree, e)[i].features)
  {
    AddKeepsPrefix(tree[i].features, e.features);
  }

  /** The API and the CLI build the same entities with the same features exactly when no first report
      of an entity repeats a feature address. */
  lemma ImplementationsAgree(es: seq<Entity>)
    ensures SameShape(ApiMerge([], es), CliMerge([], es)) <==> CleanFirstReports(es)
  {
    if CleanFirstReports(es) {
      CleanGivesSameShape(es);
    } else {
      var j: nat :| FirstReport(es, j) && !UniqueFeatures(es[j].features);
      var i := CliKeepsRepetition(es, j);
      ApiFeaturesAreUnique(es);
    }
  }
}
