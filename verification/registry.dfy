/**
 * The state of ShinyPluginManager as a value: the `plugins` map keyed by id, the
 * identity-keyed `instanceMap`, and the log of register(owner, listener) calls made on the
 * event manager. Store is one pass of the registration loop of loadPlugins; StoreAll is
 * the whole loop over the loader's containers.
 */
module Registry {

  /** A loaded plugin (PluginContainer): id, name, version and the plugin's live object. */
  datatype Container = Container(id: string, name: string, version: string, instance: object)

  datatype State = State(
    plugins: map<string, Container>,
    instances: map<object, Container>,
    registered: seq<(object, object)>)

  /** The two maps are in lockstep: each stored container sits under its own id in
      `plugins` and under its own instance in `instances`, and nothing else is stored. */
  ghost predicate Lockstep(plugins: map<string, Container>, instances: map<object, Container>)
  {
    && (forall id :: id in plugins ==>
          plugins[id].id == id && plugins[id].instance in instances &&
          instances[plugins[id].instance] == plugins[id])
    && (forall x :: x in instances ==>
          instances[x].instance == x && instances[x].id in plugins &&
          plugins[instances[x].id] == instances[x])
  }

  /** Every stored plugin has been registered with the event manager as its own listener. */
  ghost predicate AllRegistered(s: State)
  {
    forall id :: id in s.plugins ==> (s.plugins[id].instance, s.plugins[id].instance) in s.registered
  }

  ghost predicate Valid(s: State)
  {
    Lockstep(s.plugins, s.instances) && AllRegistered(s)
  }

  /** The loader's contract: one descriptor per distinct instance, across the batch and
      against the containers already registered. */
  ghost predicate OneDescriptorPerInstance(instances: map<object, Container>, batch: seq<Container>)
  {
    && (forall i, j :: 0 <= i < |batch| && 0 <= j < |batch| && batch[i].instance == batch[j].instance ==>
          batch[i] == batch[j])
    && (forall i :: 0 <= i < |batch| && batch[i].instance in instances ==>
          instances[batch[i].instance] == batch[i])
  }

  /** The ids carried by a batch of containers. */
  function Ids(batch: seq<Container>): set<string>
    decreases |batch|
  {
    if batch == [] then {} else Ids(batch[..|batch| - 1]) + {batch[|batch| - 1].id}
  }

  /** The instances carried by a batch of containers. */
  function Instances(batch: seq<Container>): set<object>
    decreases |batch|
  {
    if batch == [] then {} else Instances(batch[..|batch| - 1]) + {batch[|batch| - 1].instance}
  }

  /** Each container's instance registered as both owner and listener, in order. */
  function SelfPairs(batch: seq<Container>): (pairs: seq<(object, object)>)
    ensures |pairs| == |batch|
    ensures forall k :: 0 <= k < |batch| ==> pairs[k].0 == pairs[k].1 == batch[k].instance
  {
    seq(|batch|, k requires 0 <= k < |batch| => (batch[k].instance, batch[k].instance))
  }

  /** batch[i] is the first container of the batch carrying its id, and that id was not
      registered before the batch. */
  predicate FirstNew(known: set<string>, batch: seq<Container>, i: int)
  {
    0 <= i < |batch| && batch[i].id !in known &&
    forall j :: 0 <= j < i ==> batch[j].id != batch[i].id
  }

  /** First-seen wins, stated on its own: the containers of the batch that are kept, in
      batch order. */
  function Accepted(known: set<string>, batch: seq<Container>): (kept: seq<Container>)
    ensures |kept| <= |batch|
    decreases |batch|
  {
    if batch == [] then []
    else
      Accepted(known, batch[..|batch| - 1]) +
      (if FirstNew(known, batch, |batch| - 1) then [batch[|batch| - 1]] else [])
  }

  /** One iteration of the registration loop: a container whose id is already present is
      skipped; otherwise it is put into both maps and its instance is registered as owner
      and listener. */
  function Store(s: State, c: Container): (s': State)
    ensures c.id in s'.plugins && s.plugins.Keys <= s'.plugins.Keys
    ensures forall id :: id in s.plugins ==> s'.plugins[id] == s.plugins[id]
    ensures s.instances.Keys <= s'.instances.Keys
    ensures |s.registered| <= |s'.registered| && s'.registered[..|s.registered|] == s.registered
  {
    if c.id in s.plugins then s
    else State(s.plugins[c.id := c], s.instances[c.instance := c], s.registered + [(c.instance, c.instance)])
  }

  /** The registration loop over the loader's containers, in order. */
  function StoreAll(s: State, batch: seq<Container>): (s': State)
    ensures |s.registered| <= |s'.registered| <= |s.registered| + |batch|
    decreases |batch|
  {
    if batch == [] then s
    else Store(StoreAll(s, batch[..|batch| - 1]), batch[|batch| - 1])
  }

  /** An id belongs to a batch exactly when some container of the batch carries it. */
  lemma {:induction false} IdsMembers(batch: seq<Container>, id: string)
    ensures id in Ids(batch) <==> exists j :: 0 <= j < |batch| && batch[j].id == id
    decreases |batch|
  {
    if batch != [] {
      var front := batch[..|batch| - 1];
      IdsMembers(front, id);
      if id in Ids(front) {
        var j :| 0 <= j < |front| && front[j].id == id;
        assert batch[j].id == id;
      }
      if exists j :: 0 <= j < |batch| && batch[j].id == id {
        var j :| 0 <= j < |batch| && batch[j].id == id;
        if j < |front| { assert front[j].id == id; }
      }
    }
  }

  /** An object is among a batch's instances exactly when some container of the batch owns it. */
  lemma {:induction false} InstancesMembers(batch: seq<Container>, x: object)
    ensures x in Instances(batch) <==> exists j :: 0 <= j < |batch| && batch[j].instance == x
    decreases |batch|
  {
    if batch != [] {
      var front := batch[..|batch| - 1];
      InstancesMembers(front, x);
      if x in Instances(front) {
        var j :| 0 <= j < |front| && front[j].instance == x;
        assert batch[j].instance == x;
      }
      if exists j :: 0 <= j < |batch| && batch[j].instance == x {
        var j :| 0 <= j < |batch| && batch[j].instance == x;
        if j < |front| { assert front[j].instance == x; }
      }
    }
  }

  /** The last container of a batch is kept exactly when its id is neither registered
      before the batch nor carried by an earlier container. */
  lemma LastFirstNew(known: set<string>, batch: seq<Container>)
    requires batch != []
    ensures FirstNew(known, batch, |batch| - 1) <==>
            batch[|batch| - 1].id !in known + Ids(batch[..|batch| - 1])
  {
    var front := batch[..|batch| - 1];
    IdsMembers(front, batch[|batch| - 1].id);
    assert forall j :: 0 <= j < |front| ==> front[j] == batch[j];
  }

  /** FirstNew only looks backwards, so it is the same on a prefix. */
  lemma FirstNewPrefix(known: set<string>, batch: seq<Container>, n: nat, i: int)
    requires n <= |batch| && 0 <= i < n
    ensures FirstNew(known, batch[..n], i) <==> FirstNew(known, batch, i)
  {
  }

  /** After the loop, the ids in `plugins` are the old ones plus every id the loader returned. */
  lemma {:induction false} StoreAllKeys(s: State, batch: seq<Container>)
    ensures StoreAll(s, batch).plugins.Keys == s.plugins.Keys + Ids(batch)
    decreases |batch|
  {
    if batch != [] {
      StoreAllKeys(s, batch[..|batch| - 1]);
    }
  }

  /** Unfolding Accepted at the last container of a non-empty batch. */
  lemma AcceptedSnoc(known: set<string>, batch: seq<Container>)
    requires batch != []
    ensures Accepted(known, batch) ==
            Accepted(known, batch[..|batch| - 1]) +
            (if FirstNew(known, batch, |batch| - 1) then [batch[|batch| - 1]] else [])
  {
  }

  /** The loop registers exactly the kept containers, each once as owner and listener, in
      batch order. Nothing else is registered. */
  lemma {:induction false} StoreAllRegistered(s: State, batch: seq<Container>)
    ensures StoreAll(s, batch).registered == s.registered + SelfPairs(Accepted(s.plugins.Keys, batch))
    decreases |batch|
  {
    if batch != [] {
      var front, c := batch[..|batch| - 1], batch[|batch| - 1];
      var known := s.plugins.Keys;
      StoreAllRegistered(s, front);
      StoreAllKeys(s, front);
      LastFirstNew(known, batch);
      AcceptedSnoc(known, batch);
      var kept := Accepted(known, front);
      if FirstNew(known, batch, |batch| - 1) {
        assert SelfPairs(kept + [c]) == SelfPairs(kept) + [(c.instance, c.instance)];
      }
    }
  }

  /** The instances that become keys of `instanceMap` are exactly those of the kept
      containers. */
  lemma {:induction false} StoreAllInstanceKeys(s: State, batch: seq<Container>)
    ensures StoreAll(s, batch).instances.Keys == s.instances.Keys + Instances(Accepted(s.plugins.Keys, batch))
    decreases |batch|
  {
    if batch != [] {
      var front, c := batch[..|batch| - 1], batch[|batch| - 1];
      var known := s.plugins.Keys;
      var mid := StoreAll(s, front);
      StoreAllInstanceKeys(s, front);
      StoreAllKeys(s, front);
      LastFirstNew(known, batch);
      AcceptedSnoc(known, batch);
      var prev, kept := Accepted(known, front), Accepted(known, batch);
      if FirstNew(known, batch, |batch| - 1) {
        assert kept == prev + [c];
        assert kept[..|kept| - 1] == prev;
        assert Instances(kept) == Instances(prev) + {c.instance};
        assert StoreAll(s, batch).instances == mid.instances[c.instance := c];
      } else {
        assert kept == prev;
        assert StoreAll(s, batch) == mid;
      }
    }
  }

  /** First-seen wins inside the batch: the first container carrying a new id is the one
      stored under it. */
  lemma {:induction false} StoreAllFirstSeen(s: State, batch: seq<Container>, i: int)
    requires FirstNew(s.plugins.Keys, batch, i)
    ensures batch[i].id in StoreAll(s, batch).plugins
    ensures StoreAll(s, batch).plugins[batch[i].id] == batch[i]
    decreases |batch|
  {
    var front := batch[..|batch| - 1];
    if i == |batch| - 1 {
      LastFirstNew(s.plugins.Keys, batch);
      StoreAllKeys(s, front);
    } else {
      FirstNewPrefix(s.plugins.Keys, batch, |batch| - 1, i);
      StoreAllFirstSeen(s, front, i);
    }
  }

  /** Every new id the loader returned has a first container carrying it. */
  lemma {:induction false} FirstOccurrence(known: set<string>, batch: seq<Container>, id: string)
    requires id in Ids(batch) && id !in known
    ensures exists i :: FirstNew(known, batch, i) && batch[i].id == id
    decreases |batch|
  {
    assert batch != [];
    var front, c := batch[..|batch| - 1], batch[|batch| - 1];
    if id in Ids(front) {
      FirstOccurrence(known, front, id);
      var i :| FirstNew(known, front, i) && front[i].id == id;
      FirstNewPrefix(known, batch, |batch| - 1, i);
      assert FirstNew(known, batch, i) && batch[i].id == id;
    } else {
      LastFirstNew(known, batch);
      assert c.id == id;
      assert FirstNew(known, batch, |batch| - 1);
    }
  }

  /** getPlugin after the loop: an id the registry did not hold and the loader never returned
      is absent; an id already held keeps its container; a new id maps to the first
      container of the batch carrying it. */
  lemma LookupAfterStoreAll(s: State, batch: seq<Container>, id: string)
    ensures id in StoreAll(s, batch).plugins <==> id in s.plugins || id in Ids(batch)
    ensures id in s.plugins ==> StoreAll(s, batch).plugins[id] == s.plugins[id]
    ensures id !in s.plugins && id in Ids(batch) ==>
              exists i :: FirstNew(s.plugins.Keys, batch, i) && batch[i].id == id &&
                          StoreAll(s, batch).plugins[id] == batch[i]
  {
    StoreAllKeys(s, batch);
    StoreAllGrows(s, batch);
    if id !in s.plugins && id in Ids(batch) {
      FirstOccurrence(s.plugins.Keys, batch, id);
      var i :| FirstNew(s.plugins.Keys, batch, i) && batch[i].id == id;
      StoreAllFirstSeen(s, batch, i);
    }
  }

  /** The maps only grow: no id or instance is removed, no stored plugin is replaced, and
      the register log is only appended to. */
  lemma {:induction false} StoreAllGrows(s: State, batch: seq<Container>)
    ensures s.plugins.Keys <= StoreAll(s, batch).plugins.Keys
    ensures forall id :: id in s.plugins ==> StoreAll(s, batch).plugins[id] == s.plugins[id]
    ensures s.instances.Keys <= StoreAll(s, batch).instances.Keys
    ensures |s.registered| <= |StoreAll(s, batch).registered|
    ensures StoreAll(s, batch).registered[..|s.registered|] == s.registered
    decreases |batch|
  {
    if batch != [] {
      StoreAllGrows(s, batch[..|batch| - 1]);
    }
  }

  /** Every container the loop keeps is a first occurrence of a new id. */
  lemma {:induction false} AcceptedAreFirstNew(known: set<string>, batch: seq<Container>, k: int)
    requires 0 <= k < |Accepted(known, batch)|
    ensures exists i :: FirstNew(known, batch, i) && batch[i] == Accepted(known, batch)[k]
    decreases |batch|
  {
    var front, last := batch[..|batch| - 1], batch[|batch| - 1];
    var prev, kept := Accepted(known, front), Accepted(known, batch);
    AcceptedSnoc(known, batch);
    if k < |prev| {
      assert kept[k] == prev[k];
      AcceptedAreFirstNew(known, front, k);
      var i :| FirstNew(known, front, i) && front[i] == prev[k];
      FirstNewPrefix(known, batch, |batch| - 1, i);
      assert FirstNew(known, batch, i) && batch[i] == kept[k];
    } else {
      assert FirstNew(known, batch, |batch| - 1) && kept[k] == last;
    }
  }

  /** A rejected container whose instance is its own shares no instance with a kept one. */
  lemma RejectedNotKept(known: set<string>, batch: seq<Container>, i: int)
    requires 0 <= i < |batch| && !FirstNew(known, batch, i)
    requires forall j :: 0 <= j < |batch| && batch[j].instance == batch[i].instance ==> j == i
    ensures forall k :: 0 <= k < |Accepted(known, batch)| ==> Accepted(known, batch)[k].instance != batch[i].instance
    ensures batch[i].instance !in Instances(Accepted(known, batch))
  {
    var kept := Accepted(known, batch);
    forall k | 0 <= k < |kept| ensures kept[k].instance != batch[i].instance {
      AcceptedAreFirstNew(known, batch, k);
    }
    InstancesMembers(kept, batch[i].instance);
  }

  /** A duplicate never reaches the event manager nor `instanceMap`: if its instance is its
      own (no other container of the batch shares it, and it was not registered before),
      the loop neither registers it nor stores it. */
  lemma RejectedNeverRegistered(s: State, batch: seq<Container>, i: int)
    requires 0 <= i < |batch| && !FirstNew(s.plugins.Keys, batch, i)
    requires forall j :: 0 <= j < |batch| && batch[j].instance == batch[i].instance ==> j == i
    requires batch[i].instance !in s.instances
    ensures batch[i].instance !in StoreAll(s, batch).instances
    ensures forall k :: |s.registered| <= k < |StoreAll(s, batch).registered| ==>
              StoreAll(s, batch).registered[k].0 != batch[i].instance &&
              StoreAll(s, batch).registered[k].1 != batch[i].instance
  {
    var kept := Accepted(s.plugins.Keys, batch);
    RejectedNotKept(s.plugins.Keys, batch, i);
    StoreAllInstanceKeys(s, batch);
    StoreAllRegistered(s, batch);
    var log := StoreAll(s, batch).registered;
    forall k | |s.registered| <= k < |log|
      ensures log[k].0 != batch[i].instance && log[k].1 != batch[i].instance
    {
      assert log[k] == SelfPairs(kept)[k - |s.registered|];
    }
  }

  /** One registration per distinct new id: the number of kept containers is the number of
      distinct ids of the batch that were not registered before. */
  lemma {:induction false} AcceptedCount(known: set<string>, batch: seq<Container>)
    ensures |Accepted(known, batch)| == |Ids(batch) - known|
    decreases |batch|
  {
    if batch != [] {
      var front, c := batch[..|batch| - 1], batch[|batch| - 1];
      AcceptedCount(known, front);
      AcceptedSnoc(known, batch);
      LastFirstNew(known, batch);
      var prev := Ids(front) - known;
      if FirstNew(known, batch, |batch| - 1) {
        assert Accepted(known, batch) == Accepted(known, front) + [c];
        assert c.id !in prev;
        assert Ids(batch) - known == prev + {c.id};
      } else {
        assert Accepted(known, batch) == Accepted(known, front);
        assert c.id in known || c.id in prev;
        assert Ids(batch) - known == prev;
      }
    }
  }

  /** Values reached by `instances` after the loop were there before or come from the batch. */
  lemma {:induction false} StoreAllInstanceOrigin(s: State, batch: seq<Container>, x: object)
    requires x in StoreAll(s, batch).instances
    ensures (x in s.instances && StoreAll(s, batch).instances[x] == s.instances[x]) ||
            StoreAll(s, batch).instances[x] in batch
    decreases |batch|
  {
    if batch != [] {
      var front, c := batch[..|batch| - 1], batch[|batch| - 1];
      var mid := StoreAll(s, front);
      if c.id in mid.plugins || x != c.instance {
        StoreAllInstanceOrigin(s, front, x);
        assert forall d :: d in front ==> d in batch;
      }
    }
  }

  /** Putting a container with a fresh id and a fresh instance into both maps keeps them
      in lockstep. */
  lemma LockstepPut(plugins: map<string, Container>, instances: map<object, Container>, c: Container)
    requires Lockstep(plugins, instances)
    requires c.id !in plugins && c.instance !in instances
    ensures Lockstep(plugins[c.id := c], instances[c.instance := c])
  {
  }

  /** One step of the loop keeps the registry valid when the new container's instance is
      either unknown or already owned by that very container. */
  lemma StoreValid(s: State, c: Container)
    requires Valid(s)
    requires c.instance in s.instances ==> s.instances[c.instance] == c
    ensures Valid(Store(s, c))
  {
    if c.id !in s.plugins {
      LockstepPut(s.plugins, s.instances, c);
    }
  }

  /** The loop keeps the two maps in lockstep, and every stored plugin registered, as long
      as the loader keeps to one descriptor per instance. Without that contract, the `put`
      into `instanceMap` may overwrite the entry of an already stored plugin. */
  lemma {:induction false} StoreAllValid(s: State, batch: seq<Container>)
    requires Valid(s)
    requires OneDescriptorPerInstance(s.instances, batch)
    ensures Valid(StoreAll(s, batch))
    decreases |batch|
  {
    if batch != [] {
      var front, c := batch[..|batch| - 1], batch[|batch| - 1];
      assert OneDescriptorPerInstance(s.instances, front);
      StoreAllValid(s, front);
      var mid := StoreAll(s, front);
      if c.instance in mid.instances {
        StoreAllInstanceOrigin(s, front, c.instance);
        var v := mid.instances[c.instance];
        if v in front {
          var j :| 0 <= j < |front| && front[j] == v;
          assert batch[j] == v;
        }
      }
      StoreValid(mid, c);
    }
  }

  /** What the whole loop does, gathered for its caller. */
  lemma StoreAllSummary(s: State, batch: seq<Container>)
    ensures StoreAll(s, batch).plugins.Keys == s.plugins.Keys + Ids(batch)
    ensures forall id :: id in s.plugins ==> StoreAll(s, batch).plugins[id] == s.plugins[id]
    ensures s.instances.Keys <= StoreAll(s, batch).instances.Keys
    ensures StoreAll(s, batch).registered == s.registered + SelfPairs(Accepted(s.plugins.Keys, batch))
    ensures Valid(s) && OneDescriptorPerInstance(s.instances, batch) ==> Valid(StoreAll(s, batch))
  {
    StoreAllKeys(s, batch);
    StoreAllGrows(s, batch);
    StoreAllRegistered(s, batch);
    if Valid(s) && OneDescriptorPerInstance(s.instances, batch) {
      StoreAllValid(s, batch);
    }
  }

  /** A map whose values each name their own key has as many distinct values as keys. */
  lemma {:induction false} ValuesCount<K, V>(m: map<K, V>, key: V -> K)
    requires forall k :: k in m ==> key(m[k]) == k
    ensures |m.Values| == |m|
    decreases |m|
  {
    if m != map[] {
      var k :| k in m;
      var m' := m - {k};
      assert m'.Keys == m.Keys - {k};
      assert |m'| == |m| - 1;
      ValuesCount(m', key);
      assert m.Values == m'.Values + {m[k]} by {
        forall v | v in m.Values ensures v in m'.Values + {m[k]} {
          var k' :| k' in m && m[k'] == v;
          if k' != k { assert m'[k'] == v; }
        }
      }
      assert m[k] !in m'.Values;
    }
  }

  /** In lockstep, `plugins`, its values (getPlugins) and `instances` have the same size. */
  lemma LockstepSizes(plugins: map<string, Container>, instances: map<object, Container>)
    requires Lockstep(plugins, instances)
    ensures |plugins.Values| == |plugins| == |instances|
  {
    ValuesCount(plugins, (c: Container) => c.id);
    ValuesCount(instances, (c: Container) => c.instance);
    assert plugins.Values == instances.Values by {
      forall v | v in plugins.Values ensures v in instances.Values {
        var id :| id in plugins && plugins[id] == v;
        assert instances[v.instance] == v;
      }
      forall v | v in instances.Values ensures v in plugins.Values {
        var x :| x in instances && instances[x] == v;
        assert plugins[v.id] == v;
      }
    }
  }

  /** From an empty registry, one entry per distinct id the loader returned, whatever the
      duplicates, with as many instances and registrations. */
  lemma EntriesAfterFirstLoad(batch: seq<Container>, log: seq<(object, object)>)
    ensures var s' := StoreAll(State(map[], map[], log), batch);
            |s'.plugins| == |Ids(batch)| && |s'.registered| == |log| + |Ids(batch)|
    ensures OneDescriptorPerInstance(map[], batch) ==>
              |StoreAll(State(map[], map[], log), batch).instances| == |Ids(batch)|
  {
    var s := State(map[], map[], log);
    var s' := StoreAll(s, batch);
    var n := |Ids(batch)|;
    StoreAllKeys(s, batch);
    assert s'.plugins.Keys == Ids(batch);
    assert |s'.plugins| == n;
    StoreAllRegistered(s, batch);
    AcceptedCount({}, batch);
    assert Ids(batch) - {} == Ids(batch);
    assert |s'.registered| == |log| + |Accepted({}, batch)|;
    if OneDescriptorPerInstance(map[], batch) {
      StoreAllValid(s, batch);
      LockstepSizes(s'.plugins, s'.instances);
    }
  }

  /** Two containers with the same id "core": the first is stored, only its instance is
      registered, and the second's instance is neither stored nor registered. */
  lemma DuplicateCore(s: State, first: Container, second: Container)
    requires first.id == second.id == "core" && "core" !in s.plugins
    requires first.instance != second.instance && second.instance !in s.instances
    ensures var s' := StoreAll(s, [first, second]);
            s'.plugins == s.plugins["core" := first] &&
            s'.registered == s.registered + [(first.instance, first.instance)] &&
            second.instance !in s'.instances
  {
    assert [first, second][..1] == [first];
    assert [first][..0] == [];
    var s1 := Store(s, first);
    assert StoreAll(s, [first]) == s1;
    assert StoreAll(s, [first, second]) == Store(s1, second) == s1;
  }
}
