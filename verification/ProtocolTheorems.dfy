/** What every process holds in the runs that keep the stored vectors the current embedder's,
    and where that stops. */
module ProtocolTheorems {
  import opened Optional
  import opened Embedders
  import opened Stores
  import opened StoreProofs
  import opened Protocol
  import opened ProtocolProofs
  import opened CurrentVectors
  import opened Strangers

  // What every configuration of such a run satisfies.
  ghost predicate Inv(embed: Embedding, c: Config) {
    && Fits(embed, c)
    && Uniform(c.store)
    && forall pid :: pid in c.procs ==> Remembers(c.store, c.procs[pid])
  }

  lemma StartsInv(embed: Embedding, c: Config)
    requires Initial(c)
    ensures Inv(embed, c)
  {
    forall pid | pid in c.procs ensures Remembers(c.store, c.procs[pid]) && Pending(embed, c.store, c.procs[pid]) {
      var dense, request, allowSwitch :| c.procs[pid] == NewProcess(dense, request, allowSwitch);
    }
  }

  lemma InvStep(embed: Embedding, c: Config, e: Event)
    requires Sized(embed) && Inv(embed, c) && CanHappen(c, e)
    requires !Mixes(c.store, c.procs[e.pid], e.action)
    ensures Inv(embed, Next(embed, c, e))
  {
    var p, s := c.procs[e.pid], c.store;
    var t := StoreAfter(s, p, e.action);
    FitsStep(embed, c, e);
    StoreStepUniform(embed, s, p, e.action);
    OwnStepKeeps(embed, s, p, e.action);
    assert Uniform(t);
    hide Fits, Uniform, Sound, StoreMoves, ProcessAfter, StoreAfter, Data, AtPc;
    forall pid | pid in c.procs ensures Remembers(t, Next(embed, c, e).procs[pid]) {
      if pid != e.pid {
        Settle(embed, s, t, c.procs[pid]);
      }
    }
  }

  lemma {:induction false} InvAlways(embed: Embedding, c: Config, events: seq<Event>)
    requires Sized(embed) && Inv(embed, c) && IsRun(embed, c, events) && NoMixingSeed(embed, c, events)
    ensures Inv(embed, Final(embed, c, events))
    decreases |events|
  {
    hide Inv;
    if events != [] {
      InvStep(embed, c, events[0]);
      InvAlways(embed, Next(embed, c, events[0]), events[1..]);
    }
  }

  lemma UnmixedInv(embed: Embedding, c: Config)
    requires Sized(embed) && Unmixed(embed, c)
    ensures Inv(embed, c)
  {
    var c0, events :| Initial(c0) && IsRun(embed, c0, events) && NoMixingSeed(embed, c0, events)
      && Final(embed, c0, events) == c;
    StartsInv(embed, c0);
    InvAlways(embed, c0, events);
  }

  lemma UnmixedRemembers(embed: Embedding, c: Config, pid: nat)
    requires Sized(embed) && Unmixed(embed, c) && pid in c.procs
    ensures Sound(embed, c.store) && Uniform(c.store) && Remembers(c.store, c.procs[pid])
  {
    UnmixedInv(embed, c);
  }

  // A process that has seen the store's generation holds only stored vectors, with the
  // stored values, and holds every one up to its cursor; each is the store's embedder's
  // vector of the turn's text.
  lemma IndexIsCoherent(embed: Embedding, c: Config, pid: nat)
    requires Sized(embed) && Unmixed(embed, c) && pid in c.procs
    requires c.procs[pid].mem.seenGeneration == c.store.generation
    ensures var m, s := c.procs[pid].mem, c.store;
      && (forall id :: id in m.index ==> id in s.rows && m.index[id] == s.rows[id].vec)
      && (forall id :: id in s.rows && s.rows[id].serial <= m.seenSerial ==> id in m.index)
      && (forall id :: id in m.index ==>
            id in s.turns && s.spec.Some? && m.index[id] == embed(s.spec.value.Name(), s.turns[id].text))
  {
    UnmixedRemembers(embed, c, pid);
    StoredVectorsAreCurrent(embed, c);
  }

  // --- what a load completes ----------------------------------------------

  // No vector is of a name that is not the recorded one.
  lemma OnlyRecorded(s: Store, name: Name)
    requires Uniform(s)
    ensures s.ModelName() != Some(name) ==> VectorsOf(s, name) == map[]
    ensures s.ModelName() == Some(name) ==> VectorsOf(s, name).Keys == s.rows.Keys
  {
    assert forall id :: id in s.rows ==> s.ModelName() == Some(s.rows[id].model);
  }

  // A load under the store's generation takes in every vector of the embedder held, if the
  // index has their length,
  lemma LoadedAll(embed: Embedding, s: Store, m: Memory)
    requires Sized(embed) && Sound(embed, s) && Uniform(s) && Data(s, m) && Named(s, m)
    requires m.seenGeneration == s.generation && Dimensioned(m)
    ensures Load(m, s).index == VectorsOf(s, m.held.value.Name())
  {
    var name, n := m.held.value.Name(), Load(m, s);
    var all := VectorsOf(s, name);
    OnlyRecorded(s, name);
    LoadKeeps(embed, s, m);
    if s.ModelName() == Some(name) {
      RowLengths(embed, s, name);
      assert Coherent(s, n);
      hide Data, Named, Sound, Uniform, Load;
      assert forall id :: id in n.index <==> id in all;
    } else {
      LoadFindsNone(s, m);
    }
  }

  // and none if it has another length.
  lemma LoadedNothing(embed: Embedding, s: Store, m: Memory)
    requires Sized(embed) && Sound(embed, s) && Uniform(s) && Data(s, m) && Named(s, m)
    requires m.seenGeneration == s.generation && m.held.Some? && s.ModelName() == m.HeldName()
    ensures Load(m, s).index != map[] ==> Dimensioned(m)
  {
    var n := Load(m, s);
    LoadKeeps(embed, s, m);
    RowLengths(embed, s, m.held.value.Name());
    if n.index != map[] {
      var id :| id in n.index;
      assert |n.index[id]| == m.dim != 0;
    }
  }

  lemma LoadCompletes(embed: Embedding, s: Store, m: Memory)
    requires Sized(embed) && Sound(embed, s) && Uniform(s) && Data(s, m) && (m.dense ==> Named(s, m))
    requires m.seenGeneration == s.generation && s.spec.Some?
    ensures var name := s.spec.value.Name();
      Load(m, s).index == VectorsOf(s, name) <==>
        s.rows == map[] || (m.HeldName() == s.ModelName() && m.dim == DimOf(name) != 0)
  {
    var name := s.spec.value.Name();
    OnlyRecorded(s, name);
    assert s.rows == map[] <==> s.rows.Keys == {};
    assert VectorsOf(s, name) == map[] <==> VectorsOf(s, name).Keys == {};
    if m.HeldName() != s.ModelName() {
      LoadFindsNone(s, m);
      assert m.index == map[];
    } else {
      LoadedNothing(embed, s, m);
      if Dimensioned(m) {
        LoadedAll(embed, s, m);
      }
    }
  }

  // Whatever ran in between, a load under the store's generation leaves the index equal to
  // the store's vectors, exactly when there are none or the process holds the embedder on
  // record and an index of its vectors' length.
  lemma LoadCompletesTheIndex(embed: Embedding, c: Config, pid: nat)
    requires Sized(embed) && Unmixed(embed, c) && pid in c.procs
    requires c.procs[pid].mem.seenGeneration == c.store.generation && c.store.spec.Some?
    ensures var s, m := c.store, c.procs[pid].mem;
      var name := s.spec.value.Name();
      Load(m, s).index == VectorsOf(s, name) <==>
        s.rows == map[] || (m.HeldName() == s.ModelName() && m.dim == DimOf(name) != 0)
  {
    UnmixedRemembers(embed, c, pid);
    LoadCompletes(embed, c.store, c.procs[pid].mem);
  }

  // A projection served from the cache is the one a fresh computation gave at the moment
  // this call had loaded its vectors, whatever other processes did before and since.
  lemma CacheHitIsFresh(embed: Embedding, c: Config, pid: nat)
    requires Sized(embed) && Unmixed(embed, c) && pid in c.procs
    requires c.procs[pid].pc.ProjectRead? && CacheHit(c.procs[pid].mem, c.procs[pid].pc.key)
      && Dimensioned(c.procs[pid].mem)
    ensures c.procs[pid].pc.atLoad == Some(c.procs[pid].mem.cache.value.1)
  {
    UnmixedRemembers(embed, c, pid);
  }

  // --- where the theorems stop --------------------------------------------

  // Asking for the stored model under another dimension passes for the same model, and the
  // process then holds an index that no stored vector fits and embeds under another name
  // than the store's.
  lemma SameModelAnotherLength(s: Store, url: string, model: string, stored: nat, asked: nat, length: nat)
    requires s.spec == Some(Remote(url, model, Some(stored))) && stored != asked
    ensures var p := NewProcess(true, Ask(Remote(url, model, Some(asked))), false);
      var q := ProcessAfter((name, text) => [], s, p, Continue(true, length, []));
      && q.pc == ReadGeneration(Stop) && q.mem.held == s.spec && !Dimensioned(q.mem)
      && Stranger(s, q)
  {
  }

  // The key a projection is asked under.
  function KeyNow(s: Store, m: Memory, opts: ProjectionOptions): ProjectionKey
    requires m.held.Some?
  {
    ProjectionKey(s.generation, MaxId(s.turns.Keys), m.seenSerial, m.held.value.Name(), m.dim, opts)
  }

  // A process has just projected and cached what it answered. Then a turn that waited gets
  // its vector from another process, which changes the projection. After its next load the
  // process is served the old one from its cache exactly when its index has another length
  // than the vectors.
  lemma StaleHitExactlyWhen(embed: Embedding, s: Store, m: Memory, id: Id, opts: ProjectionOptions)
    requires Sized(embed) && Sound(embed, s) && Uniform(s) && m.seenSerial < s.nextSerial
    requires m.held.Some? && m.HeldName() == s.ModelName()
    requires id in s.turns && id !in s.rows && (opts.session.None? || opts.session.value == s.turns[id].session)
    ensures var name := m.held.value.Name();
      var answered := Compute(s, name, m.dim, opts);
      var t := WriteEmbeddings(s, [(id, embed(name, s.turns[id].text))], name, s.generation).0;
      var n := Load(Load(m, s).(cache := Some((KeyNow(s, Load(m, s), opts), answered))), t);
      && n.cache.Some? && n.cache.value.1 == answered != Compute(t, name, m.dim, opts)
      && (CacheHit(n, KeyNow(t, n, opts)) <==> m.dim != DimOf(name) || m.dim == 0)
  {
    hide Load, Sound, Compute, WriteEmbeddings;
    var name := m.held.value.Name();
    var vec := embed(name, s.turns[id].text);
    var t := PutOne(s, id, name, vec);
    WrittenIsPut(s, id, name, vec);
    PutOneKeeps(embed, s, id, name, vec);
    PutChanges(s, id, name, vec, m.dim, opts);
    LoadLeavesCache(m, s);
    LoadLeavesCache(Load(m, s).(cache := Some((KeyNow(s, Load(m, s), opts), Compute(s, name, m.dim, opts)))), t);
    NoLengthNoLoad(m, s);
    if m.dim != 0 {
      var n := Load(m, s).(cache := Some((KeyNow(s, Load(m, s), opts), Compute(s, name, m.dim, opts))));
      LoadCursor(embed, s, m, EmbeddingsAfter(s, m.seenSerial, name, m.dim));
      LoadCursor(embed, t, n, EmbeddingsAfter(t, n.seenSerial, name, m.dim));
      BackfillLoaded(embed, s, n, id, t);
    } else {
      NoLengthNoLoad(Load(m, s).(cache := Some((KeyNow(s, Load(m, s), opts), Compute(s, name, m.dim, opts)))), t);
    }
  }

  lemma PutChanges(s: Store, id: Id, name: Name, vec: Vector, dim: nat, opts: ProjectionOptions)
    requires id in s.turns && id !in s.rows && (opts.session.None? || opts.session.value == s.turns[id].session)
    ensures Compute(PutOne(s, id, name, vec), name, dim, opts) != Compute(s, name, dim, opts)
  {
    assert id in Compute(PutOne(s, id, name, vec), name, dim, opts).population;
    assert id !in Compute(s, name, dim, opts).population;
  }

  lemma NoLengthNoLoad(m: Memory, s: Store)
    ensures m.dim == 0 ==> Load(m, s) == m
  {
  }

  lemma LoadLeavesCache(m: Memory, s: Store)
    ensures Load(m, s) == m.(index := Load(m, s).index, seenSerial := Load(m, s).seenSerial)
  {
  }

  lemma WrittenIsPut(s: Store, id: Id, name: Name, vec: Vector)
    requires id in s.turns && s.ModelName() == Some(name)
    ensures WriteEmbeddings(s, [(id, vec)], name, s.generation).0 == PutOne(s, id, name, vec)
  {
    assert PutRows(PutOne(s, id, name, vec), [(id, vec)][1..], name) == PutOne(s, id, name, vec);
  }

  // What a second load finds of a vector that has just come.
  lemma BackfillLoaded(embed: Embedding, s: Store, n: Memory, id: Id, t: Store)
    requires Sized(embed) && Sound(embed, s) && Uniform(s) && n.seenSerial < s.nextSerial && n.held.Some?
    requires s.ModelName() == n.HeldName() && id in s.turns
    requires t == PutOne(s, id, n.held.value.Name(), embed(n.held.value.Name(), s.turns[id].text))
    requires forall k :: k in EmbeddingsAfter(s, n.seenSerial, n.held.value.Name(), n.dim) ==> false
    ensures var loaded := EmbeddingsAfter(t, n.seenSerial, n.held.value.Name(), n.dim);
      if n.dim == DimOf(n.held.value.Name()) then id in loaded && loaded[id].serial == s.nextSerial else loaded == map[]
  {
    RowLengths(embed, s, n.held.value.Name());
  }
}
