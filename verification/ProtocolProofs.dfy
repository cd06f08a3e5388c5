/** What holds in every run of the processes over the shared store. */
module ProtocolProofs {
  import opened Optional
  import opened Embedders
  import opened Stores
  import opened StoreProofs
  import opened Protocol

  // === what a process is about to hand to the store =======================

  // A batch under way fits the turns as long as the generation read before it stands.
  ghost predicate Pending(embed: Embedding, s: Store, p: Process) {
    match p.pc
    case EmbedBacklog(_, _, generation, _) => generation <= s.generation
    case EmbedModel(model, generation, backlog, _) =>
      && generation <= s.generation
      && (generation == s.generation ==>
            forall i :: 0 <= i < |backlog| ==>
              backlog[i].0 in s.turns && s.turns[backlog[i].0].text == backlog[i].1)
    case EmbedWrite(model, generation, batch, _) =>
      && generation <= s.generation
      && (generation == s.generation ==>
            forall i :: 0 <= i < |batch| ==>
              batch[i].0 in s.turns && batch[i].1 == embed(model, s.turns[batch[i].0].text))
    case IngestCommit(inputs, vectors, stamp) => VectorsFit(embed, inputs, vectors, stamp)
    case _ => true
  }

  lemma PendingIsHonest(embed: Embedding, s: Store, p: Process, a: Action)
    requires Pending(embed, s, p) && Transaction(p, a).Some?
    ensures Honest(embed, s, Transaction(p, a).value)
  {
  }

  // The store moving under a slow model call leaves the batch fitting, or the generation moved.
  lemma PendingStable(embed: Embedding, s: Store, t: Store, p: Process)
    requires Pending(embed, s, p) && Evolves(s, t)
    ensures Pending(embed, t, p)
  {
  }

  lemma PendingStep(embed: Embedding, s: Store, p: Process, a: Action)
    requires Pending(embed, s, p) && Enabled(p, a) && Answers(s, p, a)
    requires Evolves(s, StoreAfter(s, p, a))
    ensures Pending(embed, StoreAfter(s, p, a), ProcessAfter(embed, s, p, a))
  {
    if a.Continue? && p.pc.EmbedBacklog? {
      assert IsBacklog(s, p.pc.model, p.pc.limit, a.backlog);
    }
  }

  ghost predicate Fits(embed: Embedding, c: Config) {
    Sound(embed, c.store) && forall pid :: pid in c.procs ==> Pending(embed, c.store, c.procs[pid])
  }

  lemma StoreStep(embed: Embedding, s: Store, p: Process, a: Action)
    requires Sound(embed, s) && Pending(embed, s, p)
    ensures Sound(embed, StoreAfter(s, p, a)) && Evolves(s, StoreAfter(s, p, a))
  {
    if Transaction(p, a).Some? {
      PendingIsHonest(embed, s, p, a);
      CommitKeepsSound(embed, s, Transaction(p, a).value);
    }
  }

  lemma FitsStep(embed: Embedding, c: Config, e: Event)
    requires Fits(embed, c) && CanHappen(c, e)
    ensures Fits(embed, Next(embed, c, e))
  {
    var p := c.procs[e.pid];
    StoreStep(embed, c.store, p, e.action);
    PendingStep(embed, c.store, p, e.action);
    forall pid | pid in c.procs && pid != e.pid
      ensures Pending(embed, StoreAfter(c.store, p, e.action), c.procs[pid])
    {
      PendingStable(embed, c.store, StoreAfter(c.store, p, e.action), c.procs[pid]);
    }
  }

  lemma {:induction false} FitsAlways(embed: Embedding, c: Config, events: seq<Event>)
    requires Fits(embed, c) && IsRun(embed, c, events)
    ensures Fits(embed, Final(embed, c, events))
    decreases |events|
  {
    if events != [] {
      FitsStep(embed, c, events[0]);
      FitsAlways(embed, Next(embed, c, events[0]), events[1..]);
    }
  }

  // In every interleaving of any number of processes, seed races included, every stored
  // vector is the embedding, by the model stamped on it, of the text of the turn that now
  // holds its id.
  lemma EveryVectorIsItsTurns(embed: Embedding, c: Config, events: seq<Event>)
    requires Initial(c) && IsRun(embed, c, events)
    ensures var s := Final(embed, c, events).store;
      forall id :: id in s.rows ==> id in s.turns && s.rows[id].vec == embed(s.rows[id].model, s.turns[id].text)
  {
    FitsAlways(embed, c, events);
  }

  // === what a process remembers ===========================================

  // While the process has seen the store's generation: each vector it holds is the stored
  // one, and it holds every vector up to its cursor.
  ghost predicate Coherent(s: Store, m: Memory) {
    m.seenGeneration == s.generation ==>
      && (forall id :: id in m.index ==> id in s.rows && m.index[id] == s.rows[id].vec)
      && (forall id :: id in s.rows && s.rows[id].serial <= m.seenSerial ==> id in m.index)
  }

  // A dense view has an embedder: the store's own, while the process has seen the store's
  // generation and holds any vector.
  ghost predicate Named(s: Store, m: Memory) {
    m.dense ==>
      && m.held.Some?
      && (m.seenGeneration == s.generation && m.index != map[] ==> s.ModelName() == m.HeldName())
  }

  // The cursor has passed every vector of the model.
  ghost predicate AllSeen(s: Store, model: Name, cursor: nat) {
    forall id :: id in s.rows && s.rows[id].model == model ==> s.rows[id].serial <= cursor
  }

  // A cached projection is what a fresh computation gives, unless one of its model's vectors
  // arrived since.
  ghost predicate CacheTrue(s: Store, m: Memory) {
    m.cache.Some? ==>
      var (key, cached) := m.cache.value;
      && m.seenGeneration <= key.generation <= s.generation
      && key.embedded < s.nextSerial
      && (m.seenGeneration == s.generation && AllSeen(s, key.model, key.embedded) ==>
            cached == Compute(s, key.model, key.dim, key.opts))
  }

  ghost predicate Tidy(s: Store, m: Memory) {
    && m.seenGeneration <= s.generation
    && m.seenSerial < s.nextSerial
    && (forall id :: id in m.index ==> |m.index[id]| == m.dim != 0)
    && (!m.dense ==> m.held.None? && m.embedder.None?)
    && (m.held.None? ==> m.index == map[])
  }

  ghost predicate Data(s: Store, m: Memory) {
    Tidy(s, m) && Coherent(s, m) && CacheTrue(s, m)
  }

  // Between a refresh's first step and its end, a cache kept for a projection is of the
  // generation this refresh saw.
  predicate CacheCurrent(m: Memory, after: After) {
    after.Project? && m.cache.Some? ==> m.cache.value.0.generation == m.seenGeneration
  }

  predicate CallerCurrent(m: Memory, caller: Caller) {
    caller.Refreshing? ==> CacheCurrent(m, caller.after)
  }

  // The index has the length of the vectors of the embedder the process holds.
  predicate Dimensioned(m: Memory) {
    m.held.Some? && m.dim == DimOf(m.held.value.Name()) && m.dim != 0
  }

  // A cached projection under the key this call is going to ask with is the one computed
  // at the load; without one, the generation has moved since.
  ghost predicate Snapshot(m: Memory, opts: ProjectionOptions, atLoad: Option<Projection>, generation: int) {
    m.held.Some? && CacheCurrent(m, Project(opts)) &&
    (Dimensioned(m) ==>
       match atLoad
       case None => m.seenGeneration < generation
       case Some(projection) =>
         m.cache.Some? ==>
           var (key, cached) := m.cache.value;
           (key.embedded == m.seenSerial && key.model == m.held.value.Name() && key.dim == m.dim && key.opts == opts ==>
              cached == projection))
  }

  ghost predicate AtPc(s: Store, m: Memory, pc: Pc) {
    match pc
    case Unopened(_, _) => m.seenGeneration == -1
    case Seeding(_) => m.seenGeneration == -1 && m.dense
    case OpenSwitching(_) => m.seenGeneration == -1 && m.dense
    case Closed => m.seenGeneration == -1
    case _ => (m.dense ==> s.spec.Some?) && Named(s, m) && InCall(s, m, pc)
  }

  ghost predicate InCall(s: Store, m: Memory, pc: Pc) {
    match pc
    case Following(after) => CacheCurrent(m, after)
    case ReadMaxId(after) => CacheCurrent(m, after)
    case EmbedGeneration(_, caller) => CallerCurrent(m, caller)
    case EmbedBacklog(_, _, _, caller) => CallerCurrent(m, caller)
    case EmbedModel(_, _, _, caller) => CallerCurrent(m, caller)
    case EmbedWrite(_, _, _, caller) => CallerCurrent(m, caller)
    case EmbedFollow(caller) => CallerCurrent(m, caller)
    case Loading(after) => CacheCurrent(m, after)
    case Reembedding(_) => s.spec.Some?
    case ProjectGeneration(opts, atLoad) => Snapshot(m, opts, atLoad, s.generation)
    case ProjectMaxId(opts, atLoad, generation) =>
      m.seenGeneration <= generation <= s.generation && Snapshot(m, opts, atLoad, generation)
    case ProjectRead(key, atLoad) =>
      && m.seenGeneration <= key.generation <= s.generation
      && Snapshot(m, key.opts, atLoad, key.generation)
      && key.embedded == m.seenSerial && key.model == m.held.value.Name() && key.dim == m.dim
    case _ => true
  }

  // --- other processes' steps keep it -------------------------------------

  // A replaced row carries the same vector: same model, same text.
  lemma RowsKeepVectors(embed: Embedding, s: Store, t: Store)
    requires Sound(embed, s) && Sound(embed, t) && Uniform(s) && Uniform(t)
    requires Evolves(s, t) && KeepsName(s, t) && s.generation == t.generation
    ensures forall id :: id in s.rows ==> id in t.rows && t.rows[id].vec == s.rows[id].vec
  {
    forall id | id in s.rows ensures id in t.rows && t.rows[id].vec == s.rows[id].vec {
      assert s.ModelName() == Some(s.rows[id].model) && t.ModelName() == Some(t.rows[id].model);
    }
  }

  lemma CoherentStable(embed: Embedding, s: Store, t: Store, m: Memory)
    requires Sound(embed, s) && Sound(embed, t) && Uniform(s) && Uniform(t)
    requires Evolves(s, t) && KeepsName(s, t) && Tidy(s, m) && Coherent(s, m)
    ensures Coherent(t, m)
  {
    if m.seenGeneration == t.generation {
      RowsKeepVectors(embed, s, t);
    }
  }

  // The vectors of one model carry over, or there are none of it on either side.
  lemma ComputeStable(embed: Embedding, s: Store, t: Store, key: ProjectionKey)
    requires Sound(embed, s) && Uniform(s) && Uniform(t) && Evolves(s, t) && KeepsName(s, t)
    requires s.generation == t.generation && key.embedded < s.nextSerial && AllSeen(t, key.model, key.embedded)
    ensures AllSeen(s, key.model, key.embedded)
    ensures Compute(s, key.model, key.dim, key.opts) == Compute(t, key.model, key.dim, key.opts)
  {
    if id :| id in s.rows && s.rows[id].model == key.model {
      assert t.ModelName() == s.ModelName() == Some(key.model);
      assert forall k :: k in t.rows ==> t.ModelName() == Some(t.rows[k].model);
      NothingNewMeansNothingChanged(s, t, key.embedded);
    }
  }

  lemma CacheStable(embed: Embedding, s: Store, t: Store, m: Memory)
    requires Sound(embed, s) && Uniform(s) && Uniform(t)
    requires Evolves(s, t) && KeepsName(s, t) && CacheTrue(s, m)
    ensures CacheTrue(t, m)
  {
    if m.cache.Some? && m.seenGeneration == t.generation {
      var (key, cached) := m.cache.value;
      if AllSeen(t, key.model, key.embedded) {
        ComputeStable(embed, s, t, key);
      }
    }
  }

  lemma DataStable(embed: Embedding, s: Store, t: Store, m: Memory)
    requires Sound(embed, s) && Sound(embed, t) && Uniform(s) && Uniform(t)
    requires Evolves(s, t) && KeepsName(s, t) && Data(s, m)
    ensures Data(t, m)
  {
    CoherentStable(embed, s, t, m);
    CacheStable(embed, s, t, m);
  }

  lemma NamedStable(s: Store, t: Store, m: Memory)
    requires Evolves(s, t) && KeepsName(s, t) && Tidy(s, m) && Coherent(s, m) && Named(s, m)
    ensures Named(t, m)
  {
    if m.index != map[] {
      var id :| id in m.index;
      assert m.seenGeneration == s.generation ==> id in s.rows;
    }
  }

  lemma AtPcStable(s: Store, t: Store, m: Memory, pc: Pc)
    requires Evolves(s, t) && KeepsName(s, t) && (s.spec.Some? ==> t.spec.Some?)
    requires Tidy(s, m) && Coherent(s, m) && AtPc(s, m, pc)
    ensures AtPc(t, m, pc)
  {
    if Named(s, m) {
      NamedStable(s, t, m);
    }
  }

  // --- its own moves keep it ----------------------------------------------

  ghost predicate Counted(s: Store) {
    1 <= s.nextSerial && forall id :: id in s.rows ==> 1 <= s.rows[id].serial
  }

  lemma InstallKeeps(s: Store, m: Memory, spec: Spec, embedder: Option<Name>)
    requires Data(s, m) && Counted(s)
    ensures Data(s, Install(m, spec, embedder).(dense := true))
  {
  }

  lemma NoEmbedderNoRows(s: Store)
    requires Uniform(s) && s.spec.None?
    ensures s.rows == map[]
  {
    assert forall id :: id in s.rows ==> s.ModelName() == Some(s.rows[id].model);
    assert forall id :: id !in s.rows;
  }

  lemma FollowKeeps(embed: Embedding, s: Store, m: Memory, built: bool)
    requires Sound(embed, s) && Uniform(s) && Data(s, m)
    ensures var q := FollowIfChanged(m, s, built);
      && Data(s, q) && q.dense == m.dense && q.seenGeneration == m.seenGeneration
      && (m.dense && s.spec.Some? ==> Named(s, q))
      && (q.cache.None? || q.cache == m.cache)
  {
    if m.dense && s.ModelName() != m.HeldName() {
      if s.spec.None? {
        NoEmbedderNoRows(s);
      } else {
        InstallKeeps(s, m, s.spec.value, if built then Some(s.spec.value.Name()) else None);
      }
    }
  }

  // The cursor after a load: behind the counter, and not behind anything loaded.
  lemma LoadCursor(embed: Embedding, s: Store, m: Memory, loaded: map<Id, Row>)
    requires Sound(embed, s) && m.seenSerial < s.nextSerial && m.held.Some? && m.dim != 0
    requires loaded == EmbeddingsAfter(s, m.seenSerial, m.held.value.Name(), m.dim)
    ensures m.seenSerial <= Load(m, s).seenSerial < s.nextSerial
    ensures forall id :: id in loaded ==> loaded[id].serial <= Load(m, s).seenSerial
    ensures loaded == map[] ==> Load(m, s).seenSerial == m.seenSerial
  {
    var serials := set id | id in loaded :: loaded[id].serial;
    forall id | id in loaded ensures loaded[id].serial <= MaxId(serials) {
      assert loaded[id].serial in serials;
    }
    if serials != {} {
      var id :| id in loaded && loaded[id].serial == MaxId(serials);
    }
  }

  // Under the seen generation every stored vector has the length of the model's name.
  lemma RowLengths(embed: Embedding, s: Store, model: Name)
    requires Sized(embed) && Sound(embed, s) && Uniform(s) && s.ModelName() == Some(model)
    ensures forall id :: id in s.rows ==> s.rows[id].model == model && |s.rows[id].vec| == DimOf(model)
  {
    forall id | id in s.rows ensures s.rows[id].model == model && |s.rows[id].vec| == DimOf(model) {
      assert s.ModelName() == Some(s.rows[id].model);
      assert |embed(s.rows[id].model, s.turns[id].text)| == DimOf(s.rows[id].model);
    }
  }

  // Under the seen generation a load takes in every vector past the cursor, or none has
  // the length the index holds.
  lemma LoadTakesAll(embed: Embedding, s: Store, m: Memory, loaded: map<Id, Row>)
    requires Sized(embed) && Sound(embed, s) && Uniform(s) && m.held.Some? && s.ModelName() == m.HeldName()
    requires loaded == EmbeddingsAfter(s, m.seenSerial, m.held.value.Name(), m.dim)
    ensures if m.dim == DimOf(m.held.value.Name())
      then forall id :: id in s.rows ==> (id in loaded <==> s.rows[id].serial > m.seenSerial)
      else loaded == map[]
  {
    RowLengths(embed, s, m.held.value.Name());
  }

  lemma LoadCoherent(embed: Embedding, s: Store, m: Memory)
    requires Sized(embed) && Sound(embed, s) && Uniform(s) && m.seenSerial < s.nextSerial && Coherent(s, m)
    requires m.held.Some? && m.dim != 0 && s.ModelName() == m.HeldName() && m.seenGeneration == s.generation
    ensures Coherent(s, Load(m, s))
    ensures Dimensioned(m) ==> forall id :: id in s.rows ==> s.rows[id].serial <= Load(m, s).seenSerial
  {
    hide Load, Sound, Uniform;
    var loaded := EmbeddingsAfter(s, m.seenSerial, m.held.value.Name(), m.dim);
    LoadCursor(embed, s, m, loaded);
    LoadTakesAll(embed, s, m, loaded);
    LoadAdds(s, m, loaded);
    if m.dim == DimOf(m.held.value.Name()) {
      forall id | id in s.rows ensures id in Load(m, s).index {
        assert id in loaded || s.rows[id].serial <= m.seenSerial;
      }
    }
  }

  lemma LoadAdds(s: Store, m: Memory, loaded: map<Id, Row>)
    requires m.held.Some? && m.dim != 0
    requires loaded == EmbeddingsAfter(s, m.seenSerial, m.held.value.Name(), m.dim)
    ensures var n := Load(m, s);
      && n.seenGeneration == m.seenGeneration
      && (forall id :: id in n.index <==> id in m.index || id in loaded)
      && (forall id :: id in n.index ==> n.index[id] == if id in loaded then s.rows[id].vec else m.index[id])
      && (forall id :: id in loaded ==> id in s.rows)
  {
  }

  // A load finds nothing of another embedder than the store's.
  lemma LoadFindsNone(s: Store, m: Memory)
    requires Uniform(s) && s.ModelName() != m.HeldName()
    ensures Load(m, s) == m
  {
    if m.held.Some? && m.dim != 0 {
      assert forall id :: id in s.rows ==> s.ModelName() == Some(s.rows[id].model);
      assert EmbeddingsAfter(s, m.seenSerial, m.held.value.Name(), m.dim) == map[];
    }
  }

  // Loading keeps the index true, and under the seen generation leaves out no vector of the
  // embedder held, if the index has their length.
  lemma LoadKeeps(embed: Embedding, s: Store, m: Memory)
    requires Sized(embed) && Sound(embed, s) && Uniform(s) && Data(s, m) && Named(s, m)
    ensures Data(s, Load(m, s)) && Named(s, Load(m, s))
    ensures Load(m, s) == m.(index := Load(m, s).index, seenSerial := Load(m, s).seenSerial)
    ensures m.seenGeneration == s.generation && Dimensioned(m) ==>
      AllSeen(s, m.held.value.Name(), Load(m, s).seenSerial)
  {
    if m.seenGeneration == s.generation && s.ModelName() != m.HeldName() {
      LoadFindsNone(s, m);
      assert forall id :: id in s.rows ==> s.ModelName() == Some(s.rows[id].model);
    } else if m.held.Some? && m.dim != 0 {
      var loaded := EmbeddingsAfter(s, m.seenSerial, m.held.value.Name(), m.dim);
      LoadCursor(embed, s, m, loaded);
      forall id | id in Load(m, s).index ensures |Load(m, s).index[id]| == m.dim {
        assert id in loaded || id in m.index;
      }
      if m.seenGeneration == s.generation {
        LoadCoherent(embed, s, m);
      }
    }
  }

  lemma SeeGenerationKeeps(s: Store, m: Memory)
    requires Data(s, m) && Counted(s)
    ensures Data(s, SeeGeneration(m, s.generation))
    ensures var q := SeeGeneration(m, s.generation);
      q.cache.Some? ==> q.cache.value.0.generation == q.seenGeneration
  {
  }

  // --- one step -----------------------------------------------------------

  // What the store is after a step whose seed, if it is one, does not mix.
  ghost predicate StoreMoves(embed: Embedding, s: Store, t: Store) {
    && Sound(embed, s) && Uniform(s) && Sound(embed, t) && Uniform(t)
    && Evolves(s, t) && KeepsName(s, t) && (s.spec.Some? ==> t.spec.Some?)
  }

  ghost predicate Remembers(s: Store, p: Process) {
    Data(s, p.mem) && AtPc(s, p.mem, p.pc)
  }

  lemma StoreStepUniform(embed: Embedding, s: Store, p: Process, a: Action)
    requires Sound(embed, s) && Uniform(s) && Pending(embed, s, p)
    requires Transaction(p, a).Some? ==> !MixingSeed(s, Transaction(p, a).value)
    ensures StoreMoves(embed, s, StoreAfter(s, p, a))
  {
    StoreStep(embed, s, p, a);
    if Transaction(p, a).Some? {
      PendingIsHonest(embed, s, p, a);
      CommitKeepsUniform(embed, s, Transaction(p, a).value);
      KeepsSpec(s, Transaction(p, a).value);
    }
  }

  lemma {:induction false} InsertAllKeepsSpec(s: Store, inputs: seq<TurnInput>, vectors: seq<Option<Vector>>,
                                              model: Option<Name>)
    ensures InsertAll(s, inputs, vectors, model).0.spec == s.spec
    decreases |inputs|
  {
    if inputs != [] {
      var s1 := InsertOne(s, inputs[0], if vectors == [] then None else vectors[0], model).0;
      InsertAllKeepsSpec(s1, inputs[1..], if vectors == [] then [] else vectors[1..], model);
    }
  }

  lemma {:induction false} PutRowsKeepsSpec(s: Store, batch: seq<(Id, Vector)>, model: Name)
    ensures PutRows(s, batch, model).spec == s.spec
    decreases |batch|
  {
    if batch != [] {
      PutRowsKeepsSpec(PutOne(s, batch[0].0, model, batch[0].1), batch[1..], model);
    }
  }

  lemma KeepsSpec(s: Store, tx: Tx)
    ensures s.spec.Some? ==> Commit(s, tx).spec.Some?
  {
    match tx
    case Insert(inputs, vectors, stamp) =>
      InsertAllKeepsSpec(s, inputs, vectors, if stamp.Some? && s.ModelName() != stamp then None else stamp);
    case Write(batch, model, _) => PutRowsKeepsSpec(s, batch, model);
    case Apply(notes, _) => InsertAllKeepsSpec(s, notes, [], None);
    case _ =>
  }

  // The store moved by the process's own transaction, then it computes on.
  lemma Settle(embed: Embedding, s: Store, t: Store, p: Process)
    requires Remembers(s, p) && StoreMoves(embed, s, t)
    ensures Remembers(t, p)
  {
    DataStable(embed, s, t, p.mem);
    AtPcStable(s, t, p.mem, p.pc);
  }

  lemma BeginKeeps(s: Store, t: Store, p: Process, cmd: Command, ok: bool, length: nat)
    requires p.pc.Idle? && Remembers(t, p) && (s.spec.Some? ==> t.spec.Some?)
    ensures Remembers(t, Process(p.mem, BeginWith(p.mem, s, cmd, ok, length)))
  {
  }

  lemma UnopenedKeeps(s: Store, p: Process, ok: bool, length: nat)
    requires p.pc.Unopened? && Remembers(s, p) && Counted(s)
    ensures Remembers(s, OpenAfter(s, p.mem, p.pc, ok, length))
  {
    var m, request := p.mem, p.pc.request;
    if m.dense && s.spec.Some? {
      var stored := s.spec.value;
      var name := if request.Ask? && request.spec.Dim().Some? then request.spec.Name() else stored.Name();
      InstallKeeps(s, m, stored, if ok then Some(name) else None);
    }
  }

  lemma OpenKeeps(s: Store, t: Store, p: Process, ok: bool, length: nat)
    requires (p.pc.Seeding? || p.pc.OpenSwitching?) && Remembers(t, p) && Counted(t) && t.spec.Some?
    ensures Remembers(t, OpenAfter(s, p.mem, p.pc, ok, length))
  {
    InstallKeeps(t, p.mem, p.pc.spec, Some(p.pc.spec.Name()));
  }

  lemma RefreshKeeps(embed: Embedding, s: Store, p: Process, ok: bool)
    requires InRefresh(p.pc) && Sized(embed) && Remembers(s, p) && Sound(embed, s) && Uniform(s)
    ensures Remembers(s, RefreshAfter(s, p.mem, p.pc, ok))
  {
    match p.pc
    case ReadGeneration(_) => SeeGenerationKeeps(s, p.mem);
    case Following(_) => FollowKeeps(embed, s, p.mem, ok);
    case ReadMaxId(_) =>
    case Loading(_) => LoadKeeps(embed, s, p.mem);
  }

  lemma EmbedKeeps(embed: Embedding, s: Store, t: Store, p: Process, ok: bool, backlog: seq<(Id, string)>)
    requires InEmbed(p.pc) && !p.pc.EmbedFollow? && !p.pc.DrainFollow? && Remembers(t, p)
    ensures Remembers(t, EmbedAfter(embed, s, p.mem, p.pc, ok, backlog))
  {
    assert EmbedAfter(embed, s, p.mem, p.pc, ok, backlog).mem == p.mem;
  }

  lemma FollowingKeeps(embed: Embedding, s: Store, p: Process, ok: bool)
    requires (p.pc.EmbedFollow? || p.pc.DrainFollow?) && Remembers(s, p) && Sound(embed, s) && Uniform(s)
    ensures Remembers(s, EmbedAfter(embed, s, p.mem, p.pc, ok, []))
  {
    FollowKeeps(embed, s, p.mem, ok);
  }

  lemma IngestKeeps(embed: Embedding, s: Store, t: Store, p: Process, ok: bool)
    requires (p.pc.IngestModel? || p.pc.IngestCommit?
      || (p.pc.IngestFollow? && s == t && Sound(embed, s) && Uniform(s)))
    requires Remembers(t, p)
    ensures Remembers(t, WriterAfter(embed, s, p.mem, p.pc, ok))
  {
    if p.pc.IngestFollow? {
      FollowKeeps(embed, s, p.mem, ok);
    }
  }

  // Taking on an embedder: the one just recorded, or the store's own after a new generation.
  lemma TakeOnKeeps(embed: Embedding, s: Store, t: Store, p: Process, ok: bool)
    requires p.pc.SettingEmbedder? || p.pc.Reembedding?
    requires t == StoreAfter(s, p, Continue(ok, 0, [])) && Tidy(s, p.mem) && Remembers(t, p) && Counted(t)
    ensures Remembers(t, WriterAfter(embed, s, p.mem, p.pc, ok))
  {
    InstallKeeps(t, p.mem, p.pc.spec, Some(p.pc.spec.Name()));
  }

  lemma ProjectKeeps(s: Store, p: Process)
    requires InProject(p.pc) && Remembers(s, p)
    ensures Remembers(s, ProjectAfter(s, p.mem, p.pc))
  {
  }

  // A step of this process, with the store moving as its transaction moves it.
  ghost predicate OwnStep(embed: Embedding, s: Store, p: Process, a: Action) {
    Sized(embed) && Remembers(s, p) && Enabled(p, a) && StoreMoves(embed, s, StoreAfter(s, p, a))
  }

  ghost predicate StillRemembers(embed: Embedding, s: Store, p: Process, a: Action) {
    Remembers(StoreAfter(s, p, a), ProcessAfter(embed, s, p, a))
  }

  lemma BeginStep(embed: Embedding, s: Store, p: Process, a: Action)
    requires OwnStep(embed, s, p, a) && a.Begin?
    ensures StillRemembers(embed, s, p, a)
  {
    var t := StoreAfter(s, p, a);
    Settle(embed, s, t, p);
    hide Data, AtPc, Sound, Uniform, Evolves, KeepsName, StoreAfter;
    BeginKeeps(s, t, p, a.cmd, a.ok, a.length);
  }

  lemma OpenStep(embed: Embedding, s: Store, p: Process, a: Action)
    requires OwnStep(embed, s, p, a) && a.Continue? && InOpen(p.pc)
    ensures StillRemembers(embed, s, p, a)
  {
    var t := StoreAfter(s, p, a);
    Settle(embed, s, t, p);
    assert Counted(t);
    hide Data, AtPc, Sound, Uniform, Evolves, KeepsName, OpenAfter;
    if p.pc.Unopened? {
      UnopenedKeeps(s, p, a.ok, a.length);
    } else {
      OpenKeeps(s, t, p, a.ok, a.length);
    }
  }

  lemma RefreshStep(embed: Embedding, s: Store, p: Process, a: Action)
    requires OwnStep(embed, s, p, a) && a.Continue? && InRefresh(p.pc)
    ensures StillRemembers(embed, s, p, a)
  {
    hide Data, AtPc, Sound, Uniform, Evolves, KeepsName, RefreshAfter;
    RefreshKeeps(embed, s, p, a.ok);
  }

  lemma EmbedStep(embed: Embedding, s: Store, p: Process, a: Action)
    requires OwnStep(embed, s, p, a) && a.Continue? && InEmbed(p.pc)
    ensures StillRemembers(embed, s, p, a)
  {
    var t := StoreAfter(s, p, a);
    Settle(embed, s, t, p);
    if p.pc.EmbedFollow? || p.pc.DrainFollow? {
      FollowingKeeps(embed, s, p, a.ok);
    } else {
      hide Data, AtPc, Sound, Uniform, Evolves, KeepsName, StoreAfter, EmbedAfter;
      EmbedKeeps(embed, s, t, p, a.ok, a.backlog);
    }
  }

  lemma OwnStepCounts(embed: Embedding, s: Store, p: Process, a: Action)
    requires OwnStep(embed, s, p, a)
    ensures Counted(StoreAfter(s, p, a)) && Tidy(s, p.mem)
  {
    hide StoreAfter, AtPc, Evolves;
  }

  lemma WriterStep(embed: Embedding, s: Store, p: Process, a: Action)
    requires OwnStep(embed, s, p, a) && a.Continue? && InWriter(p.pc)
    ensures StillRemembers(embed, s, p, a)
  {
    hide Data, AtPc, Sound, Uniform, Evolves, KeepsName, Tidy, Counted, WriterAfter;
    var t := StoreAfter(s, p, a);
    Settle(embed, s, t, p);
    OwnStepCounts(embed, s, p, a);
    if p.pc.SettingEmbedder? || p.pc.Reembedding? {
      TakeOnKeeps(embed, s, t, p, a.ok);
    } else {
      IngestKeeps(embed, s, t, p, a.ok);
    }
  }

  lemma ProjectStep(embed: Embedding, s: Store, p: Process, a: Action)
    requires OwnStep(embed, s, p, a) && a.Continue? && InProject(p.pc)
    ensures StillRemembers(embed, s, p, a)
  {
    hide Data, AtPc, Sound, Uniform, Evolves, KeepsName, ProjectAfter;
    ProjectKeeps(s, p);
  }

  // A process's own step keeps what it remembers true of the store the step leaves.
  lemma OwnStepKeeps(embed: Embedding, s: Store, p: Process, a: Action)
    requires OwnStep(embed, s, p, a)
    ensures StillRemembers(embed, s, p, a)
  {
    assert a.Begin? || InOpen(p.pc) || InRefresh(p.pc) || InEmbed(p.pc) || InWriter(p.pc) || InProject(p.pc);
    hide OwnStep, StillRemembers;
    if a.Begin? {
      BeginStep(embed, s, p, a);
    } else if InOpen(p.pc) {
      OpenStep(embed, s, p, a);
    } else if InRefresh(p.pc) {
      RefreshStep(embed, s, p, a);
    } else if InEmbed(p.pc) {
      EmbedStep(embed, s, p, a);
    } else if InWriter(p.pc) {
      WriterStep(embed, s, p, a);
    } else {
      ProjectStep(embed, s, p, a);
    }
  }
}
