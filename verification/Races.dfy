/** Two processes open a fresh file at once, one with the hash embedder and one with the
    model. Both find no embedder on record and the first seeds the store; when the second
    seeds it too decides what is lost. */
module Races {
  import opened Optional
  import opened Embedders
  import opened Stores
  import opened StoreProofs
  import opened Protocol
  import opened ProtocolProofs
  import opened CurrentVectors

  const HELLO: TurnInput := TurnInput("u", "s", "user", "hello")

  // --- runs, one step longer ----------------------------------------------

  lemma {:induction false} RunExtends(embed: Embedding, c: Config, events: seq<Event>, e: Event)
    requires IsRun(embed, c, events) && CanHappen(Final(embed, c, events), e)
    ensures IsRun(embed, c, events + [e])
    ensures var f := Final(embed, c, events);
      && Final(embed, c, events + [e]) == Next(embed, f, e)
      && (NoMixingSeed(embed, c, events + [e])
        <==> NoMixingSeed(embed, c, events) && !Mixes(f.store, f.procs[e.pid], e.action))
    decreases |events|
  {
    if events == [] {
      assert events + [e] == [e] && [e][1..] == [];
      assert IsRun(embed, Next(embed, c, e), []);
    } else {
      RunExtends(embed, Next(embed, c, events[0]), events[1..], e);
      assert (events + [e])[1..] == events[1..] + [e];
    }
  }

  lemma Then(embed: Embedding, c: Config, pid: nat, a: Action) returns (next: Config)
    requires Unmixed(embed, c) && CanHappen(c, Event(pid, a)) && !Mixes(c.store, c.procs[pid], a)
    ensures Unmixed(embed, next) && next == Next(embed, c, Event(pid, a))
  {
    var c0, events :| Initial(c0) && IsRun(embed, c0, events) && NoMixingSeed(embed, c0, events)
      && Final(embed, c0, events) == c;
    RunExtends(embed, c0, events, Event(pid, a));
    next := Next(embed, c, Event(pid, a));
  }

  lemma StartsUnmixed(embed: Embedding, c: Config)
    requires Initial(c)
    ensures Unmixed(embed, c)
  {
    assert IsRun(embed, c, []) && NoMixingSeed(embed, c, []) && Final(embed, c, []) == c;
  }

  // --- what one process does ----------------------------------------------

  // A process that has just recorded the embedder it holds.
  function Opened(spec: Spec): Memory {
    Install(NewProcess(true, Auto, false).mem, spec, Some(spec.Name()))
  }

  ghost predicate IsAt(c: Config, pid: nat, m: Memory, pc: Pc) {
    pid in c.procs && c.procs[pid] == Process(m, pc)
  }

  // Its first refresh over a file without turns sees the generation and the embedder,
  lemma Sees(embed: Embedding, c: Config, pid: nat, spec: Spec) returns (next: Config)
    requires Unmixed(embed, c) && c.store == FRESH.(spec := Some(spec))
      && IsAt(c, pid, Opened(spec), ReadGeneration(Stop))
    ensures Unmixed(embed, next) && next.store == c.store
    ensures next.procs == c.procs[pid := Process(Opened(spec).(seenGeneration := 0), ReadMaxId(Stop))]
  {
    hide Unmixed;
    next := Then(embed, c, pid, GO);
    next := Then(embed, next, pid, GO);
  }

  // and comes to its load with nothing embedded.
  lemma Refreshes(embed: Embedding, c: Config, pid: nat, spec: Spec) returns (next: Config)
    requires Unmixed(embed, c) && c.store == FRESH.(spec := Some(spec))
      && IsAt(c, pid, Opened(spec), ReadGeneration(Stop))
    ensures Unmixed(embed, next) && next.store == c.store
    ensures next.procs == c.procs[pid := Process(Opened(spec).(seenGeneration := 0), Loading(Stop))]
  {
    hide Unmixed;
    next := Sees(embed, c, pid, spec);
    assert MaxId({}) == 0;
    next := Then(embed, next, pid, GO);
    next := Then(embed, next, pid, GO);
    assert IsBacklog(c.store, spec.Name(), EMBED_BATCH, []);
    next := Then(embed, next, pid, GO);
  }

  // It is asked to ingest a turn and calls its model.
  lemma Ingests(embed: Embedding, c: Config, pid: nat, spec: Spec) returns (next: Config)
    requires Unmixed(embed, c) && c.store == FRESH.(spec := Some(spec))
    requires IsAt(c, pid, Opened(spec).(seenGeneration := 0), Loading(Stop))
    ensures Unmixed(embed, next) && next.store == c.store
    ensures next.procs == c.procs[pid := Process(Opened(spec).(seenGeneration := 0),
      IngestCommit([HELLO], EmbedInputs(embed, spec.Name(), [HELLO]), Some(spec.Name())))]
  {
    hide Unmixed;
    LoadsNothing(Opened(spec).(seenGeneration := 0), c.store);
    next := Then(embed, c, pid, GO);
    next := Then(embed, next, pid, Begin(Ingest([HELLO]), true, 0));
    next := Then(embed, next, pid, GO);
  }

  lemma LoadsNothing(m: Memory, s: Store)
    requires s.rows == map[]
    ensures Load(m, s) == m
  {
  }

  lemma FindsNothing(m: Memory, s: Store, id: Id)
    requires m.index == map[] && id in s.rows && s.ModelName() == Some(s.rows[id].model)
    requires Uniform(s) && m.HeldName() != s.ModelName()
    ensures Load(m, s).index == map[] != VectorsOf(s, s.rows[id].model)
  {
    LoadFindsNone(s, m);
    assert id in VectorsOf(s, s.rows[id].model);
  }

  lemma InsertHello(embed: Embedding, s: Store, spec: Spec)
    requires s == FRESH.(spec := Some(spec))
    ensures !IsBlank("hello") && !IsBlank("s") && !IsBlank("user")
    ensures var t := InsertBatch(s, [HELLO], EmbedInputs(embed, spec.Name(), [HELLO]), Some(spec.Name())).0;
      t.spec == s.spec && t.generation == 0 && 1 in t.rows && t.rows[1].model == spec.Name()
  {
    assert !IsWhitespace("hello"[0]) && !IsWhitespace("s"[0]) && !IsWhitespace("user"[0]);
    var vectors := EmbedInputs(embed, spec.Name(), [HELLO]);
    assert vectors[0] == Some(embed(spec.Name(), "hello"));
    assert MaxId(s.turns.Keys) == 0;
    var t := InsertOne(s, HELLO, vectors[0], Some(spec.Name())).0;
    assert 1 in t.rows && t.rows[1].model == spec.Name();
    assert InsertAll(t, [HELLO][1..], vectors[1..], Some(spec.Name())).0 == t;
  }

  // The turn lands with its vector.
  lemma Lands(embed: Embedding, c: Config, pid: nat, spec: Spec) returns (next: Config)
    requires Unmixed(embed, c) && c.store == FRESH.(spec := Some(spec))
    requires IsAt(c, pid, Opened(spec).(seenGeneration := 0),
      IngestCommit([HELLO], EmbedInputs(embed, spec.Name(), [HELLO]), Some(spec.Name())))
    ensures Unmixed(embed, next) && next.store.spec == Some(spec) && next.store.generation == 0
    ensures 1 in next.store.rows && next.store.rows[1].model == spec.Name()
    ensures next.procs.Keys == c.procs.Keys && forall p :: p in c.procs && p != pid ==> next.procs[p] == c.procs[p]
  {
    hide Unmixed, InsertBatch, EmbedInputs;
    InsertHello(embed, c.store, spec);
    next := Then(embed, c, pid, GO);
  }

  // --- the race -----------------------------------------------------------

  // Both have found no embedder and the first has seeded the store.
  lemma FirstSeed(embed: Embedding) returns (c: Config)
    ensures Unmixed(embed, c) && c.store == FRESH.(spec := Some(Hash)) && c.procs.Keys == {0, 1}
    ensures IsAt(c, 0, Opened(Hash), ReadGeneration(Stop))
      && IsAt(c, 1, NewProcess(true, Auto, false).mem, Seeding(Onnx))
  {
    hide Unmixed, RefreshAfter, EmbedAfter, WriterAfter, ProjectAfter;
    c := Config(FRESH, map[0 := NewProcess(true, Ask(Hash), false), 1 := NewProcess(true, Ask(Onnx), false)]);
    StartsUnmixed(embed, c);
    c := Then(embed, c, 0, GO);
    c := Then(embed, c, 1, GO);
    c := Then(embed, c, 0, GO);
  }

  // The first ingests a turn, then the second seeds. The generation has not moved and the
  // store holds a vector that is not its recorded embedder's.
  lemma RacingSeedMixesModels(embed: Embedding) returns (c: Config, events: seq<Event>)
    ensures Initial(c) && IsRun(embed, c, events) && !NoMixingSeed(embed, c, events)
    ensures var s := Final(embed, c, events).store;
      s.ModelName() == Some(OnnxName) && s.generation == 0 && 1 in s.rows && s.rows[1].model == HashName
  {
    hide NoMixingSeed, RefreshAfter, EmbedAfter, WriterAfter, ProjectAfter;
    var f := FirstSeed(embed);
    f := Refreshes(embed, f, 0, Hash);
    f := Ingests(embed, f, 0, Hash);
    f := Lands(embed, f, 0, Hash);
    c, events :| Initial(c) && IsRun(embed, c, events) && NoMixingSeed(embed, c, events)
      && Final(embed, c, events) == f;
    RunExtends(embed, c, events, Event(1, GO));
    events := events + [Event(1, GO)];
  }

  // The second seeds before there is any vector. No vector is another embedder's then, but
  // the first process, about to load, holds a name that is no longer on record under the
  // generation it has seen.
  lemma HarmlessRace(embed: Embedding) returns (c: Config)
    ensures Unmixed(embed, c) && c.store == FRESH.(spec := Some(Onnx)) && c.procs.Keys == {0, 1}
    ensures IsAt(c, 0, Opened(Hash).(seenGeneration := 0), Loading(Stop))
      && IsAt(c, 1, Opened(Onnx), ReadGeneration(Stop))
    ensures c.procs[0].mem.HeldName() != c.store.ModelName() && c.procs[0].mem.seenGeneration == c.store.generation
  {
    c := FirstSeed(embed);
    c := Refreshes(embed, c, 0, Hash);
    c := Then(embed, c, 1, GO);
  }

  // Once the second has ingested a turn, the load of the first finds nothing: its index
  // leaves out a vector of the generation it has seen.
  lemma LoserFindsNothing(embed: Embedding) returns (c: Config)
    ensures Unmixed(embed, c) && 0 in c.procs && c.procs[0].pc == Loading(Stop)
    ensures var s, m := c.store, c.procs[0].mem;
      && m.seenGeneration == s.generation && Dimensioned(m) && s.spec == Some(Onnx)
      && Load(m, s).index == map[] != VectorsOf(s, OnnxName)
  {
    c := HarmlessRace(embed);
    c := Refreshes(embed, c, 1, Onnx);
    c := Ingests(embed, c, 1, Onnx);
    c := Lands(embed, c, 1, Onnx);
    StoredVectorsAreCurrent(embed, c);
    FindsNothing(c.procs[0].mem, c.store, 1);
  }
}
