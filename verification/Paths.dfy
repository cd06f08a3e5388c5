/** One process among others as the step machine has it: its own steps, with the store moved by
    the other processes in between. The methods of `Engine` are paths of this kind. */
module Paths {
  import opened Optional
  import opened Embedders
  import opened Stores
  import opened StoreProofs
  import opened Protocol
  import opened ProtocolProofs
  import opened CurrentVectors

  datatype Move = Own(action: Action) | Others(store: Store)

  ghost predicate Meanwhile(embed: Embedding, quiet: bool, s: Store, t: Store) {
    s == t || (StoreMoves(embed, s, t) && !quiet)
  }

  // The moves lead from one store and process to another; `quiet` leaves the store to the
  // process.
  ghost predicate Leads(embed: Embedding, quiet: bool, s: Store, p: Process, moves: seq<Move>, t: Store, q: Process)
    decreases |moves|
  {
    if moves == [] then s == t && p == q
    else
      match moves[0]
      case Own(a) =>
        && Enabled(p, a) && Answers(s, p, a)
        && Leads(embed, quiet, StoreAfter(s, p, a), ProcessAfter(embed, s, p, a), moves[1..], t, q)
      case Others(u) =>
        Meanwhile(embed, quiet, s, u) && Leads(embed, quiet, u, p, moves[1..], t, q)
  }

  ghost predicate Path(embed: Embedding, quiet: bool, s: Store, p: Process, t: Store, q: Process) {
    exists moves :: Leads(embed, quiet, s, p, moves, t, q)
  }

  lemma {:induction false} LeadsOn(embed: Embedding, quiet: bool, s: Store, p: Process, moves: seq<Move>, t: Store,
                                   q: Process, more: seq<Move>, u: Store, r: Process)
    requires Leads(embed, quiet, s, p, moves, t, q) && Leads(embed, quiet, t, q, more, u, r)
    ensures Leads(embed, quiet, s, p, moves + more, u, r)
    decreases |moves|
  {
    if moves == [] {
      assert moves + more == more;
    } else {
      assert (moves + more)[1..] == moves[1..] + more;
      match moves[0]
      case Own(a) =>
        LeadsOn(embed, quiet, StoreAfter(s, p, a), ProcessAfter(embed, s, p, a), moves[1..], t, q, more, u, r);
      case Others(v) => LeadsOn(embed, quiet, v, p, moves[1..], t, q, more, u, r);
    }
  }

  lemma Onward(embed: Embedding, quiet: bool, s: Store, p: Process, t: Store, q: Process, u: Store, r: Process)
    requires Path(embed, quiet, s, p, t, q) && Path(embed, quiet, t, q, u, r)
    ensures Path(embed, quiet, s, p, u, r)
  {
    var moves :| Leads(embed, quiet, s, p, moves, t, q);
    var more :| Leads(embed, quiet, t, q, more, u, r);
    LeadsOn(embed, quiet, s, p, moves, t, q, more, u, r);
  }

  lemma OnwardTwice(embed: Embedding, quiet: bool, s: Store, p: Process, t: Store, q: Process, u: Store, r: Process,
                    v: Store, o: Process)
    requires Path(embed, quiet, s, p, t, q) && Path(embed, quiet, t, q, u, r) && Path(embed, quiet, u, r, v, o)
    ensures Path(embed, quiet, s, p, v, o)
  {
    hide Path;
    Onward(embed, quiet, s, p, t, q, u, r);
    Onward(embed, quiet, s, p, u, r, v, o);
  }

  lemma Waits(embed: Embedding, quiet: bool, s: Store, p: Process, t: Store)
    requires Meanwhile(embed, quiet, s, t)
    ensures Path(embed, quiet, s, p, t, p)
  {
    assert Leads(embed, quiet, t, p, [], t, p);
    if s != t {
      assert [Others(t)][1..] == [];
      assert Leads(embed, quiet, s, p, [Others(t)], t, p);
    }
  }

  // The others move the store, then the process takes a step.
  lemma Steps(embed: Embedding, quiet: bool, s: Store, p: Process, t: Store, a: Action)
    requires Meanwhile(embed, quiet, s, t)
    requires Enabled(p, a) && Answers(t, p, a)
    ensures Path(embed, quiet, s, p, StoreAfter(t, p, a), ProcessAfter(embed, t, p, a))
  {
    Waits(embed, quiet, s, p, t);
    var u, q := StoreAfter(t, p, a), ProcessAfter(embed, t, p, a);
    assert Path(embed, quiet, t, p, u, q) by {
      hide StoreAfter, ProcessAfter;
      assert [Own(a)][1..] == [] && Leads(embed, quiet, u, q, [], u, q);
      assert Leads(embed, quiet, t, p, [Own(a)], u, q);
    }
    Onward(embed, quiet, s, p, t, p, u, q);
  }

  // Left to itself, a process that follows a path makes a run of the machine.
  lemma {:induction false} LeadsIsRun(embed: Embedding, s: Store, p: Process, moves: seq<Move>, t: Store, q: Process)
    returns (events: seq<Event>)
    requires Leads(embed, true, s, p, moves, t, q)
    ensures var alone := Config(s, map[0 := p]);
      IsRun(embed, alone, events) && Final(embed, alone, events) == Config(t, map[0 := q])
    decreases |moves|
  {
    events := [];
    if moves != [] {
      match moves[0]
      case Own(a) =>
        var next := Config(StoreAfter(s, p, a), map[0 := ProcessAfter(embed, s, p, a)]);
        var rest := LeadsIsRun(embed, next.store, next.procs[0], moves[1..], t, q);
        events := [Event(0, a)] + rest;
        assert events[1..] == rest;
        assert Next(embed, Config(s, map[0 := p]), events[0]) == next by {
          assert map[0 := p][0 := next.procs[0]] == next.procs;
        }
      case Others(u) => events := LeadsIsRun(embed, u, p, moves[1..], t, q);
    }
  }

  lemma QuietPathIsRun(embed: Embedding, s: Store, p: Process, t: Store, q: Process) returns (events: seq<Event>)
    requires Path(embed, true, s, p, t, q)
    ensures var alone := Config(s, map[0 := p]);
      IsRun(embed, alone, events) && Final(embed, alone, events) == Config(t, map[0 := q])
  {
    var moves :| Leads(embed, true, s, p, moves, t, q);
    events := LeadsIsRun(embed, s, p, moves, t, q);
  }

  // And every run without a mixing seed, seen from any one of its processes, is a path: what
  // a path lets the others do is what their steps do.
  lemma {:induction false} RunIsPath(embed: Embedding, c: Config, events: seq<Event>, pid: nat)
    requires Fits(embed, c) && Uniform(c.store) && IsRun(embed, c, events) && NoMixingSeed(embed, c, events)
    requires pid in c.procs
    ensures var f := Final(embed, c, events);
      pid in f.procs && Path(embed, false, c.store, c.procs[pid], f.store, f.procs[pid])
    decreases |events|
  {
    hide Path, Fits, Uniform, Mixes, StoreAfter, ProcessAfter, StoreMoves;
    if events == [] {
      Waits(embed, false, c.store, c.procs[pid], c.store);
    } else {
      var next := Next(embed, c, events[0]);
      FitsStep(embed, c, events[0]);
      StepIsUniformExactlyWhen(embed, c, events[0]);
      StepIsMove(embed, c, events[0], pid);
      RunIsPath(embed, next, events[1..], pid);
      var f := Final(embed, next, events[1..]);
      Onward(embed, false, c.store, c.procs[pid], next.store, next.procs[pid], f.store, f.procs[pid]);
    }
  }

  lemma StepIsMove(embed: Embedding, c: Config, e: Event, pid: nat)
    requires Fits(embed, c) && Uniform(c.store) && CanHappen(c, e) && !Mixes(c.store, c.procs[e.pid], e.action)
    requires pid in c.procs
    ensures var next := Next(embed, c, e); Path(embed, false, c.store, c.procs[pid], next.store, next.procs[pid])
  {
    hide Path, StoreMoves;
    var p := c.procs[e.pid];
    if e.pid == pid {
      Steps(embed, false, c.store, p, c.store, e.action);
    } else {
      StoreStepUniform(embed, c.store, p, e.action);
      Waits(embed, false, c.store, c.procs[pid], StoreAfter(c.store, p, e.action));
    }
  }

  // --- the steps of a refresh ---------------------------------------------

  lemma SeesOn(embed: Embedding, quiet: bool, s: Store, t: Store, m: Memory, after: After)
    requires Meanwhile(embed, quiet, s, t)
    ensures Path(embed, quiet, s, Process(m, ReadGeneration(after)), t, Process(SeeGeneration(m, t.generation),
      if m.seenGeneration == t.generation then ReadMaxId(after) else Following(after)))
  {
    hide Path;
    Steps(embed, quiet, s, Process(m, ReadGeneration(after)), t, GO);
  }

  // Wherever the embedders are compared.
  lemma FollowsOn(embed: Embedding, quiet: bool, s: Store, t: Store, m: Memory, pc: Pc, built: bool)
    requires Meanwhile(embed, quiet, s, t)
    ensures var q := FollowIfChanged(m, t, built);
      match pc
      case Following(after) => Path(embed, quiet, s, Process(m, pc), t, Process(q, ReadMaxId(after)))
      case EmbedFollow(caller) => Path(embed, quiet, s, Process(m, pc), t, Process(q, Embedded(q, 0, caller)))
      case IngestFollow => Path(embed, quiet, s, Process(m, pc), t, Process(q, ReadGeneration(Stop)))
      case DrainFollow(left) => Path(embed, quiet, s, Process(m, pc), t, Process(q, StartDrain(q, left)))
      case _ => true
  {
    hide Path;
    if pc.Following? || pc.EmbedFollow? || pc.IngestFollow? || pc.DrainFollow? {
      Steps(embed, quiet, s, Process(m, pc), t, Continue(built, 0, []));
    }
  }

  lemma CountsOn(embed: Embedding, quiet: bool, s: Store, t: Store, m: Memory, after: After)
    requires Meanwhile(embed, quiet, s, t)
    ensures var q := m.(seenMaxId := MaxId(t.turns.Keys));
      Path(embed, quiet, s, Process(m, ReadMaxId(after)), t, Process(q, StartBatch(q, EMBED_BATCH, Refreshing(after))))
  {
    hide Path;
    Steps(embed, quiet, s, Process(m, ReadMaxId(after)), t, GO);
  }

  lemma LoadsOn(embed: Embedding, quiet: bool, s: Store, t: Store, m: Memory, after: After)
    requires Meanwhile(embed, quiet, s, t)
    ensures var q := Load(m, t);
      Path(embed, quiet, s, Process(m, Loading(after)), t, Process(q, AfterLoad(q, t, after)))
  {
    hide Path;
    Steps(embed, quiet, s, Process(m, Loading(after)), t, GO);
  }

  // --- the steps of a batch -----------------------------------------------

  // Where a process goes on after a batch of `n` turns, or one whose model failed.
  function AfterBatch(m: Memory, n: nat, failed: bool, caller: Caller): Pc {
    if failed && caller.Draining? then Idle else Embedded(m, n, caller)
  }

  // In a drain: the next batch, while this one was not empty and turns are left.
  function Drained(m: Memory, n: nat, failed: bool, left: nat): Pc
    requires n <= left
  {
    if failed then Idle else if n == 0 then Loading(Stop) else StartDrain(m, left - n)
  }

  lemma NothingLeft(m: Memory)
    ensures StartDrain(m, 0) == Loading(Stop)
  {
  }

  function AfterBacklog(m: Memory, model: Name, generation: nat, backlog: seq<(Id, string)>, caller: Caller): Pc {
    if backlog == [] then Embedded(m, 0, caller) else EmbedModel(model, generation, backlog, caller)
  }

  lemma ReadsOn(embed: Embedding, quiet: bool, s: Store, t: Store, u: Store, m: Memory, limit: nat,
                backlog: seq<(Id, string)>, caller: Caller)
    requires Meanwhile(embed, quiet, s, t) && Meanwhile(embed, quiet, t, u)
    requires m.embedder.Some? && IsBacklog(u, m.embedder.value, limit, backlog)
    ensures Path(embed, quiet, s, Process(m, EmbedGeneration(limit, caller)),
      u, Process(m, AfterBacklog(m, m.embedder.value, t.generation, backlog, caller)))
  {
    hide Path;
    Steps(embed, quiet, s, Process(m, EmbedGeneration(limit, caller)), t, GO);
    var p := Process(m, Pc.EmbedBacklog(limit, m.embedder.value, t.generation, caller));
    Steps(embed, quiet, t, p, u, Continue(true, 0, backlog));
    Onward(embed, quiet, s, Process(m, EmbedGeneration(limit, caller)), t, p,
      u, Process(m, AfterBacklog(m, m.embedder.value, t.generation, backlog, caller)));
  }

  lemma FailsOn(embed: Embedding, quiet: bool, s: Store, m: Memory, model: Name, generation: nat,
                backlog: seq<(Id, string)>, caller: Caller)
    ensures Path(embed, quiet, s, Process(m, EmbedModel(model, generation, backlog, caller)),
      s, Process(m, AfterBatch(m, 0, true, caller)))
  {
    hide Path;
    Steps(embed, quiet, s, Process(m, EmbedModel(model, generation, backlog, caller)), s, Continue(false, 0, []));
  }

  lemma AnswersOn(embed: Embedding, quiet: bool, s: Store, t: Store, m: Memory, model: Name, generation: nat,
                  backlog: seq<(Id, string)>, caller: Caller)
    requires Meanwhile(embed, quiet, s, t)
    ensures Path(embed, quiet, s, Process(m, EmbedModel(model, generation, backlog, caller)),
      t, Process(m, EmbedWrite(model, generation, EmbedAll(embed, model, backlog), caller)))
  {
    hide Path;
    var p := Process(m, EmbedModel(model, generation, backlog, caller));
    var q := Process(m, EmbedWrite(model, generation, EmbedAll(embed, model, backlog), caller));
    Steps(embed, quiet, s, p, s, GO);
    Waits(embed, quiet, s, q, t);
    Onward(embed, quiet, s, p, s, q, t, q);
  }

  lemma WritesOn(embed: Embedding, quiet: bool, s: Store, m: Memory, model: Name, generation: nat,
                 batch: seq<(Id, Vector)>, caller: Caller)
    ensures var (t, outcome) := WriteEmbeddings(s, batch, model, generation);
      Path(embed, quiet, s, Process(m, EmbedWrite(model, generation, batch, caller)), t, Process(m,
        match outcome
        case Written => Embedded(m, |batch|, caller)
        case EmbedderChanged => EmbedFollow(caller)
        case StoreChanged => Embedded(m, 0, caller)
        case NoSuchTurn => Idle))
  {
    hide Path;
    Steps(embed, quiet, s, Process(m, EmbedWrite(model, generation, batch, caller)), s, GO);
  }

  // --- the steps of opening -----------------------------------------------

  lemma OpensOn(embed: Embedding, quiet: bool, s: Store, t: Store, m: Memory, request: Request, allowSwitch: bool,
                ok: bool, length: nat)
    requires Meanwhile(embed, quiet, s, t)
    ensures Path(embed, quiet, s, Process(m, Unopened(request, allowSwitch)),
      t, OpenWith(m, t, request, allowSwitch, ok, length))
  {
    hide Path, OpenWith;
    Steps(embed, quiet, s, Process(m, Unopened(request, allowSwitch)), t, Continue(ok, length, []));
  }

  lemma SwitchesOn(embed: Embedding, quiet: bool, s: Store, t: Store, m: Memory, spec: Spec)
    requires Meanwhile(embed, quiet, s, t)
    ensures Path(embed, quiet, s, Process(m, OpenSwitching(spec)),
      Commit(t, Switch(spec)), Process(Install(m, spec, Some(spec.Name())), ReadGeneration(Stop)))
  {
    hide Path, Commit;
    Steps(embed, quiet, s, Process(m, OpenSwitching(spec)), t, GO);
  }

  // --- the steps of the calls ---------------------------------------------

  lemma BeginsOn(embed: Embedding, quiet: bool, s: Store, t: Store, m: Memory, cmd: Command, ok: bool, length: nat)
    requires Meanwhile(embed, quiet, s, t) && Transaction(Process(m, Idle), Begin(cmd, ok, length)).None?
    ensures Path(embed, quiet, s, Process(m, Idle), t, Process(m, BeginWith(m, t, cmd, ok, length)))
  {
    hide Path;
    Steps(embed, quiet, s, Process(m, Idle), t, Begin(cmd, ok, length));
  }

  lemma DrainsOn(embed: Embedding, quiet: bool, s: Store, t: Store, m: Memory, limit: nat, built: bool)
    requires Meanwhile(embed, quiet, s, t)
    ensures var q := FollowIfChanged(m, t, built);
      Path(embed, quiet, s, Process(m, Idle), t, Process(q, StartDrain(q, limit)))
  {
    hide Path, FollowIfChanged, StartDrain;
    var q := FollowIfChanged(m, t, built);
    BeginsOn(embed, quiet, s, s, m, Drain(limit), true, 0);
    FollowsOn(embed, quiet, s, t, m, DrainFollow(limit), built);
    Onward(embed, quiet, s, Process(m, Idle), s, Process(m, DrainFollow(limit)), t, Process(q, StartDrain(q, limit)));
  }

  function CommandOf(tx: Tx): Command
    requires tx.Delete? || tx.DropVectors? || tx.Forget? || tx.Rederive?
  {
    match tx
    case Delete(session) => DeleteOne(session)
    case DropVectors => ClearVectors
    case Forget => ClearEverything
    case Rederive => RebuildAll
  }

  lemma CommandOn(embed: Embedding, quiet: bool, s: Store, t: Store, m: Memory, tx: Tx)
    requires Meanwhile(embed, quiet, s, t) && (tx.Delete? || tx.DropVectors? || tx.Forget? || tx.Rederive?)
    ensures Path(embed, quiet, s, Process(m, Idle), Commit(t, tx), Process(m, ReadGeneration(Stop)))
  {
    hide Path, Commit;
    Steps(embed, quiet, s, Process(m, Idle), t, Begin(CommandOf(tx), true, 0));
  }

  lemma PreparesOn(embed: Embedding, quiet: bool, s: Store, m: Memory, inputs: seq<TurnInput>,
                   vectors: seq<Option<Vector>>, stamp: Option<Name>)
    requires if stamp.Some? then stamp == m.embedder && vectors == EmbedInputs(embed, stamp.value, inputs)
      else vectors == NoVectors(inputs)
    ensures Path(embed, quiet, s, Process(m, Idle), s, Process(m, IngestCommit(inputs, vectors, stamp)))
  {
    hide Path;
    var p, q := Process(m, Idle), Process(m, IngestModel(inputs));
    Steps(embed, quiet, s, p, s, Begin(Ingest(inputs), true, 0));
    Steps(embed, quiet, s, q, s, Continue(stamp.Some?, 0, []));
    Onward(embed, quiet, s, p, s, q, s, Process(m, IngestCommit(inputs, vectors, stamp)));
  }

  lemma CommitsOn(embed: Embedding, quiet: bool, s: Store, t: Store, m: Memory, inputs: seq<TurnInput>,
                  vectors: seq<Option<Vector>>, stamp: Option<Name>)
    requires Meanwhile(embed, quiet, s, t)
    ensures Path(embed, quiet, s, Process(m, IngestCommit(inputs, vectors, stamp)),
      Commit(t, Insert(inputs, vectors, stamp)), Process(m,
        if InsertBatch(t, inputs, vectors, stamp).1.embedderChanged then IngestFollow else ReadGeneration(Stop)))
  {
    hide Path, Commit, InsertBatch;
    Steps(embed, quiet, s, Process(m, IngestCommit(inputs, vectors, stamp)), t, GO);
  }

  // Where a change of embedder is committed.
  function Adopting(tx: Tx, spec: Spec): Pc {
    if tx.DropVectors? then Reembedding(spec) else SettingEmbedder(spec, tx.Update?)
  }

  lemma AdoptsOn(embed: Embedding, quiet: bool, s: Store, t: Store, m: Memory, tx: Tx, spec: Spec)
    requires Meanwhile(embed, quiet, s, t) && (tx == Update(spec) || tx == Switch(spec) || tx == DropVectors)
    ensures Path(embed, quiet, s, Process(m, Adopting(tx, spec)), Commit(t, tx),
      if tx.Update? && !UpdateSpec(t, spec).1 then Process(m, Idle)
      else Process(Install(m, spec, Some(spec.Name())).(dense := true), ReadGeneration(Stop)))
  {
    hide Path, Commit, UpdateSpec, Install;
    Steps(embed, quiet, s, Process(m, Adopting(tx, spec)), t, GO);
  }

  // After the load of a projection: its generation, its newest turn, then the cache or the
  // vectors.
  lemma ProjectsOn(embed: Embedding, quiet: bool, s: Store, t: Store, u: Store, v: Store, m: Memory,
                   opts: ProjectionOptions, key: ProjectionKey)
    requires Meanwhile(embed, quiet, s, t) && Meanwhile(embed, quiet, t, u) && Meanwhile(embed, quiet, u, v)
    requires m.held.Some?
    requires key ==
      ProjectionKey(t.generation, MaxId(u.turns.Keys), m.seenSerial, m.held.value.Name(), m.dim, opts)
    ensures Path(embed, quiet, s, Process(m, AfterLoad(m, s, Project(opts))), v, Process(
      if CacheHit(m, key) then m else m.(cache := Some((key, Compute(v, key.model, key.dim, key.opts)))), Idle))
  {
    hide Path, Compute, MaxId;
    var p0 := Process(m, AfterLoad(m, s, Project(opts)));
    var atLoad := p0.pc.atLoad;
    var p1, p2 := Process(m, ProjectMaxId(opts, atLoad, t.generation)), Process(m, ProjectRead(key, atLoad));
    Steps(embed, quiet, s, p0, t, GO);
    Steps(embed, quiet, t, p1, u, GO);
    Onward(embed, quiet, s, p0, t, p1, u, p2);
    Steps(embed, quiet, u, p2, v, GO);
    Onward(embed, quiet, s, p0, u, p2, v, Process(
      if CacheHit(m, key) then m else m.(cache := Some((key, Compute(v, key.model, key.dim, key.opts)))), Idle));
  }
}
