/** A process that embeds under another name than the store it follows records, as one is
    left that asked for the store's remote model in another length. */
module Strangers {
  import opened Optional
  import opened Embedders
  import opened Stores
  import opened Protocol

  // It holds the store's embedder, embeds under another name and has under way nothing but
  // what it embedded itself.
  ghost predicate Stranger(s: Store, p: Process) {
    p.mem.embedder.Some? && p.mem.HeldName() == s.ModelName() != p.mem.embedder &&
    match p.pc
    case Unopened(_, _) => false
    case Seeding(_) => false
    case OpenSwitching(_) => false
    case SettingEmbedder(_, _) => false
    case Reembedding(_) => false
    case EmbedBacklog(_, model, _, _) => Some(model) == p.mem.embedder
    case EmbedModel(model, _, _, _) => Some(model) == p.mem.embedder
    case EmbedWrite(model, _, _, _) => Some(model) == p.mem.embedder
    case IngestCommit(_, _, stamp) => stamp.None? || stamp == p.mem.embedder
    case _ => true
  }

  // Anything but a change of embedder.
  predicate KeepsEmbedder(a: Action) {
    a.Begin? ==> !a.cmd.SetEmbedder? && !a.cmd.Reembed?
  }

  // Every vector there is was there.
  ghost predicate AddsNoVector(s: Store, t: Store) {
    forall id :: id in t.rows ==> id in s.rows && t.rows[id] == s.rows[id]
  }

  lemma {:induction false} InsertAllAddsNone(s: Store, inputs: seq<TurnInput>, vectors: seq<Option<Vector>>)
    ensures var t := InsertAll(s, inputs, vectors, None).0; t.rows == s.rows && t.spec == s.spec
    decreases |inputs|
  {
    if inputs != [] {
      var s1 := InsertOne(s, inputs[0], if vectors == [] then None else vectors[0], None).0;
      InsertAllAddsNone(s1, inputs[1..], if vectors == [] then [] else vectors[1..]);
    }
  }

  lemma TransactionAddsNone(s: Store, p: Process, a: Action)
    requires Stranger(s, p) && Enabled(p, a) && KeepsEmbedder(a)
    ensures var t := StoreAfter(s, p, a);
      && AddsNoVector(s, t) && t.spec == s.spec
      && (a.Continue? && !p.pc.IngestCommit? ==> t == s)
  {
    if Transaction(p, a).Some? {
      match Transaction(p, a).value
      case Insert(inputs, vectors, _) => InsertAllAddsNone(s, inputs, vectors);
      case Apply(notes, _) => InsertAllAddsNone(s, notes, []);
      case _ =>
    }
  }

  lemma BatchStays(embed: Embedding, s: Store, p: Process, ok: bool, backlog: seq<(Id, string)>)
    requires Stranger(s, p) && InEmbed(p.pc)
    ensures Stranger(s, EmbedAfter(embed, s, p.mem, p.pc, ok, backlog))
  {
    hide EmbedAll, WriteEmbeddings, Min;
  }

  lemma WriterStays(embed: Embedding, s: Store, p: Process, ok: bool)
    requires Stranger(s, p) && InWriter(p.pc)
    ensures Stranger(s, WriterAfter(embed, s, p.mem, p.pc, ok))
  {
    hide EmbedInputs, NoVectors, InsertBatch;
  }

  lemma RefreshStays(s: Store, p: Process, ok: bool)
    requires Stranger(s, p) && InRefresh(p.pc)
    ensures Stranger(s, RefreshAfter(s, p.mem, p.pc, ok))
  {
    hide EmbeddingsAfter, Vectors, Compute, MaxId;
  }

  lemma StrangerStays(embed: Embedding, s: Store, t: Store, p: Process, a: Action)
    requires Stranger(s, p) && Enabled(p, a) && KeepsEmbedder(a) && t.spec == s.spec
    ensures Stranger(t, ProcessAfter(embed, s, p, a))
  {
    hide EmbedAfter, WriterAfter, RefreshAfter, OpenAfter, Compute, MaxId;
    if a.Continue? && InEmbed(p.pc) {
      BatchStays(embed, s, p, a.ok, a.backlog);
    } else if a.Continue? && InWriter(p.pc) {
      WriterStays(embed, s, p, a.ok);
    } else if a.Continue? && InRefresh(p.pc) {
      RefreshStays(s, p, a.ok);
    }
  }

  // --- runs ---------------------------------------------------------------

  // The recorded name stands at every step, and the process is not told to change it.
  ghost predicate NameStands(embed: Embedding, c: Config, events: seq<Event>, pid: nat)
    requires IsRun(embed, c, events)
    decreases |events|
  {
    events != [] ==>
      var next := Next(embed, c, events[0]);
      && (if events[0].pid == pid then KeepsEmbedder(events[0].action)
        else next.store.ModelName() == c.store.ModelName())
      && NameStands(embed, next, events[1..], pid)
  }

  // No step of the process adds a vector.
  ghost predicate NeverAdds(embed: Embedding, c: Config, events: seq<Event>, pid: nat)
    requires IsRun(embed, c, events)
    decreases |events|
  {
    events != [] ==>
      var next := Next(embed, c, events[0]);
      && (events[0].pid == pid ==> AddsNoVector(c.store, next.store))
      && NeverAdds(embed, next, events[1..], pid)
  }

  // Whatever the other processes do meanwhile, as long as the recorded name stands no batch
  // and no ingest of such a process ever stores a vector, and it stays as it is.
  lemma {:induction false} StrangerNeverAdds(embed: Embedding, c: Config, events: seq<Event>, pid: nat)
    requires IsRun(embed, c, events) && NameStands(embed, c, events, pid)
    requires pid in c.procs && Stranger(c.store, c.procs[pid])
    ensures NeverAdds(embed, c, events, pid)
    ensures var f := Final(embed, c, events); pid in f.procs && Stranger(f.store, f.procs[pid])
    decreases |events|
  {
    if events != [] {
      var next := Next(embed, c, events[0]);
      StrangerStep(embed, c, events[0], pid);
      hide Stranger, StoreAfter, ProcessAfter, AddsNoVector;
      StrangerNeverAdds(embed, next, events[1..], pid);
    }
  }

  lemma StrangerStep(embed: Embedding, c: Config, e: Event, pid: nat)
    requires CanHappen(c, e) && pid in c.procs && Stranger(c.store, c.procs[pid])
    requires if e.pid == pid then KeepsEmbedder(e.action)
      else Next(embed, c, e).store.ModelName() == c.store.ModelName()
    ensures var next := Next(embed, c, e);
      Stranger(next.store, next.procs[pid]) && (e.pid == pid ==> AddsNoVector(c.store, next.store))
  {
    if e.pid == pid {
      TransactionAddsNone(c.store, c.procs[pid], e.action);
      StrangerStays(embed, c.store, StoreAfter(c.store, c.procs[pid], e.action), c.procs[pid], e.action);
    }
  }

  // Left alone, it can refresh and drain without end and the store stays as it was: the same
  // turns wait after as before.
  lemma {:induction false} DrainsForNothing(embed: Embedding, c: Config, events: seq<Event>, pid: nat)
    requires IsRun(embed, c, events) && pid in c.procs
    requires Stranger(c.store, c.procs[pid]) && !c.procs[pid].pc.IngestModel? && !c.procs[pid].pc.IngestCommit?
    requires forall i :: 0 <= i < |events| ==>
      events[i].pid == pid && (events[i].action.Begin? ==> events[i].action.cmd.Refresh? || events[i].action.cmd.Drain?)
    ensures var f := Final(embed, c, events);
      f.store == c.store && pid in f.procs && Stranger(f.store, f.procs[pid])
    decreases |events|
  {
    if events != [] {
      var next := Next(embed, c, events[0]);
      TransactionAddsNone(c.store, c.procs[pid], events[0].action);
      StrangerStep(embed, c, events[0], pid);
      hide Stranger, StoreAfter, AddsNoVector;
      DrainsForNothing(embed, next, events[1..], pid);
    }
  }
}
