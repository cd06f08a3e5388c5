/** Which runs keep every stored vector the current embedder's: those in which no seed lands
    on another embedder's vectors. */
module CurrentVectors {
  import opened Optional
  import opened Embedders
  import opened Stores
  import opened StoreProofs
  import opened Protocol
  import opened ProtocolProofs

  // Every stored vector is the store's current embedder applied to the text of the turn
  // that now holds its id.
  ghost predicate Current(embed: Embedding, s: Store) {
    forall id :: id in s.rows ==>
      && id in s.turns && s.spec.Some?
      && s.rows[id].model == s.spec.value.Name()
      && s.rows[id].vec == embed(s.spec.value.Name(), s.turns[id].text)
  }

  lemma CurrentIsUniform(embed: Embedding, s: Store)
    requires Sound(embed, s)
    ensures Current(embed, s) <==> Uniform(s)
  {
    if Uniform(s) {
      assert forall id :: id in s.rows ==> s.ModelName() == Some(s.rows[id].model);
    }
  }

  predicate Mixes(s: Store, p: Process, a: Action) {
    Transaction(p, a).Some? && MixingSeed(s, Transaction(p, a).value)
  }

  // No seed of the run lands on another embedder's vectors.
  ghost predicate NoMixingSeed(embed: Embedding, c: Config, events: seq<Event>)
    requires IsRun(embed, c, events)
    decreases |events|
  {
    events != [] ==>
      && !Mixes(c.store, c.procs[events[0].pid], events[0].action)
      && NoMixingSeed(embed, Next(embed, c, events[0]), events[1..])
  }

  ghost predicate AlwaysCurrent(embed: Embedding, c: Config, events: seq<Event>)
    requires IsRun(embed, c, events)
    decreases |events|
  {
    Current(embed, c.store) && (events != [] ==> AlwaysCurrent(embed, Next(embed, c, events[0]), events[1..]))
  }

  // --- which runs ---------------------------------------------------------

  lemma StepIsUniformExactlyWhen(embed: Embedding, c: Config, e: Event)
    requires Fits(embed, c) && Uniform(c.store) && CanHappen(c, e)
    ensures Uniform(Next(embed, c, e).store) <==> !Mixes(c.store, c.procs[e.pid], e.action)
  {
    var p := c.procs[e.pid];
    if Transaction(p, e.action).Some? {
      PendingIsHonest(embed, c.store, p, e.action);
      CommitKeepsUniformExactlyWhen(embed, c.store, Transaction(p, e.action).value);
    }
  }

  lemma {:induction false} CurrentFrom(embed: Embedding, c: Config, events: seq<Event>)
    requires Fits(embed, c) && Uniform(c.store) && IsRun(embed, c, events)
    ensures AlwaysCurrent(embed, c, events) <==> NoMixingSeed(embed, c, events)
    decreases |events|
  {
    hide Uniform, Current, Mixes, Pending, Sound;
    CurrentIsUniform(embed, c.store);
    if events != [] {
      var next := Next(embed, c, events[0]);
      FitsStep(embed, c, events[0]);
      StepIsUniformExactlyWhen(embed, c, events[0]);
      CurrentIsUniform(embed, next.store);
      if Uniform(next.store) {
        CurrentFrom(embed, next, events[1..]);
      }
    }
  }

  lemma StartsFit(embed: Embedding, c: Config)
    requires Initial(c)
    ensures Fits(embed, c) && Uniform(c.store)
  {
    forall pid | pid in c.procs ensures Pending(embed, c.store, c.procs[pid]) {
      var dense, request, allowSwitch :| c.procs[pid] == NewProcess(dense, request, allowSwitch);
    }
  }

  // In every interleaving of any number of processes: every stored vector is the current
  // embedder's at every point of the run exactly when no seed of it lands on another
  // embedder's vectors.
  lemma RunIsCurrentExactlyWhen(embed: Embedding, c: Config, events: seq<Event>)
    requires Initial(c) && IsRun(embed, c, events)
    ensures AlwaysCurrent(embed, c, events) <==> NoMixingSeed(embed, c, events)
  {
    StartsFit(embed, c);
    CurrentFrom(embed, c, events);
  }

  // A configuration some such run leads to.
  ghost predicate Unmixed(embed: Embedding, c: Config) {
    exists c0, events :: Initial(c0) && IsRun(embed, c0, events) && NoMixingSeed(embed, c0, events)
      && Final(embed, c0, events) == c
  }

  lemma {:induction false} EndsCurrent(embed: Embedding, c: Config, events: seq<Event>)
    requires IsRun(embed, c, events) && AlwaysCurrent(embed, c, events)
    ensures Current(embed, Final(embed, c, events).store)
    decreases |events|
  {
    hide Current;
    if events != [] {
      EndsCurrent(embed, Next(embed, c, events[0]), events[1..]);
    }
  }

  lemma StoredVectorsAreCurrent(embed: Embedding, c: Config)
    requires Unmixed(embed, c)
    ensures Current(embed, c.store)
  {
    var c0, events :| Initial(c0) && IsRun(embed, c0, events) && NoMixingSeed(embed, c0, events)
      && Final(embed, c0, events) == c;
    RunIsCurrentExactlyWhen(embed, c0, events);
    EndsCurrent(embed, c0, events);
  }
}
