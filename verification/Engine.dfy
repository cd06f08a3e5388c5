/** One process as it is written: an object that updates its index, cursor and embedder in
    place, while other processes commit to the store between any two of its accesses.

    `ok`, `answers` and `built` say how a model behaved, `after` and `caller` what a part of a
    call is part of; `quiet` says that nobody else committed during the call. Every call is a
    path of the step machine. */
module Engine {
  import opened Optional
  import opened Embedders
  import opened Stores
  import opened StoreProofs
  import opened VectorIndexes
  import opened Protocol
  import opened ProtocolProofs
  import opened Databases
  import opened Paths
  import opened EngineProofs

  class ZeroMem {
    const embed: Embedding
    const db: Database
    var dense: bool
    var held: Option<Spec>
    var embedder: Option<Name>
    var index: VectorIndex
    var seenSerial: nat
    var seenMaxId: Id
    var seenGeneration: int
    var cache: Option<(ProjectionKey, Projection)>

    ghost function Mem(): Memory
      reads this, index
      requires index.Valid()
    {
      Memory(dense, held, embedder, index.dim, index.Contents(), seenSerial, seenMaxId, seenGeneration, cache)
    }

    ghost function HeldName(): Option<Name>
      reads this
    {
      if held.Some? then Some(held.value.Name()) else None
    }

    ghost predicate Valid()
      reads this, index, db
    {
      index.Valid() && Knows(embed, db.s, Mem())
    }

    // A process without a dense view, over a file others may be using.
    constructor (embed: Embedding, db: Database)
      requires Sized(embed) && Sound(embed, db.s) && Uniform(db.s)
      ensures Valid() && this.db == db && this.embed == embed && fresh(index)
      ensures !dense && Mem() == NewProcess(false, Auto, false).mem
    {
      this.embed, this.db := embed, db;
      dense, held, embedder, cache := false, None, None, None;
      index := new VectorIndex(0);
      seenSerial, seenMaxId, seenGeneration := 0, 0, -1;
    }

    method Install(spec: Spec, embedder: Option<Name>)
      requires index.Valid()
      modifies this
      ensures fresh(index) && index.Valid() && Mem() == Protocol.Install(old(Mem()), spec, embedder)
    {
      var dim := if embedder.Some? then DimOf(embedder.value) else spec.Dim().GetOr(0);
      index := new VectorIndex(dim);
      seenSerial := 0;
      cache := None;
      this.embedder := embedder;
      held := Some(spec);
    }

    // Hold the store's embedder, by name, whatever was held before.
    method FollowStoreIfChanged(built: bool, ghost quiet: bool) returns (changed: bool)
      requires index.Valid() && Half(embed, db.s, Mem())
      modifies this, db
      ensures index.Valid() && (index == old(index) || fresh(index)) && Half(embed, db.s, Mem())
      ensures (dense ==> db.s.spec.Some?) ==> Valid()
      ensures StoreMoves(embed, old(db.s), db.s) && (quiet ==> db.s == old(db.s))
      ensures Mem() == FollowIfChanged(old(Mem()), db.s, built) && (dense ==> HeldName() == db.s.ModelName())
    {
      ghost var s, m := db.s, Mem();
      FollowKnows(embed, s, m, built);
      if !dense {
        return false;
      }
      db.Others(embed, quiet);
      HalfStable(embed, s, db.s, m);
      FollowKnows(embed, db.s, m, built);
      var stored := db.s.spec;
      var storedName := if stored.Some? then Some(stored.value.Name()) else None;
      var heldName := if held.Some? then Some(held.value.Name()) else None;
      assert Mem() == m;
      if storedName == heldName {
        return false;
      }
      changed := true;
      match stored {
        case Some(spec) =>
          Install(spec, if built then Some(spec.Name()) else None);
        case None =>
          index := new VectorIndex(0);
          embedder, held := None, None;
      }
    }

    // The same by a process whose store has an embedder.
    method Follow(built: bool, ghost quiet: bool)
      requires Valid()
      modifies this, db
      ensures Valid() && (index == old(index) || fresh(index))
      ensures StoreMoves(embed, old(db.s), db.s) && (quiet ==> db.s == old(db.s))
      ensures Mem() == FollowIfChanged(old(Mem()), db.s, built) && (dense ==> HeldName() == db.s.ModelName())
      ensures dense == old(dense) && seenGeneration == old(seenGeneration) && seenMaxId == old(seenMaxId)
      ensures old(HeldName()) == db.s.ModelName() ==> Mem() == old(Mem())
    {
      ghost var s := db.s;
      KnowsHalf(embed, s, Mem());
      var _ := FollowStoreIfChanged(built, quiet);
      MovesKeepSpec(embed, s, db.s);
    }

    method PushAll(rows: seq<(nat, Id, Vector)>)
      requires index.Valid() && forall i :: 0 <= i < |rows| ==> |rows[i].2| == index.dim
      modifies this`seenSerial, index
      ensures index.Valid()
      ensures Mem() == old(Mem()).(index := old(Mem()).index + Listed(rows),
        seenSerial := Cursor(rows, old(seenSerial)))
    {
      ghost var m := Mem();
      for i := 0 to |rows|
        invariant index.Valid() && index.dim == m.dim
        invariant index.Contents() == m.index + Listed(rows[..i])
        invariant seenSerial == Cursor(rows[..i], m.seenSerial)
      {
        var (serial, id, vec) := rows[i];
        index.Push(id, vec);
        seenSerial := if serial > seenSerial then serial else seenSerial;
        ListedStep(rows, i, m.index, m.seenSerial);
      }
      assert rows[..|rows|] == rows;
    }

    // Vectors written since the last load join the index.
    method LoadNewVectors(ghost quiet: bool, ghost after: After)
      requires Valid()
      modifies this, index, db
      ensures Valid() && index == old(index)
      ensures StoreMoves(embed, old(db.s), db.s) && (quiet ==> db.s == old(db.s))
      ensures Mem() == Load(old(Mem()), db.s) == old(Mem()).(index := Mem().index, seenSerial := seenSerial)
      ensures Loaded(db.s, Mem())
      ensures Path(embed, quiet, old(db.s), Process(old(Mem()), Loading(after)),
        db.s, Process(Mem(), AfterLoad(Mem(), db.s, after)))
    {
      hide Path;
      ghost var s, m := db.s, Mem();
      if held.None? || index.dim == 0 {
        LoadKnows(embed, s, m);
        LoadsOn(embed, quiet, s, s, m, after);
        return;
      }
      db.Others(embed, quiet);
      LoadsOn(embed, quiet, s, db.s, m, after);
      KnowsStable(embed, s, db.s, m);
      assert Mem() == m;
      var rows := db.ReadEmbeddings(seenSerial, held.value.Name(), index.dim);
      LoadKnows(embed, db.s, m);
      ListedIsLoad(m, db.s, rows);
      PushAll(rows);
    }

    // It embeds under a name the store it follows does not record.
    ghost predicate OtherName()
      reads this, db
    {
      embedder.Some? && HeldName() == db.s.ModelName() != embedder
    }

    // A batch it makes now is refused: its embedder has another name than the store's.
    ghost predicate Refused(limit: nat, ok: bool)
      reads this, db
    {
      ok && embedder.Some? && embedder != db.s.ModelName() && limit > 0 && db.s.turns != map[]
    }

    // One batch of the oldest waiting turns. A store that is cleared or loses turns between
    // the first read and the write has another generation by then, and refuses the batch.
    // Under another name than the store's nothing ever lands; undisturbed, the refusal is
    // all that changes what the process remembers: it follows the store.
    method EmbedOneBatch(limit: nat, ok: bool, built: bool, ghost quiet: bool, ghost caller: Caller)
      returns (n: nat, failed: bool)
      requires Valid()
      modifies this, db
      ensures Valid() && (index == old(index) || fresh(index))
      ensures StoreMoves(embed, old(db.s), db.s) && (quiet ==> SameBut(old(db.s), db.s))
      ensures dense == old(dense) && seenGeneration == old(seenGeneration) && seenMaxId == old(seenMaxId)
      ensures n <= limit
      ensures quiet && old(Refused(limit, ok)) ==>
        Mem() == FollowIfChanged(old(Mem()), db.s, built) && (dense ==> HeldName() == db.s.ModelName())
      ensures quiet && (old(HeldName()) == db.s.ModelName() || !old(Refused(limit, ok))) ==> Mem() == old(Mem())
      ensures quiet ==>
        && (failed <==>
          !ok && limit > 0 && old(embedder).Some? && BacklogOf(old(db.s), old(embedder).value) != {})
        && (failed || old(embedder) != db.s.ModelName() ==> n == 0 && db.s == old(db.s))
      ensures var model := old(embedder);
        quiet && ok && model.Some? && old(db.s.ModelName()) == model ==>
          && Mem() == old(Mem())
          && n == Min(limit, |BacklogOf(old(db.s), model.value)|)
          && |BacklogOf(db.s, model.value)| == |BacklogOf(old(db.s), model.value)| - n
      ensures Path(embed, quiet, old(db.s), Process(old(Mem()), StartBatch(old(Mem()), limit, caller)),
        db.s, Process(Mem(), AfterBatch(Mem(), n, failed, caller)))
    {
      hide Path, StoreMoves, Sound, Uniform;
      ghost var s, m := db.s, Mem();
      KnowsSound(embed, s, m);
      if embedder.None? {
        Waits(embed, quiet, s, Process(m, StartBatch(m, limit, caller)), s);
        return 0, false;
      }
      var model := embedder.value;
      var generation, backlog := ReadBatch(model, limit, quiet, caller);
      ghost var s2 := db.s;
      ghost var p := Process(m, AfterBacklog(m, model, generation, backlog, caller));
      BatchShrinks(embed, s2, model, limit, backlog);
      OthersBacklog(s2, model) by { KnowsSound(embed, s2, m); }
      if backlog == [] || !ok {
        if backlog != [] {
          FailsOn(embed, quiet, s2, m, model, generation, backlog, caller);
          Onward(embed, quiet, s, Process(m, EmbedGeneration(limit, caller)), s2, p,
            s2, Process(m, AfterBatch(m, 0, true, caller)));
        }
        return 0, backlog != [];
      }
      n, failed := SendBatch(model, limit, generation, backlog, built, quiet, caller);
      MovesTransitive(embed, s, s2, db.s);
      Onward(embed, quiet, s, Process(m, EmbedGeneration(limit, caller)), s2, p,
        db.s, Process(Mem(), Embedded(Mem(), n, caller)));
    }

    // The model call, then the guarded write.
    method SendBatch(model: Name, ghost limit: nat, generation: nat, backlog: seq<(Id, string)>, built: bool,
                     ghost quiet: bool, ghost caller: Caller)
      returns (n: nat, failed: bool)
      requires Valid() && generation <= db.s.generation && IsBacklog(db.s, model, limit, backlog)
      modifies this, db
      ensures Valid() && (index == old(index) || fresh(index))
      ensures StoreMoves(embed, old(db.s), db.s) && (quiet ==> SameBut(old(db.s), db.s))
      ensures dense == old(dense) && seenGeneration == old(seenGeneration) && seenMaxId == old(seenMaxId)
      ensures n <= |backlog| && !failed
      ensures quiet && old(db.s.ModelName()) == Some(model) && generation == old(db.s.generation) ==>
        && Mem() == old(Mem()) && n == |backlog|
        && db.s == PutRows(old(db.s), EmbedAll(embed, model, backlog), model)
      ensures quiet && old(db.s.ModelName()) != Some(model) ==>
        && n == 0 && db.s == old(db.s) && Mem() == FollowIfChanged(old(Mem()), db.s, built)
        && (dense ==> HeldName() == db.s.ModelName())
      ensures Path(embed, quiet, old(db.s), Process(old(Mem()), EmbedModel(model, generation, backlog, caller)),
        db.s, Process(Mem(), Embedded(Mem(), n, caller)))
    {
      ghost var s2, m := db.s, Mem();
      var batch := EmbedAll(embed, model, backlog);
      KnowsSound(embed, s2, m);
      hide StoreMoves, Sound, Uniform, Knows, Honest, Evolves, KeepsName, WriteEmbeddings, PutRows, IsBacklog,
        Path;
      db.Others(embed, quiet);
      ghost var s3 := db.s;
      AnswersOn(embed, quiet, s2, s3, m, model, generation, backlog, caller);
      BatchStillFits(embed, s2, s3, model, limit, generation, backlog);
      if quiet && s3.ModelName() == Some(model) && s3.generation == generation {
        BatchWrite(s3, model, generation, limit, backlog, embed);
      }
      assert Mem() == m;
      PutRowsAt(s3, batch, model, 0);
      n, failed := WriteBatch(batch, model, generation, built, quiet, s2, m, caller);
      Onward(embed, quiet, s2, Process(m, EmbedModel(model, generation, backlog, caller)),
        s3, Process(m, EmbedWrite(model, generation, batch, caller)), db.s, Process(Mem(), Embedded(Mem(), n, caller)));
    }

    // The generation, then the backlog.
    method ReadBatch(model: Name, limit: nat, ghost quiet: bool, ghost caller: Caller)
      returns (generation: nat, backlog: seq<(Id, string)>)
      requires Valid() && embedder == Some(model)
      modifies db
      ensures Valid() && Mem() == old(Mem())
      ensures StoreMoves(embed, old(db.s), db.s) && (quiet ==> db.s == old(db.s) && generation == db.s.generation)
      ensures generation <= db.s.generation && IsBacklog(db.s, model, limit, backlog)
      ensures Path(embed, quiet, old(db.s), Process(old(Mem()), EmbedGeneration(limit, caller)),
        db.s, Process(Mem(), AfterBacklog(Mem(), model, generation, backlog, caller)))
    {
      hide Path;
      ghost var s, m := db.s, Mem();
      db.Others(embed, quiet);
      ghost var s1 := db.s;
      generation := db.s.generation;
      db.Others(embed, quiet);
      MovesTransitive(embed, s, s1, db.s);
      KnowsStable(embed, s, db.s, m);
      assert Mem() == m;
      backlog := db.ReadBacklog(model, limit);
      ReadsOn(embed, quiet, s, s1, db.s, m, limit, backlog, caller);
    }

    // The guarded write; an embedder changed under the batch is followed.
    method WriteBatch(batch: seq<(Id, Vector)>, model: Name, generation: nat, built: bool, ghost quiet: bool,
                      ghost s: Store, ghost m: Memory, ghost caller: Caller)
      returns (n: nat, failed: bool)
      requires index.Valid() && Mem() == m && Knows(embed, s, m) && StoreMoves(embed, s, db.s)
      requires Honest(embed, db.s, Write(batch, model, generation))
      requires generation == db.s.generation ==> forall i :: 0 <= i < |batch| ==> batch[i].0 in db.s.turns
      modifies this, db
      ensures Valid() && (index == old(index) || fresh(index))
      ensures StoreMoves(embed, s, db.s) && (quiet ==> SameBut(old(db.s), db.s))
      ensures dense == old(dense) && seenGeneration == old(seenGeneration) && seenMaxId == old(seenMaxId)
      ensures n <= |batch| && !failed
      ensures quiet && WriteEmbeddings(old(db.s), batch, model, generation).1 == Written ==>
        Mem() == m && n == |batch| && db.s == PutRows(old(db.s), batch, model)
      ensures quiet && old(db.s.ModelName()) != Some(model) ==>
        && n == 0 && db.s == old(db.s) && Mem() == FollowIfChanged(m, db.s, built)
        && (dense ==> HeldName() == db.s.ModelName())
      ensures Path(embed, quiet, old(db.s), Process(m, EmbedWrite(model, generation, batch, caller)),
        db.s, Process(Mem(), Embedded(Mem(), n, caller)))
    {
      hide Path, Sound, Uniform, Evolves, KeepsName;
      ghost var s3 := db.s;
      MovesSound(embed, s, s3);
      WritesOn(embed, quiet, s3, m, model, generation, batch, caller);
      var outcome := WriteEmbeddings(db.s, batch, model, generation).1;
      db.Transact(embed, Write(batch, model, generation));
      PutRowsAt(s3, batch, model, 0);
      MovesTransitive(embed, s, s3, db.s);
      KnowsStable(embed, s, db.s, m);
      assert Mem() == m;
      hide StoreMoves, Honest, PutRows;
      n, failed := 0, false;
      match outcome {
        case Written => n := |batch|;
        case EmbedderChanged =>
          ghost var s4 := db.s;
          Follow(built, quiet);
          FollowsOn(embed, quiet, s4, db.s, m, EmbedFollow(caller), built);
          Onward(embed, quiet, s3, Process(m, EmbedWrite(model, generation, batch, caller)),
            s4, Process(m, EmbedFollow(caller)), db.s, Process(Mem(), Embedded(Mem(), 0, caller)));
          MovesTransitive(embed, s, s4, db.s);
        case StoreChanged =>
        case NoSuchTurn => assert false;
      }
    }

    ghost predicate UpToDate()
      reads this, index, db
      requires index.Valid()
    {
      Loaded(db.s, Mem())
    }

    // Pick up what other writers added: a moved generation empties the index and follows
    // the store's embedder; then one batch of the backlog, then the new vectors. A process
    // whose embedder was overwritten under its generation finds out when its batch is
    // refused: undisturbed, it ends with the store's embedder exactly when it had it, the
    // generation moved or a batch of its own is refused.
    method Refresh(ok: bool, built: bool, ghost quiet: bool, ghost after: After) returns (newTurns: nat)
      requires Valid()
      modifies this, index, db
      ensures Valid() && (index == old(index) || fresh(index)) && dense == old(dense)
      ensures StoreMoves(embed, old(db.s), db.s) && UpToDate()
      ensures old(db.s.generation) <= seenGeneration <= db.s.generation
      ensures quiet ==> seenGeneration == db.s.generation && SameBut(old(db.s), db.s)
      ensures quiet && old(seenGeneration) == db.s.generation ==>
        newTurns == |set id | id in old(db.s.turns) && id > old(seenMaxId)|
      ensures quiet && dense ==>
        (HeldName() == db.s.ModelName() <==>
          || old(HeldName()) == db.s.ModelName()
          || old(seenGeneration) != db.s.generation
          || old(Refused(EMBED_BATCH, ok)))
      ensures quiet && old(HeldName()) == db.s.ModelName() ==>
        held == old(held) && embedder == old(embedder) && index.dim == old(index.dim)
      ensures Path(embed, quiet, old(db.s), Process(old(Mem()), ReadGeneration(after)),
        db.s, Process(Mem(), AfterLoad(Mem(), db.s, after)))
    {
      hide StoreMoves, Knows, Loaded, Path, Load, FollowIfChanged, Sound, Uniform, BacklogOf;
      ghost var s, p := db.s, Process(Mem(), ReadGeneration(after));
      Reconcile(built, quiet, after);
      ghost var s1, p1 := db.s, Process(Mem(), ReadMaxId(after));
      newTurns := CountNew(quiet, after);
      ghost var s2, p2 := db.s, Process(Mem(), StartBatch(Mem(), EMBED_BATCH, Refreshing(after)));
      MovesTransitive(embed, s, s1, s2);
      EmbedAndLoad(ok, built, quiet, after);
      MovesTransitive(embed, s, s2, db.s);
      OnwardTwice(embed, quiet, s, p, s1, p1, s2, p2, db.s, Process(Mem(), AfterLoad(Mem(), db.s, after)));
      KnowsSeen(embed, db.s, Mem());
    }

    // The last part of a refresh: a batch and a load.
    method EmbedAndLoad(ok: bool, built: bool, ghost quiet: bool, ghost after: After)
      requires Valid()
      modifies this, index, db
      ensures Valid() && (index == old(index) || fresh(index))
      ensures dense == old(dense) && seenGeneration == old(seenGeneration)
      ensures StoreMoves(embed, old(db.s), db.s) && UpToDate() && (quiet ==> SameBut(old(db.s), db.s))
      ensures quiet && dense ==>
        (HeldName() == db.s.ModelName() <==> old(HeldName()) == db.s.ModelName() || old(Refused(EMBED_BATCH, ok)))
      ensures quiet && old(HeldName()) == db.s.ModelName() ==>
        held == old(held) && embedder == old(embedder) && index.dim == old(index.dim)
      ensures Path(embed, quiet, old(db.s), Process(old(Mem()), StartBatch(old(Mem()), EMBED_BATCH, Refreshing(after))),
        db.s, Process(Mem(), AfterLoad(Mem(), db.s, after)))
    {
      hide StoreMoves, Knows, Loaded, Path, Load, FollowIfChanged, Sound, Uniform, BacklogOf;
      ghost var s, p := db.s, Process(Mem(), StartBatch(Mem(), EMBED_BATCH, Refreshing(after)));
      var _, _ := EmbedOneBatch(EMBED_BATCH, ok, built, quiet, Refreshing(after));
      ghost var s1, p1 := db.s, Process(Mem(), Loading(after));
      LoadNewVectors(quiet, after);
      MovesTransitive(embed, s, s1, db.s);
      Onward(embed, quiet, s, p, s1, p1, db.s, Process(Mem(), AfterLoad(Mem(), db.s, after)));
    }

    // The first part of a refresh.
    method Reconcile(built: bool, ghost quiet: bool, ghost after: After)
      requires Valid()
      modifies this, index, db
      ensures Valid() && (index == old(index) || fresh(index)) && dense == old(dense)
      ensures StoreMoves(embed, old(db.s), db.s)
      ensures old(db.s.generation) <= seenGeneration <= db.s.generation
      ensures quiet ==> db.s == old(db.s) && seenGeneration == db.s.generation
      ensures seenGeneration == old(seenGeneration) ==> Mem() == old(Mem())
      ensures seenGeneration != old(seenGeneration) && dense ==> HeldName() == db.s.ModelName()
      ensures quiet && old(HeldName()) == db.s.ModelName() ==>
        held == old(held) && embedder == old(embedder) && index.dim == old(index.dim)
      ensures Path(embed, quiet, old(db.s), Process(old(Mem()), ReadGeneration(after)),
        db.s, Process(Mem(), ReadMaxId(after)))
    {
      hide Path;
      ghost var s, m := db.s, Mem();
      db.Others(embed, quiet) by { KnowsSound(embed, s, m); }
      ghost var s1 := db.s;
      KnowsStable(embed, s, s1, m);
      assert Mem() == m;
      SeesOn(embed, quiet, s, s1, m, after);
      var generation := db.s.generation;
      if generation != seenGeneration {
        SeenKnows(embed, s1, m);
        index.Clear();
        seenSerial, seenMaxId, seenGeneration, cache := 0, 0, generation, None;
        assert Mem() == SeeGeneration(m, generation);
        Follow(built, quiet);
        FollowsOn(embed, quiet, s1, db.s, SeeGeneration(m, generation), Following(after), built);
        Onward(embed, quiet, s, Process(m, ReadGeneration(after)), s1, Process(SeeGeneration(m, generation),
          Following(after)), db.s, Process(Mem(), ReadMaxId(after)));
        MovesTransitive(embed, s, s1, db.s);
      }
    }

    // How many turns came after the last one seen.
    method CountNew(ghost quiet: bool, ghost after: After) returns (newTurns: nat)
      requires Valid()
      modifies this`seenMaxId, db
      ensures Valid()
      ensures StoreMoves(embed, old(db.s), db.s) && (quiet ==> db.s == old(db.s))
      ensures quiet ==> newTurns == |set id | id in old(db.s.turns) && id > old(seenMaxId)|
      ensures Mem() == old(Mem()).(seenMaxId := seenMaxId)
      ensures Path(embed, quiet, old(db.s), Process(old(Mem()), ReadMaxId(after)),
        db.s, Process(Mem(), StartBatch(Mem(), EMBED_BATCH, Refreshing(after))))
    {
      hide Path, StoreMoves, Sound, Uniform;
      ghost var s, m := db.s, Mem();
      db.Others(embed, quiet);
      ghost var s1 := db.s;
      CountsOn(embed, quiet, s, s1, m, after);
      var maxId := MaxId(db.s.turns.Keys);
      newTurns := 0;
      if maxId > seenMaxId {
        MovesSound(embed, s, s1);
        db.Others(embed, quiet);
        MovesTransitive(embed, s, s1, db.s);
        newTurns := |set id | id in db.s.turns && id > seenMaxId|;
      } else {
        assert (set id | id in s1.turns && id > seenMaxId) == {};
      }
      KnowsStable(embed, s, db.s, m);
      SeenMaxIdIsFree(embed, db.s, m, maxId);
      seenMaxId := maxId;
      assert Mem() == m.(seenMaxId := maxId);
      ghost var q := Process(Mem(), StartBatch(Mem(), EMBED_BATCH, Refreshing(after)));
      Waits(embed, quiet, s1, q, db.s);
      Onward(embed, quiet, s, Process(m, ReadMaxId(after)), s1, q, db.s, q);
    }

    // Turns of the store's embedder still waiting for a vector.
    method CountBacklog(ghost quiet: bool) returns (left: nat)
      requires Valid()
      modifies db
      ensures Valid() && Mem() == old(Mem())
      ensures StoreMoves(embed, old(db.s), db.s) && (quiet ==> db.s == old(db.s))
      ensures left == if db.s.spec.Some? then |BacklogOf(db.s, db.s.spec.value.Name())| else 0
      ensures Path(embed, quiet, old(db.s), Process(old(Mem()), Idle), db.s, Process(Mem(), Idle))
    {
      hide Path;
      ghost var s, m := db.s, Mem();
      db.Others(embed, quiet);
      Waits(embed, quiet, s, Process(m, Idle), db.s);
      KnowsStable(embed, s, db.s, m);
      assert Mem() == m;
      left := if db.s.spec.Some? then |BacklogOf(db.s, db.s.spec.value.Name())| else 0;
    }

    // Batches until `limit` turns are done or one comes back empty. Undisturbed, with a
    // working embedder of the store's name, that is exactly as many as there are.
    method Drain(limit: nat, ok: bool, built: bool, ghost quiet: bool) returns (failed: bool)
      requires Valid()
      modifies this, db
      ensures Valid() && (index == old(index) || fresh(index)) && dense == old(dense)
      ensures seenGeneration == old(seenGeneration)
      ensures StoreMoves(embed, old(db.s), db.s) && (quiet ==> SameBut(old(db.s), db.s))
      ensures var model := old(embedder);
        quiet && ok && model.Some? && old(db.s.ModelName()) == model ==>
          && !failed && db.s.spec == old(db.s.spec)
          && |BacklogOf(db.s, model.value)|
               == |BacklogOf(old(db.s), model.value)| - Min(limit, |BacklogOf(old(db.s), model.value)|)
      ensures quiet && old(OtherName()) ==>
        && db.s == old(db.s) && Mem() == old(Mem())
        && (failed <==> !ok && limit > 0 && db.s.turns != map[])
      ensures Path(embed, quiet, old(db.s), Process(old(Mem()), StartDrain(old(Mem()), limit)),
        db.s, Process(Mem(), if failed then Idle else Loading(Stop)))
    {
      hide StoreMoves, Knows, BacklogOf, Sound, Uniform, Loaded, Path, StartDrain, StartBatch,
        Embedded, AfterBatch, Evolves, KeepsName;
      KnowsSound(embed, db.s, Mem());
      ghost var s, p := db.s, Process(Mem(), StartDrain(Mem(), limit));
      Waits(embed, quiet, s, p, s);
      ghost var model, waiting := embedder, if embedder.Some? then |BacklogOf(db.s, embedder.value)| else 0;
      ghost var exact := quiet && ok && embedder.Some? && s.ModelName() == embedder;
      ghost var refused, m := quiet && OtherName(), Mem();
      var done := 0;
      var more := true;
      while more && done < limit
        invariant Valid() && (index == old(index) || fresh(index)) && dense == old(dense) && done <= limit
        invariant seenGeneration == old(seenGeneration) && (quiet ==> SameBut(s, db.s))
        invariant StoreMoves(embed, s, db.s)
        invariant exact ==>
          && embedder == model && |BacklogOf(db.s, model.value)| == waiting - done
          && (!more ==> waiting == done)
        invariant Path(embed, quiet, s, p,
          db.s, Process(Mem(), if more then StartDrain(Mem(), limit - done) else Loading(Stop)))
        invariant refused ==>
          && db.s == s && Mem() == m && OtherName() && done == 0
          && (!more ==> ok || s.turns == map[])
        decreases more, limit - done
      {
        ghost var s1, p1 := db.s, Process(Mem(), StartDrain(Mem(), limit - done));
        var n, broken := DrainBatch(limit - done, ok, built, quiet);
        MovesTransitive(embed, s, s1, db.s);
        Onward(embed, quiet, s, p, s1, p1, db.s, Process(Mem(), Drained(Mem(), n, broken, limit - done)));
        if broken {
          return true;
        }
        more := n != 0;
        done := done + n;
      }
      failed := false;
      NothingLeft(Mem());
    }

    // The next batch of a drain that has `left` turns to go.
    method DrainBatch(left: nat, ok: bool, built: bool, ghost quiet: bool) returns (n: nat, failed: bool)
      requires Valid() && left > 0
      modifies this, db
      ensures Valid() && (index == old(index) || fresh(index)) && dense == old(dense)
      ensures seenGeneration == old(seenGeneration) && n <= left
      ensures StoreMoves(embed, old(db.s), db.s) && (quiet ==> SameBut(old(db.s), db.s))
      ensures var model := old(embedder);
        quiet && ok && model.Some? && old(db.s.ModelName()) == model ==>
          && !failed && embedder == model
          && |BacklogOf(db.s, model.value)| == |BacklogOf(old(db.s), model.value)| - n
          && (n == 0 ==> |BacklogOf(db.s, model.value)| == 0)
      ensures quiet && old(OtherName()) ==>
        && n == 0 && db.s == old(db.s) && Mem() == old(Mem())
        && (failed <==> !ok && db.s.turns != map[])
      ensures Path(embed, quiet, old(db.s), Process(old(Mem()), StartDrain(old(Mem()), left)),
        db.s, Process(Mem(), Drained(Mem(), n, failed, left)))
    {
      hide StoreMoves, Knows, BacklogOf, Sound, Uniform, Loaded, Path, FollowIfChanged;
      KnowsSound(embed, db.s, Mem());
      if OtherName() {
        OthersBacklog(db.s, embedder.value);
      }
      n, failed := EmbedOneBatch(Min(left, EMBED_BATCH), ok, built, quiet, Draining(left));
    }

    // Embed up to `limit` turns and load their vectors; answers how many still wait. With an
    // embedder of another name it either fails, because its model does, or answers as many
    // as before, and leaves everything as it was for the next call.
    method EmbedBacklog(limit: nat, ok: bool, built: bool, ghost quiet: bool) returns (left: nat, failed: bool)
      requires Valid()
      modifies this, index, db
      ensures Valid() && (index == old(index) || fresh(index)) && dense == old(dense)
      ensures StoreMoves(embed, old(db.s), db.s) && (quiet ==> SameBut(old(db.s), db.s))
        && (quiet && !failed ==> UpToDate())
      ensures var name := old(db.s.ModelName());
        quiet && ok && old(embedder).Some? && name.Some? && old(HeldName()) == name ==>
          var waiting := |BacklogOf(old(db.s), name.value)|;
          && !failed
          && left == waiting - (if old(embedder) == name then Min(limit, waiting) else 0)
          && (left == waiting <==> old(embedder) != name || limit == 0 || waiting == 0)
      ensures quiet && old(OtherName()) ==>
        && db.s == old(db.s) && OtherName()
        && (failed <==> !ok && limit > 0 && db.s.turns != map[])
        && (!failed && db.s.spec.Some? ==> left == |BacklogOf(db.s, db.s.spec.value.Name())|)
      ensures Path(embed, quiet, old(db.s), Process(old(Mem()), Idle), db.s, Process(Mem(), Idle))
    {
      hide StoreMoves, Knows, Loaded, BacklogOf, Path, Load, FollowIfChanged, SameBut, Sound, Uniform;
      ghost var s, p := db.s, Process(Mem(), Idle);
      failed := FollowAndDrain(limit, ok, built, quiet);
      if failed {
        return 0, true;
      }
      ghost var s1, p1 := db.s, Process(Mem(), Loading(Stop));
      LoadNewVectors(quiet, Stop);
      ghost var s2, p2 := db.s, Process(Mem(), Idle);
      left := CountBacklog(quiet);
      MovesTransitive(embed, s1, s2, db.s);
      MovesTransitive(embed, s, s1, db.s);
      OnwardTwice(embed, quiet, s, p, s1, p1, s2, p2, db.s, p2);
    }

    method FollowAndDrain(limit: nat, ok: bool, built: bool, ghost quiet: bool) returns (failed: bool)
      requires Valid()
      modifies this, db
      ensures Valid() && (index == old(index) || fresh(index)) && dense == old(dense)
      ensures StoreMoves(embed, old(db.s), db.s) && (quiet ==> SameBut(old(db.s), db.s))
      ensures var name := old(db.s.ModelName());
        quiet && ok && old(embedder).Some? && name.Some? && old(HeldName()) == name && old(embedder) == name ==>
          && !failed && db.s.spec == old(db.s.spec)
          && |BacklogOf(db.s, name.value)|
               == |BacklogOf(old(db.s), name.value)| - Min(limit, |BacklogOf(old(db.s), name.value)|)
      ensures quiet && old(OtherName()) ==>
        && db.s == old(db.s) && Mem() == old(Mem())
        && (failed <==> !ok && limit > 0 && db.s.turns != map[])
      ensures Path(embed, quiet, old(db.s), Process(old(Mem()), Idle),
        db.s, Process(Mem(), if failed then Idle else Loading(Stop)))
    {
      hide StoreMoves, Knows, Loaded, BacklogOf, Path, Load, FollowIfChanged, StartDrain, SameBut, Sound, Uniform;
      ghost var s, m := db.s, Mem();
      Follow(built, quiet);
      DrainsOn(embed, quiet, s, db.s, m, limit, built);
      ghost var s1, p1 := db.s, Process(Mem(), StartDrain(Mem(), limit));
      failed := Drain(limit, ok, built, quiet);
      MovesTransitive(embed, s, s1, db.s);
      Onward(embed, quiet, s, Process(m, Idle), s1, p1,
        db.s, Process(Mem(), if failed then Idle else Loading(Stop)));
    }

    // Embeds the inputs that are not blank, 64 at a time; a call that fails leaves the whole
    // batch without vectors and without a model.
    method PrepareVectors(inputs: seq<TurnInput>, works: nat -> bool)
      returns (vectors: seq<Option<Vector>>, model: Option<Name>)
      ensures model.Some? ==> model == embedder && vectors == EmbedInputs(embed, model.value, inputs)
      ensures model.None? ==> vectors == NoVectors(inputs)
      ensures model.None? && embedder.Some? ==> exists call :: !works(call)
    {
      vectors, model := NoVectors(inputs), None;
      if embedder.None? {
        return;
      }
      var pending := NotBlank(inputs);
      hide Filled, EmbedInputs, NoVectors;
      NothingFilled(embed, embedder.value, inputs, pending);
      var call, sent := 0, 0;
      while sent < |pending|
        invariant sent <= |pending| && Filled(embed, embedder.value, inputs, pending, sent, vectors)
      {
        if !works(call) {
          return NoVectors(inputs), None;
        }
        var chunk := Min(|pending|, sent + EMBED_BATCH);
        for k := sent to chunk
          invariant Filled(embed, embedder.value, inputs, pending, k, vectors)
        {
          FillOne(embed, embedder.value, inputs, pending, k, vectors);
          vectors := vectors[pending[k] := Some(embed(embedder.value, inputs[pending[k]].text))];
        }
        call, sent := call + 1, chunk;
      }
      model := embedder;
      AllFilled(embed, embedder.value, inputs, vectors);
    }

    // Turns land with their vectors when the embedder answers and is still the store's, and
    // without them otherwise; an ingest is not refused for want of a vector. `at` is the
    // store the commit found.
    method IngestBatch(inputs: seq<TurnInput>, works: nat -> bool, ok: bool, built: bool, ghost quiet: bool)
      returns (outcomes: seq<Outcome>, ghost vectors: seq<Option<Vector>>, ghost stamp: Option<Name>, ghost at: Store)
      requires Valid()
      modifies this, index, db
      ensures Valid() && (index == old(index) || fresh(index)) && dense == old(dense) && UpToDate()
      ensures StoreMoves(embed, old(db.s), db.s) && VectorsFit(embed, inputs, vectors, stamp)
      ensures if old(embedder).Some? && forall call :: works(call) then stamp == old(embedder)
        else stamp.Some? ==> stamp == old(embedder)
      ensures Committed(embed, old(db.s), at, Insert(inputs, vectors, stamp), db.s)
      ensures var accepted := if stamp == at.ModelName() then stamp else None;
        Reports(at, Commit(at, Insert(inputs, vectors, stamp)), inputs, vectors, accepted, outcomes)
      ensures quiet ==> at == old(db.s) && SameBut(Commit(at, Insert(inputs, vectors, stamp)), db.s)
      ensures Path(embed, quiet, old(db.s), Process(old(Mem()), Idle), db.s, Process(Mem(), Idle))
    {
      hide StoreMoves, Knows, Loaded, BacklogOf, Reports, Commit, Committed, Path, EmbedInputs, NoVectors;
      ghost var s, m := db.s, Mem();
      var prepared, model := PrepareVectors(inputs, works);
      vectors, stamp := prepared, model;
      ghost var p, p0 := Process(m, Idle), Process(m, IngestCommit(inputs, vectors, stamp));
      PreparesOn(embed, quiet, s, m, inputs, vectors, stamp);
      outcomes, at := CommitInputs(inputs, prepared, model, built, quiet);
      ghost var s1, p1 := db.s, Process(Mem(), ReadGeneration(Stop));
      Onward(embed, quiet, s, p, s, p0, s1, p1);
      var _ := Refresh(ok, built, quiet, Stop);
      Onward(embed, quiet, s, p, s1, p1, db.s, Process(Mem(), Idle));
      CommittedOn(embed, s, at, Insert(inputs, vectors, stamp), s1, db.s);
      MovesTransitive(embed, s, s1, db.s);
    }

    method CommitInputs(inputs: seq<TurnInput>, vectors: seq<Option<Vector>>, model: Option<Name>, built: bool,
                        ghost quiet: bool)
      returns (outcomes: seq<Outcome>, ghost at: Store)
      requires Valid() && VectorsFit(embed, inputs, vectors, model)
      modifies this, db
      ensures Valid() && (index == old(index) || fresh(index)) && dense == old(dense)
      ensures StoreMoves(embed, old(db.s), db.s)
      ensures Committed(embed, old(db.s), at, Insert(inputs, vectors, model), db.s)
      ensures var accepted := if model == at.ModelName() then model else None;
        Reports(at, Commit(at, Insert(inputs, vectors, model)), inputs, vectors, accepted, outcomes)
      ensures quiet ==> at == old(db.s) && db.s == Commit(at, Insert(inputs, vectors, model))
      ensures Path(embed, quiet, old(db.s), Process(old(Mem()), IngestCommit(inputs, vectors, model)),
        db.s, Process(Mem(), ReadGeneration(Stop)))
    {
      hide Path;
      ghost var s, m, tx := db.s, Mem(), Insert(inputs, vectors, model);
      KnowsSound(embed, s, m);
      db.Others(embed, quiet);
      at := db.s;
      CommitsOn(embed, quiet, s, at, m, inputs, vectors, model);
      MovesSound(embed, s, at);
      BatchReports(embed, at, inputs, vectors, model);
      var inserted := InsertBatch(db.s, inputs, vectors, model).1;
      outcomes := inserted.outcomes;
      db.Transact(embed, Insert(inputs, vectors, model));
      ghost var s2 := db.s;
      MovesSelf(embed, at, s2);
      assert Committed(embed, s, at, tx, s2);
      hide StoreMoves, Sound, Uniform, Knows, Reports, Commit, Committed;
      MovesTransitive(embed, s, at, s2);
      KnowsStable(embed, s, s2, m);
      assert Mem() == m;
      if inserted.embedderChanged {
        Follow(built, quiet);
        FollowsOn(embed, quiet, s2, db.s, m, IngestFollow, built);
        Onward(embed, quiet, s, Process(m, IngestCommit(inputs, vectors, model)), s2, Process(m, IngestFollow),
          db.s, Process(Mem(), ReadGeneration(Stop)));
        CommittedOn(embed, s, at, tx, s2, db.s);
        MovesTransitive(embed, s, s2, db.s);
      }
    }

    // A deletion, a clear of either kind or a rebuild: one transaction
    // over the store `at`, which takes away `gone` turns, then a refresh that has seen its
    // generation.
    method CommitAndRefresh(tx: Tx, ok: bool, built: bool, ghost quiet: bool) returns (gone: int, ghost at: Store)
      requires Valid() && (tx.Delete? || tx.DropVectors? || tx.Forget? || tx.Rederive?)
      modifies this, index, db
      ensures Valid() && (index == old(index) || fresh(index)) && dense == old(dense) && UpToDate()
      ensures StoreMoves(embed, old(db.s), db.s) && Committed(embed, old(db.s), at, tx, db.s)
      ensures gone == |at.turns| - |Commit(at, tx).turns|
      ensures Commit(at, tx).generation <= seenGeneration <= db.s.generation
      ensures quiet ==> at == old(db.s) && SameBut(Commit(at, tx), db.s) && seenGeneration == db.s.generation
      ensures Path(embed, quiet, old(db.s), Process(old(Mem()), Idle), db.s, Process(Mem(), Idle))
    {
      hide Path;
      ghost var s, m := db.s, Mem();
      KnowsSound(embed, s, m);
      db.Others(embed, quiet);
      at := db.s;
      MovesSound(embed, s, at);
      CommandOn(embed, quiet, s, at, m, tx);
      gone := |db.s.turns| - |Commit(db.s, tx).turns|;
      hide Commit;
      db.Transact(embed, tx);
      ghost var s2 := db.s;
      MovesSelf(embed, at, s2);
      assert Committed(embed, s, at, tx, s2);
      hide StoreMoves, Sound, Uniform, Knows, Loaded, Committed;
      MovesTransitive(embed, s, at, s2);
      KnowsStable(embed, s, s2, m);
      assert Mem() == m;
      var _ := Refresh(ok, built, quiet, Stop);
      Onward(embed, quiet, s, Process(m, Idle), s2, Process(m, ReadGeneration(Stop)), db.s, Process(Mem(), Idle));
      CommittedOn(embed, s, at, tx, s2, db.s);
      MovesTransitive(embed, s, s2, db.s);
    }

    // The deletion takes exactly the session's turns and counts them, and moves the
    // generation when there were any; after it none of its vectors is searched.
    method DeleteSession(session: string, ok: bool, built: bool, ghost quiet: bool)
      returns (removed: int, ghost at: Store)
      requires Valid()
      modifies this, index, db
      ensures Valid() && (index == old(index) || fresh(index)) && UpToDate()
      ensures Committed(embed, old(db.s), at, Delete(session), db.s)
      ensures removed == |set id | id in at.turns && at.turns[id].session == session|
      ensures var left := Commit(at, Delete(session));
        && left.turns == (map id | id in at.turns && at.turns[id].session != session :: at.turns[id])
        && left.generation == at.generation + (if removed > 0 then 1 else 0) <= seenGeneration
        && (forall id :: id in left.rows <==> id in at.rows && at.turns[id].session != session)
      ensures seenGeneration == db.s.generation ==> forall id :: id in index.Contents() ==> id in db.s.turns
      ensures quiet ==>
        && at == old(db.s) && db.s.turns == Commit(at, Delete(session)).turns
        && forall id :: id in index.Contents() ==> id in db.s.turns && db.s.turns[id].session != session
      ensures Path(embed, quiet, old(db.s), Process(old(Mem()), Idle), db.s, Process(Mem(), Idle))
    {
      hide Path;
      KnowsSound(embed, db.s, Mem());
      removed, at := CommitAndRefresh(Delete(session), ok, built, quiet);
      CommittedSound(embed, old(db.s), at, Delete(session), db.s);
      SearchesOnlyTurns(embed, db.s, Mem());
      hide Committed, Knows, StoreMoves, Commit;
      DeletedTurns(embed, at, session);
    }

    // Forget everything but the embedder: while the new generation stands, no turn or
    // vector from before is there.
    method ClearMemory(ok: bool, built: bool, ghost quiet: bool) returns (ghost at: Store)
      requires Valid()
      modifies this, index, db
      ensures Valid() && (index == old(index) || fresh(index)) && UpToDate()
      ensures Committed(embed, old(db.s), at, Forget, db.s)
      ensures at.generation + 1 <= seenGeneration <= db.s.generation
      ensures db.s.generation == at.generation + 1 ==>
        forall id :: id in db.s.rows ==> db.s.rows[id].serial >= at.nextSerial
      ensures quiet ==>
        && at == old(db.s) && db.s.turns == map[] && db.s.rows == map[] && index.Contents() == map[]
        && db.s.spec == at.spec && db.s.generation == at.generation + 1
      ensures Path(embed, quiet, old(db.s), Process(old(Mem()), Idle), db.s, Process(Mem(), Idle))
    {
      hide Path;
      var _, found := CommitAndRefresh(Forget, ok, built, quiet);
      at := found;
      DroppedAll(embed, old(db.s), at, Forget, db.s);
      SearchesOnlyTurns(embed, db.s, Mem());
      if quiet {
        assert forall id :: id !in db.s.rows && id !in index.Contents();
        assert db.s.rows == map[];
      }
    }

    // Change the store's embedder, once the new one has been built and probed. A spec of
    // the model in use keeps the vectors; any other drops them with a new generation. What
    // is in use is read first, from the store `found`; the change is committed over `at`,
    // and an update is refused when the embedder has another name by then.
    method SetEmbedder(spec: Spec, length: nat, ok: bool, answers: bool, built: bool, ghost quiet: bool)
      returns (done: bool, kept: bool, ghost found: Store, ghost at: Store)
      requires Valid()
      modifies this, index, db
      ensures Valid() && (index == old(index) || fresh(index))
      ensures StoreMoves(embed, old(db.s), db.s) && StoreMoves(embed, old(db.s), found)
      ensures var probed := Probe(spec, length);
        done <==>
          && ok && probed.Some?
          && (found.ModelName() == Some(probed.value.Name()) ==> at.ModelName() == found.ModelName())
      ensures !done ==> Mem() == old(Mem()) && (quiet ==> db.s == old(db.s))
      ensures done ==>
        var probed := Probe(spec, length).value;
        && dense && UpToDate()
        && (kept <==> found.ModelName() == Some(probed.Name()))
        && Committed(embed, found, at, if kept then Update(probed) else Switch(probed), db.s)
        && Replaced(at, Some(probed), kept, db.s)
      ensures quiet ==> found == at == old(db.s)
      ensures quiet && done ==>
        && db.s.spec == Probe(spec, length) && db.s.turns == at.turns
        && db.s.generation == at.generation + (if kept then 0 else 1)
        && (forall id :: id in db.s.rows ==> db.s.rows[id].model == Probe(spec, length).value.Name())
      ensures Path(embed, quiet, old(db.s), Process(old(Mem()), Idle), db.s, Process(Mem(), Idle))
    {
      hide StoreMoves, Sound, Uniform, Knows, Loaded, Probe, Committed, Replaced, Path;
      ghost var s, m := db.s, Mem();
      KnowsSound(embed, s, m);
      db.Others(embed, quiet);
      found, at := db.s, db.s;
      MovesSound(embed, s, found);
      KnowsStable(embed, s, found, m);
      assert Mem() == m;
      BeginsOn(embed, quiet, s, found, m, Command.SetEmbedder(spec), ok, length);
      kept := false;
      var probed := Probe(spec, length);
      if !ok || probed.None? {
        done := false;
        return;
      }
      kept := db.s.ModelName() == Some(probed.value.Name());
      var tx := if kept then Update(probed.value) else Switch(probed.value);
      done, at := Adopt(tx, probed.value, answers, built, quiet);
      Onward(embed, quiet, s, Process(m, Idle), found, Process(m, Adopting(tx, probed.value)),
        db.s, Process(Mem(), Idle));
      MovesTransitive(embed, s, found, db.s);
      KnowsUniform(embed, db.s, Mem());
      if done {
        AdoptReplaces(embed, found, at, tx, probed.value, db.s);
      }
    }

    // Drop every vector and make them again, once the store's embedder has been built and
    // probed; with no embedder, or one that fails, nothing happens.
    method Reembed(length: nat, ok: bool, answers: bool, built: bool, ghost quiet: bool)
      returns (done: bool, ghost found: Store, ghost at: Store)
      requires Valid()
      modifies this, index, db
      ensures Valid() && (index == old(index) || fresh(index))
      ensures StoreMoves(embed, old(db.s), db.s) && StoreMoves(embed, old(db.s), found)
      ensures done <==> ok && found.spec.Some? && Probe(found.spec.value, length).Some?
      ensures !done ==> Mem() == old(Mem()) && (quiet ==> db.s == old(db.s))
      ensures done ==>
        && dense && UpToDate()
        && Committed(embed, found, at, DropVectors, db.s) && Replaced(at, at.spec, false, db.s)
      ensures quiet ==> found == at == old(db.s)
      ensures quiet && done ==>
        db.s.spec == at.spec && db.s.turns == at.turns && db.s.generation == at.generation + 1
      ensures Path(embed, quiet, old(db.s), Process(old(Mem()), Idle), db.s, Process(Mem(), Idle))
    {
      hide StoreMoves, Sound, Uniform, Knows, Loaded, Probe, Committed, Replaced, Path;
      ghost var s, m := db.s, Mem();
      KnowsSound(embed, s, m);
      db.Others(embed, quiet);
      found, at := db.s, db.s;
      MovesSound(embed, s, found);
      KnowsStable(embed, s, found, m);
      assert Mem() == m;
      BeginsOn(embed, quiet, s, found, m, Command.Reembed, ok, length);
      done := false;
      if db.s.spec.None? || !ok {
        return;
      }
      var probed := Probe(db.s.spec.value, length);
      if probed.None? {
        return;
      }
      done, at := Adopt(DropVectors, probed.value, answers, built, quiet);
      Onward(embed, quiet, s, Process(m, Idle), found, Process(m, Reembedding(probed.value)),
        db.s, Process(Mem(), Idle));
      MovesTransitive(embed, s, found, db.s);
      CommittedKeepsSpec(embed, found, at, DropVectors, db.s);
      AdoptReplaces(embed, found, at, DropVectors, probed.value, db.s);
    }

    // Commit the change over the store `at`, hold the new embedder, refresh. An update is
    // refused when the embedder on record has another name by then, and the process stays
    // as it was.
    method Adopt(tx: Tx, spec: Spec, ok: bool, built: bool, ghost quiet: bool) returns (done: bool, ghost at: Store)
      requires Valid() && (tx == Update(spec) || tx == Switch(spec) || (tx == DropVectors && db.s.spec.Some?))
      modifies this, index, db
      ensures Valid() && (index == old(index) || fresh(index))
      ensures StoreMoves(embed, old(db.s), db.s)
      ensures done <==> (tx.Update? ==> at.ModelName() == Some(spec.Name()))
      ensures !done ==> Mem() == old(Mem())
      ensures done ==> dense && UpToDate() && Committed(embed, old(db.s), at, tx, db.s)
      ensures quiet ==> at == old(db.s) && SameBut(Commit(at, tx), db.s) && (!done ==> db.s == at)
      ensures Path(embed, quiet, old(db.s), Process(old(Mem()), Adopting(tx, spec)), db.s, Process(Mem(), Idle))
    {
      hide StoreMoves, Sound, Uniform, Knows, Loaded, Path;
      ghost var s, m := db.s, Mem();
      KnowsSound(embed, s, m);
      db.Others(embed, quiet);
      at := db.s;
      MovesSound(embed, s, at);
      KnowsStable(embed, s, at, m);
      MovesKeepSpec(embed, s, at);
      assert Mem() == m;
      var refused := tx.Update? && !UpdateSpec(db.s, spec).1;
      AdoptKnows(embed, at, m, tx, spec);
      AdoptsOn(embed, quiet, s, at, m, tx, spec);
      assert refused ==> Commit(at, tx) == at;
      db.Transact(embed, tx);
      ghost var s2 := db.s;
      MovesSelf(embed, at, s2);
      assert Committed(embed, s, at, tx, s2);
      MovesTransitive(embed, s, at, s2);
      if refused {
        done := false;
        return;
      }
      Install(spec, Some(spec.Name()));
      dense := true;
      assert Mem() == Protocol.Install(m, spec, Some(spec.Name())).(dense := true);
      ghost var p2 := Process(Mem(), ReadGeneration(Stop));
      var _ := Refresh(ok, built, quiet, Stop);
      Onward(embed, quiet, s, Process(m, Adopting(tx, spec)), s2, p2, db.s, Process(Mem(), Idle));
      CommittedOn(embed, s, at, tx, s2, db.s);
      MovesTransitive(embed, s, s2, db.s);
      done := true;
    }

    // Open the dense view over a file that has an embedder: follow it, hold it with a model
    // built under the name asked for when that passes for the same, or switch. What is on
    // record is read from the store `found`. Undisturbed, the process embeds under another
    // name than the store's exactly when the same model was asked for in another length.
    method OpenDense(request: Request, allowSwitch: bool, ok: bool, length: nat, answers: bool, built: bool,
                     ghost quiet: bool)
      returns (done: bool, ghost found: Store)
      requires Valid() && !dense && db.s.spec.Some?
      modifies this, index, db
      ensures Valid() && (index == old(index) || fresh(index))
      ensures StoreMoves(embed, old(db.s), found) && StoreMoves(embed, found, db.s) && found.spec.Some?
      ensures done <==>
        || request.Auto?
        || (ok && (found.spec.value.SameModel(request.spec) || (allowSwitch && Probe(request.spec, length).Some?)))
      ensures !done ==> Mem() == old(Mem())
      ensures done ==> dense && UpToDate()
      ensures quiet && done ==>
        && found == old(db.s)
        && (request.Auto? || found.spec.value.SameModel(request.spec) ==> SameBut(found, db.s))
        && (OtherName() <==>
          && request.Ask? && found.spec.value.SameModel(request.spec)
          && request.spec.Dim().Some? && request.spec.Dim() != found.spec.value.Dim())
      ensures Path(embed, quiet, old(db.s), Process(old(Mem()).(dense := true), Unopened(request, allowSwitch)), db.s,
        if done then Process(Mem(), Idle) else Process(old(Mem()).(dense := true), Closed))
    {
      hide StoreMoves, Sound, Uniform, Knows, Loaded, Path, Commit;
      ghost var s, m := db.s, Mem();
      ghost var d := m.(dense := true);
      KnowsSound(embed, s, m);
      db.Others(embed, quiet);
      found := db.s;
      MovesSelf(embed, s, found);
      MovesKeepSpec(embed, s, found);
      KnowsStable(embed, s, found, m);
      assert Mem() == m;
      OpensOn(embed, quiet, s, found, d, request, allowSwitch, ok, length);
      ghost var p, p1 := Process(d, Unopened(request, allowSwitch)),
        OpenWith(d, found, request, allowSwitch, ok, length);
      var stored := db.s.spec.value;
      match request {
        case Auto =>
          Hold(stored, if ok then Some(stored.Name()) else None);
        case Ask(spec) =>
          var probed := Probe(spec, length);
          if stored.SameModel(spec) {
            if !ok {
              return false, found;
            }
            Hold(stored, Some(if spec.Dim().None? then stored.Name() else spec.Name()));
          } else if allowSwitch && ok && probed.Some? {
            OpenSwitched(probed.value, quiet);
            Onward(embed, quiet, s, p, found, p1, db.s, Process(Mem(), ReadGeneration(Stop)));
          } else {
            return false, found;
          }
      }
      ghost var s2, p2 := db.s, Process(Mem(), ReadGeneration(Stop));
      var _ := Refresh(answers, built, quiet, Stop);
      MovesTransitive(embed, found, s2, db.s);
      Onward(embed, quiet, s, p, s2, p2, db.s, Process(Mem(), Idle));
      done := true;
    }

    method Hold(spec: Spec, embedder: Option<Name>)
      requires Valid() && db.s.spec.Some?
      modifies this
      ensures Valid() && fresh(index)
      ensures Mem() == Protocol.Install(old(Mem()), spec, embedder).(dense := true)
    {
      OpensKnows(embed, db.s, Mem(), spec, embedder);
      Install(spec, embedder);
      dense := true;
    }

    method OpenSwitched(spec: Spec, ghost quiet: bool)
      requires Valid() && db.s.spec.Some?
      modifies this, db
      ensures Valid() && fresh(index) && StoreMoves(embed, old(db.s), db.s)
      ensures Mem() == Protocol.Install(old(Mem()), spec, Some(spec.Name())).(dense := true)
      ensures quiet ==> db.s == Commit(old(db.s), Switch(spec)) && db.s.spec == Some(spec)
      ensures Path(embed, quiet, old(db.s), Process(old(Mem()).(dense := true), OpenSwitching(spec)),
        db.s, Process(Mem(), ReadGeneration(Stop)))
    {
      hide StoreMoves, Sound, Uniform, Knows, Loaded, Path;
      ghost var s, m := db.s, Mem();
      KnowsSound(embed, s, m);
      db.Others(embed, quiet);
      ghost var s1 := db.s;
      MovesSound(embed, s, s1);
      KnowsStable(embed, s, s1, m);
      AdoptKnows(embed, s1, m, Switch(spec), spec);
      SwitchesOn(embed, quiet, s, s1, m.(dense := true), spec);
      db.Transact(embed, Switch(spec));
      MovesTransitive(embed, s, s1, db.s);
      assert Mem() == m;
      Install(spec, Some(spec.Name()));
      dense := true;
    }

    // The 2-D map, cached under a key that names everything it was computed from.
    // Undisturbed, what is answered is what a computation over the store gives now, from
    // the cache or not, as long as the index has the length of its embedder's vectors.
    method Project(opts: ProjectionOptions, ok: bool, built: bool, ghost quiet: bool)
      returns (answer: Option<Projection>)
      requires Valid()
      modifies this, index, db
      ensures Valid() && (index == old(index) || fresh(index))
      ensures StoreMoves(embed, old(db.s), db.s)
      ensures answer.None? <==> held.None?
      ensures quiet && held.Some? && Dimensioned(Mem()) ==>
        answer == Some(Compute(db.s, held.value.Name(), index.dim, opts))
      ensures Path(embed, quiet, old(db.s), Process(old(Mem()), Idle), db.s, Process(Mem(), Idle))
    {
      hide StoreMoves, Knows, Complete, Path, Sound, Uniform, Evolves, KeepsName;
      ghost var s, p, p0, after := db.s, Process(Mem(), Idle), Process(Mem(), ReadGeneration(After.Project(opts))),
        After.Project(opts);
      BeginsOn(embed, quiet, s, s, Mem(), Command.Refresh(after), true, 0);
      var _ := Refresh(ok, built, quiet, after);
      ghost var s1, m := db.s, Mem();
      ghost var p1 := Process(m, AfterLoad(m, s1, after));
      Onward(embed, quiet, s, p, s, p0, s1, p1);
      if held.None? {
        return None;
      }
      db.Others(embed, quiet) by { KnowsSound(embed, s1, m); }
      ghost var s2 := db.s;
      var generation := db.s.generation;
      db.Others(embed, quiet) by { MovesSound(embed, s1, s2); }
      ghost var s3 := db.s;
      MovesTransitive(embed, s1, s2, s3);
      var key := ProjectionKey(generation, MaxId(db.s.turns.Keys), seenSerial, held.value.Name(), index.dim, opts);
      KnowsStable(embed, s1, s3, m);
      assert Mem() == m;
      if cache.Some? && cache.value.0 == key {
        answer := Some(cache.value.1);
        CachedIsComputed(embed, s3, m, key);
        ProjectsOn(embed, quiet, s1, s2, s3, s3, m, opts, key);
        Onward(embed, quiet, s, p, s1, p1, s3, Process(m, Idle));
        MovesTransitive(embed, s, s1, s3);
        return;
      }
      db.Others(embed, quiet) by { MovesSound(embed, s1, s3); }
      MovesTransitive(embed, s1, s3, db.s);
      MovesTransitive(embed, s, s1, db.s);
      KnowsStable(embed, s1, db.s, m);
      CachingKnows(embed, s1, s2, s3, db.s, m, key);
      var projection := Compute(db.s, held.value.Name(), index.dim, opts);
      cache := Some((key, projection));
      assert Mem() == m.(cache := Some((key, projection)));
      ProjectsOn(embed, quiet, s1, s2, s3, db.s, m, opts, key);
      Onward(embed, quiet, s, p, s1, p1, db.s, Process(Mem(), Idle));
      answer := Some(projection);
    }
  }
}
