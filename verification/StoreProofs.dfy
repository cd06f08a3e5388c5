/** What every transaction keeps, and how the store may move while a process is not looking. */
module StoreProofs {
  import opened Optional
  import opened Embedders
  import opened Stores

  // Each vector is its own model's embedding of the text of the turn that holds its id,
  // and the sequence numbers are distinct and behind the counter.
  ghost predicate Sound(embed: Embedding, s: Store) {
    && 1 <= s.nextSerial
    && (forall id :: id in s.rows ==>
          && id in s.turns
          && 1 <= s.rows[id].serial < s.nextSerial
          && s.rows[id].vec == embed(s.rows[id].model, s.turns[id].text))
    && DistinctSerials(s.rows)
  }

  ghost predicate DistinctSerials(rows: map<Id, Row>) {
    forall id, id' :: id in rows && id' in rows && rows[id].serial == rows[id'].serial ==> id == id'
  }

  // Every vector is the store's own embedder's.
  ghost predicate Uniform(s: Store) {
    forall id :: id in s.rows ==> s.ModelName() == Some(s.rows[id].model)
  }

  // How the store can differ from an earlier reading of it. While the generation stands,
  // turns and rows only arrive, and what arrives carries a later sequence number.
  ghost predicate Evolves(s: Store, t: Store) {
    && s.nextSerial <= t.nextSerial
    && s.generation <= t.generation
    && (s.generation == t.generation ==>
          && (forall id :: id in s.turns ==> id in t.turns && t.turns[id] == s.turns[id])
          && (forall id :: id in s.rows ==> id in t.rows)
          && (forall id :: id in t.rows ==>
                t.rows[id].serial >= s.nextSerial || (id in s.rows && s.rows[id] == t.rows[id])))
  }

  // While the generation stands and there are vectors, the embedder on record keeps its name.
  ghost predicate KeepsName(s: Store, t: Store) {
    s.rows != map[] && s.generation == t.generation ==> t.ModelName() == s.ModelName()
  }

  lemma EvolvesTransitive(s: Store, t: Store, u: Store)
    requires Evolves(s, t) && Evolves(t, u)
    ensures Evolves(s, u)
  {
  }

  datatype Tx =
    | Seed(spec: Spec)
    | Switch(spec: Spec)
    | Update(spec: Spec)
    | Insert(inputs: seq<TurnInput>, vectors: seq<Option<Vector>>, stamp: Option<Name>)
    | Write(batch: seq<(Id, Vector)>, model: Name, generation: nat)
    | DropVectors
    | Forget
    | Rederive
    | Delete(session: string)
    | Apply(notes: seq<TurnInput>, entitiesChanged: bool)
    | Undo(gone: set<Id>, entitiesChanged: bool)

  function Commit(s: Store, tx: Tx): Store {
    match tx
    case Seed(spec) => SeedEmbedder(s, spec)
    case Switch(spec) => SwitchEmbedder(s, spec)
    case Update(spec) => UpdateSpec(s, spec).0
    case Insert(inputs, vectors, model) => InsertBatch(s, inputs, vectors, model).0
    case Write(batch, model, generation) => WriteEmbeddings(s, batch, model, generation).0
    case DropVectors => ClearEmbeddings(s)
    case Forget => ClearMemory(s)
    case Rederive => Rebuild(s)
    case Delete(session) => DeleteSession(s, session)
    case Apply(notes, changed) => CurateApply(s, notes, changed)
    case Undo(gone, changed) => CurateUndo(s, gone, changed)
  }

  ghost predicate VectorsFit(embed: Embedding, inputs: seq<TurnInput>, vectors: seq<Option<Vector>>,
                             model: Option<Name>) {
    forall i :: 0 <= i < |inputs| && i < |vectors| && vectors[i].Some? && model.Some? ==>
      vectors[i].value == embed(model.value, inputs[i].text)
  }

  ghost predicate BatchFits(embed: Embedding, s: Store, batch: seq<(Id, Vector)>, model: Name) {
    forall i :: 0 <= i < |batch| && batch[i].0 in s.turns ==> batch[i].1 == embed(model, s.turns[batch[i].0].text)
  }

  // What a writer owes the store: the vectors it hands over came from its model, and those
  // of a batch fit the turns if the generation it read still stands.
  ghost predicate Honest(embed: Embedding, s: Store, tx: Tx) {
    match tx
    case Insert(inputs, vectors, model) => VectorsFit(embed, inputs, vectors, model)
    case Write(batch, model, generation) => generation == s.generation ==> BatchFits(embed, s, batch, model)
    case _ => true
  }

  // A seed over another embedder's vectors.
  predicate MixingSeed(s: Store, tx: Tx) {
    tx.Seed? && s.rows != map[] && s.ModelName() != Some(tx.spec.Name())
  }

  // --- inserting ----------------------------------------------------------

  // Add a row, or replace the one for `id`: what both writers do.
  function PutOne(s: Store, id: Id, model: Name, vec: Vector): Store {
    s.(rows := s.rows[id := Row(s.nextSerial, model, vec)], nextSerial := s.nextSerial + 1)
  }

  lemma PutOneKeeps(embed: Embedding, s: Store, id: Id, model: Name, vec: Vector)
    requires Sound(embed, s) && id in s.turns && vec == embed(model, s.turns[id].text)
    ensures Sound(embed, PutOne(s, id, model, vec)) && Evolves(s, PutOne(s, id, model, vec))
  {
    var t := PutOne(s, id, model, vec);
    assert forall k :: k in t.rows ==> k == id || (k in s.rows && t.rows[k] == s.rows[k]);
    assert DistinctSerials(t.rows);
  }

  lemma AddTurnKeeps(embed: Embedding, s: Store, id: Id, turn: Turn)
    requires Sound(embed, s) && id !in s.turns
    ensures var t := s.(turns := s.turns[id := turn]); Sound(embed, t) && Evolves(s, t)
  {
    var t := s.(turns := s.turns[id := turn]);
    forall k | k in t.rows
      ensures k in t.turns && t.rows[k].vec == embed(t.rows[k].model, t.turns[k].text)
    {
      assert k in s.rows && k != id;
    }
    assert DistinctSerials(t.rows);
  }

  lemma InsertOneKeeps(embed: Embedding, s: Store, input: TurnInput, vector: Option<Vector>, model: Option<Name>)
    requires Sound(embed, s)
    requires vector.Some? && model.Some? ==> vector.value == embed(model.value, input.text)
    ensures var t := InsertOne(s, input, vector, model).0;
      && Sound(embed, t) && Evolves(s, t) && t.spec == s.spec && t.generation == s.generation
      && (Uniform(s) && (model.None? || s.ModelName() == model) ==> Uniform(t))
  {
    hide Sound, Evolves, Uniform, HasUuid, ValidInput;
    if ValidInput(input) && !HasUuid(s, input.uuid) {
      var id := MaxId(s.turns.Keys) + 1;
      assert id !in s.turns.Keys;
      NewTurnKeeps(embed, s, id, Turn(input.uuid, input.session, input.speaker, input.text), vector, model);
    } else {
      EvolvesReflexive(s);
    }
  }

  lemma EvolvesReflexive(s: Store)
    ensures Evolves(s, s)
  {
  }

  lemma NewTurnKeeps(embed: Embedding, s: Store, id: Id, turn: Turn, vector: Option<Vector>, model: Option<Name>)
    requires Sound(embed, s) && id !in s.turns
    requires vector.Some? && model.Some? ==> vector.value == embed(model.value, turn.text)
    ensures var s1 := s.(turns := s.turns[id := turn]);
      var t := if vector.Some? && model.Some? then PutOne(s1, id, model.value, vector.value) else s1;
      && Sound(embed, t) && Evolves(s, t)
      && (Uniform(s) && (model.None? || s.ModelName() == model) ==> Uniform(t))
  {
    var s1 := s.(turns := s.turns[id := turn]);
    AddTurnKeeps(embed, s, id, turn);
    if vector.Some? && model.Some? {
      PutOneKeeps(embed, s1, id, model.value, vector.value);
      EvolvesTransitive(s, s1, PutOne(s1, id, model.value, vector.value));
    }
    hide Sound, Evolves;
  }

  lemma {:induction false} InsertAllKeeps(embed: Embedding, s: Store, inputs: seq<TurnInput>,
                                          vectors: seq<Option<Vector>>, model: Option<Name>)
    requires Sound(embed, s) && VectorsFit(embed, inputs, vectors, model)
    ensures var t := InsertAll(s, inputs, vectors, model).0;
      && Sound(embed, t) && Evolves(s, t) && t.spec == s.spec && t.generation == s.generation
      && (Uniform(s) && (model.None? || s.ModelName() == model) ==> Uniform(t))
    decreases |inputs|
  {
    if inputs != [] {
      var vector := if vectors == [] then None else vectors[0];
      var rest := if vectors == [] then [] else vectors[1..];
      var s1 := InsertOne(s, inputs[0], vector, model).0;
      InsertOneKeeps(embed, s, inputs[0], vector, model);
      assert VectorsFit(embed, inputs[1..], rest, model) by {
        forall i | 0 <= i < |inputs[1..]| && i < |rest| && rest[i].Some? && model.Some?
          ensures rest[i].value == embed(model.value, inputs[1..][i].text)
        {
          assert rest[i] == vectors[i + 1] && inputs[1..][i] == inputs[i + 1];
        }
      }
      InsertAllKeeps(embed, s1, inputs[1..], rest, model);
      EvolvesTransitive(s, s1, InsertAll(s1, inputs[1..], rest, model).0);
    }
  }

  // --- writing a batch ----------------------------------------------------

  lemma {:induction false} PutRowsKeeps(embed: Embedding, s: Store, batch: seq<(Id, Vector)>, model: Name)
    requires Sound(embed, s) && BatchFits(embed, s, batch, model)
    requires forall i :: 0 <= i < |batch| ==> batch[i].0 in s.turns
    ensures var t := PutRows(s, batch, model);
      && Sound(embed, t) && Evolves(s, t)
      && t.turns == s.turns && t.spec == s.spec && t.generation == s.generation
      && (Uniform(s) && s.ModelName() == Some(model) ==> Uniform(t))
    decreases |batch|
  {
    if batch != [] {
      var (id, vec) := batch[0];
      assert id in s.turns && vec == embed(model, s.turns[id].text);
      var s1 := PutOne(s, id, model, vec);
      PutOneKeeps(embed, s, id, model, vec);
      assert BatchFits(embed, s1, batch[1..], model);
      PutRowsKeeps(embed, s1, batch[1..], model);
      EvolvesTransitive(s, s1, PutRows(s1, batch[1..], model));
    }
  }

  // --- every transaction --------------------------------------------------

  lemma WithoutKeeps(embed: Embedding, s: Store, gone: set<Id>)
    requires Sound(embed, s)
    ensures Sound(embed, Without(s, gone)) && Evolves(s, Bump(Without(s, gone))) && Sound(embed, Bump(Without(s, gone)))
    ensures Uniform(s) ==> Uniform(Without(s, gone)) && Uniform(Bump(Without(s, gone)))
    ensures Without(s, gone).spec == s.spec
  {
  }

  lemma NoneWithout(s: Store, gone: set<Id>)
    requires gone == {}
    ensures Without(s, gone) == s
  {
    assert s.turns - gone == s.turns && s.rows - gone == s.rows;
  }

  lemma WriteKeeps(embed: Embedding, s: Store, batch: seq<(Id, Vector)>, model: Name, generation: nat)
    requires Sound(embed, s) && Honest(embed, s, Write(batch, model, generation))
    ensures var t := WriteEmbeddings(s, batch, model, generation).0;
      && Sound(embed, t) && Evolves(s, t) && t.spec == s.spec && t.generation == s.generation
        && (Uniform(s) ==> Uniform(t))
  {
    hide Sound, Evolves, Uniform, PutRows;
    EvolvesReflexive(s);
    if WriteEmbeddings(s, batch, model, generation).1 == Written {
      PutRowsKeeps(embed, s, batch, model);
    }
  }

  lemma InsertKeeps(embed: Embedding, s: Store, inputs: seq<TurnInput>, vectors: seq<Option<Vector>>,
                    stamp: Option<Name>)
    requires Sound(embed, s) && VectorsFit(embed, inputs, vectors, stamp)
    ensures var t := InsertBatch(s, inputs, vectors, stamp).0;
      && Sound(embed, t) && Evolves(s, t) && t.spec == s.spec && t.generation == s.generation
        && (Uniform(s) ==> Uniform(t))
  {
    hide Sound, Evolves, Uniform, InsertAll;
    InsertAllKeeps(embed, s, inputs, vectors, if stamp.Some? && s.ModelName() != stamp then None else stamp);
  }

  lemma ApplyKeeps(embed: Embedding, s: Store, notes: seq<TurnInput>, entitiesChanged: bool)
    requires Sound(embed, s)
    ensures var t := CurateApply(s, notes, entitiesChanged);
      && Sound(embed, t) && Evolves(s, t) && t.spec == s.spec && (Uniform(s) ==> Uniform(t))
  {
    hide InsertAll;
    InsertAllKeeps(embed, s, notes, [], None);
  }

  lemma RemovalKeeps(embed: Embedding, s: Store, tx: Tx)
    requires Sound(embed, s) && (tx.Delete? || tx.Undo?)
    ensures var t := Commit(s, tx);
      && Sound(embed, t) && Evolves(s, t) && t.spec == s.spec && (Uniform(s) ==> Uniform(t))
  {
    hide Sound, Evolves, Uniform, Without;
    EvolvesReflexive(s);
    var gone :=
      if tx.Undo? then tx.gone * s.turns.Keys
      else (set id | id in s.turns && s.turns[id].session == tx.session);
    WithoutKeeps(embed, s, gone);
    if gone == {} {
      NoneWithout(s, gone);
    }
  }

  // Whatever is committed honestly, by anyone, every vector stays its own model's
  // embedding of its turn's text, and readers see the store evolve.
  lemma CommitKeepsSound(embed: Embedding, s: Store, tx: Tx)
    requires Sound(embed, s) && Honest(embed, s, tx)
    ensures Sound(embed, Commit(s, tx)) && Evolves(s, Commit(s, tx))
  {
    match tx
    case Insert(inputs, vectors, model) => InsertKeeps(embed, s, inputs, vectors, model);
    case Write(batch, model, generation) => WriteKeeps(embed, s, batch, model, generation);
    case Apply(notes, changed) => ApplyKeeps(embed, s, notes, changed);
    case Delete(_) => RemovalKeeps(embed, s, tx);
    case Undo(_, _) => RemovalKeeps(embed, s, tx);
    case _ => RecordKeeps(embed, s, tx);
  }

  // The transactions that touch no turn and add no vector, or take everything away.
  lemma RecordKeeps(embed: Embedding, s: Store, tx: Tx)
    requires Sound(embed, s) && !tx.Insert? && !tx.Write? && !tx.Apply? && !tx.Delete? && !tx.Undo?
    ensures Sound(embed, Commit(s, tx)) && Evolves(s, Commit(s, tx))
  {
  }

  // Barring such a seed, the store never mixes two models' vectors, and the embedder of the
  // vectors there are stays on record while the generation stands.
  lemma CommitKeepsUniform(embed: Embedding, s: Store, tx: Tx)
    requires Sound(embed, s) && Honest(embed, s, tx) && Uniform(s) && !MixingSeed(s, tx)
    ensures Uniform(Commit(s, tx)) && KeepsName(s, Commit(s, tx))
  {
    match tx
    case Insert(inputs, vectors, model) => InsertKeeps(embed, s, inputs, vectors, model);
    case Write(batch, model, generation) => WriteKeeps(embed, s, batch, model, generation);
    case Apply(notes, changed) => ApplyKeeps(embed, s, notes, changed);
    case Delete(_) => RemovalKeeps(embed, s, tx);
    case Undo(_, _) => RemovalKeeps(embed, s, tx);
    case _ =>
  }

  // Seeding leaves every vector the recorded embedder's exactly when there are none or the
  // name is the one on record,
  lemma SeedKeepsUniformExactlyWhen(s: Store, spec: Spec)
    requires Uniform(s)
    ensures Uniform(SeedEmbedder(s, spec)) <==> s.rows == map[] || s.ModelName() == Some(spec.Name())
  {
    if s.rows != map[] {
      var id :| id in s.rows;
      assert SeedEmbedder(s, spec).rows[id] == s.rows[id];
    }
  }

  // and no other transaction ever leaves a vector that is not.
  lemma CommitKeepsUniformExactlyWhen(embed: Embedding, s: Store, tx: Tx)
    requires Sound(embed, s) && Honest(embed, s, tx) && Uniform(s)
    ensures Uniform(Commit(s, tx)) <==> !MixingSeed(s, tx)
  {
    if tx.Seed? {
      SeedKeepsUniformExactlyWhen(s, tx.spec);
    } else {
      CommitKeepsUniform(embed, s, tx);
    }
  }

  // The vectors of the store's model carry over from an earlier reading of the same
  // generation in which every one of them was already seen.
  lemma NothingNewMeansNothingChanged(s: Store, t: Store, cursor: nat)
    requires Evolves(s, t) && s.generation == t.generation && cursor < s.nextSerial
    requires forall id :: id in t.rows ==> t.rows[id].serial <= cursor
    ensures t.rows == s.rows
    ensures forall id :: id in s.rows && id in s.turns ==> id in t.turns && t.turns[id] == s.turns[id]
  {
    forall id | id in t.rows ensures id in s.rows && s.rows[id] == t.rows[id] {}
  }
}
