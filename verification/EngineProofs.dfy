/** What the methods of a process rely on, stated on values of its memory and of the store. */
module EngineProofs {
  import opened Optional
  import opened Embedders
  import opened Lists
  import opened Stores
  import opened StoreProofs
  import opened Protocol
  import opened ProtocolProofs
  import opened ProtocolTheorems
  import opened Databases

  // --- facts about commits and about what a process remembers --------------

  lemma MovesTransitive(embed: Embedding, s: Store, t: Store, u: Store)
    requires StoreMoves(embed, s, t) && StoreMoves(embed, t, u)
    ensures StoreMoves(embed, s, u)
  {
    EvolvesTransitive(s, t, u);
  }

  // What an idle process knows: what it remembers is true of the store.
  ghost predicate Knows(embed: Embedding, s: Store, m: Memory) {
    Sized(embed) && Sound(embed, s) && Uniform(s) && Remembers(s, Process(m, Idle))
  }

  lemma KnowsStable(embed: Embedding, s: Store, t: Store, m: Memory)
    requires Knows(embed, s, m) && StoreMoves(embed, s, t)
    ensures Knows(embed, t, m)
  {
    Settle(embed, s, t, Process(m, Idle));
  }

  // Short of that: nothing is said of the embedder, not even that there is one on record.
  ghost predicate Half(embed: Embedding, s: Store, m: Memory) {
    Sized(embed) && Sound(embed, s) && Uniform(s) && Data(s, m)
  }

  lemma HalfStable(embed: Embedding, s: Store, t: Store, m: Memory)
    requires Half(embed, s, m) && StoreMoves(embed, s, t)
    ensures Half(embed, t, m)
  {
    DataStable(embed, s, t, m);
  }

  lemma KnowsHalf(embed: Embedding, s: Store, m: Memory)
    requires Knows(embed, s, m)
    ensures Half(embed, s, m) && (m.dense ==> s.spec.Some?)
  {
  }

  // Comparing embedders leaves the store's own held.
  lemma FollowKnows(embed: Embedding, s: Store, m: Memory, built: bool)
    requires Half(embed, s, m)
    ensures var q := FollowIfChanged(m, s, built);
      Half(embed, s, q) && (m.dense ==> q.HeldName() == s.ModelName())
        && ((m.dense ==> s.spec.Some?) ==> Knows(embed, s, q))
  {
    FollowKeeps(embed, s, m, built);
  }

  lemma KnowsSound(embed: Embedding, s: Store, m: Memory)
    requires Knows(embed, s, m)
    ensures Sound(embed, s) && Uniform(s) && StoreMoves(embed, s, s)
  {
  }

  // An undisturbed batch of the store's own model is written.
  lemma BatchWrite(s: Store, model: Name, generation: nat, limit: nat, backlog: seq<(Id, string)>, embed: Embedding)
    requires IsBacklog(s, model, limit, backlog) && s.ModelName() == Some(model) && s.generation == generation
    ensures WriteEmbeddings(s, EmbedAll(embed, model, backlog), model, generation).1 == Written
  {
  }

  // The index holds every vector of the embedder the process holds, and the cursor has
  // passed them.
  ghost predicate Complete(s: Store, m: Memory) {
    && m.held.Some?
    && m.index == VectorsOf(s, m.held.value.Name())
    && AllSeen(s, m.held.value.Name(), m.seenSerial)
  }

  // The index holds every vector of the store exactly when there are none or the embedder
  // held is the one on record and the index has its vectors' length.
  ghost predicate HoldsAllExactlyWhen(s: Store, m: Memory) {
    s.spec.Some? ==>
      var name := s.spec.value.Name();
      m.index == VectorsOf(s, name) <==>
        s.rows == map[] || (m.HeldName() == s.ModelName() && m.dim == DimOf(name) != 0)
  }

  // What a load has done, unless the store has moved on from the generation seen.
  ghost predicate Loaded(s: Store, m: Memory) {
    m.seenGeneration == s.generation ==>
      (Dimensioned(m) ==> Complete(s, m)) && HoldsAllExactlyWhen(s, m)
  }

  lemma LoadKnows(embed: Embedding, s: Store, m: Memory)
    requires Knows(embed, s, m)
    ensures Knows(embed, s, Load(m, s)) && Loaded(s, Load(m, s))
  {
    LoadKeeps(embed, s, m);
    if m.seenGeneration == s.generation {
      if s.spec.Some? {
        LoadCompletes(embed, s, m);
      }
      if Dimensioned(m) {
        LoadedAll(embed, s, m);
      }
    }
  }

  lemma SeenKnows(embed: Embedding, s: Store, m: Memory)
    requires Knows(embed, s, m)
    ensures Knows(embed, s, SeeGeneration(m, s.generation))
  {
    SeeGenerationKeeps(s, m);
  }

  lemma MovesKeepSpec(embed: Embedding, s: Store, t: Store)
    requires StoreMoves(embed, s, t)
    ensures s.spec.Some? ==> t.spec.Some?
  {
  }

  lemma SeenMaxIdIsFree(embed: Embedding, s: Store, m: Memory, maxId: Id)
    requires Knows(embed, s, m)
    ensures Knows(embed, s, m.(seenMaxId := maxId))
  {
  }

  // A batch read under a generation fits the store that still has it.
  lemma BatchStillFits(embed: Embedding, s: Store, t: Store, model: Name, limit: nat, generation: nat,
                       backlog: seq<(Id, string)>)
    requires StoreMoves(embed, s, t) && IsBacklog(s, model, limit, backlog) && generation <= s.generation
    ensures Honest(embed, t, Write(EmbedAll(embed, model, backlog), model, generation))
    ensures generation == t.generation ==> forall i :: 0 <= i < |backlog| ==> backlog[i].0 in t.turns
  {
  }

  // Under a name the store does not record, every turn waits.
  lemma OthersBacklog(s: Store, model: Name)
    requires Uniform(s)
    ensures s.ModelName() != Some(model) ==> BacklogOf(s, model) == s.turns.Keys
    ensures s.ModelName() != Some(model) ==> (BacklogOf(s, model) == {} <==> s.turns == map[])
  {
    assert forall id :: id in s.rows ==> s.ModelName() == Some(s.rows[id].model);
  }

  // --- writers ------------------------------------------------------------

  // Between `s` and `t` the transaction was committed, over the store `at`; what else moved
  // the store was other processes.
  ghost predicate Committed(embed: Embedding, s: Store, at: Store, tx: Tx, t: Store) {
    StoreMoves(embed, s, at) && StoreMoves(embed, at, Commit(at, tx)) && StoreMoves(embed, Commit(at, tx), t)
  }

  lemma CommittedOn(embed: Embedding, s: Store, at: Store, tx: Tx, t: Store, u: Store)
    requires Committed(embed, s, at, tx, t) && StoreMoves(embed, t, u)
    ensures Committed(embed, s, at, tx, u)
  {
    MovesTransitive(embed, Commit(at, tx), t, u);
  }

  lemma CommittedSound(embed: Embedding, s: Store, at: Store, tx: Tx, t: Store)
    requires Committed(embed, s, at, tx, t)
    ensures Sound(embed, at) && Uniform(at) && Sound(embed, Commit(at, tx))
      && at.generation <= Commit(at, tx).generation
  {
  }

  lemma CommittedKeepsSpec(embed: Embedding, s: Store, at: Store, tx: Tx, t: Store)
    requires Committed(embed, s, at, tx, t)
    ensures s.spec.Some? ==> at.spec.Some?
  {
  }

  lemma MovesSelf(embed: Embedding, s: Store, t: Store)
    requires StoreMoves(embed, s, t)
    ensures StoreMoves(embed, t, t)
  {
  }

  lemma KnowsSeen(embed: Embedding, s: Store, m: Memory)
    requires Knows(embed, s, m)
    ensures m.seenGeneration <= s.generation
  {
  }

  // A transaction that drops every vector: while its generation stands, each vector there
  // is was written after it.
  lemma DroppedAll(embed: Embedding, s: Store, at: Store, tx: Tx, t: Store)
    requires Committed(embed, s, at, tx, t) && Commit(at, tx).rows == map[]
    ensures t.generation == Commit(at, tx).generation ==>
      forall id :: id in t.rows ==> t.rows[id].serial >= Commit(at, tx).nextSerial
  {
  }

  // One that keeps them and the generation: while it stands, each is still there.
  lemma KeptAll(embed: Embedding, s: Store, at: Store, tx: Tx, t: Store)
    requires Committed(embed, s, at, tx, t) && Commit(at, tx).rows == at.rows
    ensures t.generation == Commit(at, tx).generation ==>
      forall id :: id in at.rows ==> id in t.rows && t.rows[id].vec == at.rows[id].vec
  {
    if t.generation == Commit(at, tx).generation {
      RowsKeepVectors(embed, Commit(at, tx), t);
    }
  }

  // What a batch reports. A new turn holds the input under a fresh id, with its vector when
  // the vector's model was still the store's; a duplicate names the turn that already has
  // the uuid; anything blank is refused.
  ghost predicate Reports(s: Store, t: Store, inputs: seq<TurnInput>, vectors: seq<Option<Vector>>, model: Option<Name>,
                          outcomes: seq<Outcome>)
  {
    && |outcomes| == |inputs|
    && (forall id :: id in s.turns ==> id in t.turns && t.turns[id] == s.turns[id])
    && (forall i :: 0 <= i < |inputs| ==>
      Reported(s, t, inputs[i], if i < |vectors| then vectors[i] else None, model, outcomes[i]))
    && (forall i, id :: 0 <= i < |inputs| && outcomes[i].Indexed? && id in s.turns ==> id < outcomes[i].id)
    && (forall i, j :: 0 <= i < j < |inputs| && outcomes[i].Indexed? && outcomes[j].Indexed? ==>
      outcomes[i].id < outcomes[j].id)
  }

  ghost predicate Reported(s: Store, t: Store, input: TurnInput, vector: Option<Vector>, model: Option<Name>,
                           outcome: Outcome)
  {
    match outcome
    case InvalidTurn => !ValidInput(input)
    case Duplicate(id) => ValidInput(input) && id in t.turns && t.turns[id].uuid == input.uuid
    case Indexed(id) =>
      && ValidInput(input) && id !in s.turns && id in t.turns
      && t.turns[id] == Turn(input.uuid, input.session, input.speaker, input.text)
      && (if vector.Some? && model.Some?
          then id in t.rows && t.rows[id].model == model.value && t.rows[id].vec == vector.value
          else id !in t.rows)
  }

  lemma InsertOneReports(embed: Embedding, s: Store, input: TurnInput, vector: Option<Vector>, model: Option<Name>)
    requires Sound(embed, s)
    ensures var (t, outcome) := InsertOne(s, input, vector, model);
      && Reported(s, t, input, vector, model, outcome)
      && (outcome.Indexed? ==> forall id :: id in s.turns ==> id < outcome.id)
      && (forall id :: id in t.turns ==> id in s.turns || outcome == Indexed(id))
      && (forall id :: id in s.turns ==>
            id in t.turns && t.turns[id] == s.turns[id] && (id in t.rows <==> id in s.rows))
      && (forall id :: id in s.rows ==> t.rows[id] == s.rows[id])
  {
    assert forall id :: id in s.turns.Keys ==> id <= MaxId(s.turns.Keys);
  }

  lemma {:induction false} InsertAllReports(embed: Embedding, s: Store, inputs: seq<TurnInput>,
                                            vectors: seq<Option<Vector>>, model: Option<Name>)
    requires Sound(embed, s) && VectorsFit(embed, inputs, vectors, model)
    ensures var (t, outcomes) := InsertAll(s, inputs, vectors, model);
      && Reports(s, t, inputs, vectors, model, outcomes)
      && (forall id :: id in s.turns ==> (id in t.rows <==> id in s.rows))
      && (forall id :: id in s.rows ==> id in s.turns && t.rows[id] == s.rows[id])
    decreases |inputs|
  {
    if inputs != [] {
      var vector := if vectors == [] then None else vectors[0];
      var rest := if vectors == [] then [] else vectors[1..];
      var (s1, outcome) := InsertOne(s, inputs[0], vector, model);
      InsertOneKeeps(embed, s, inputs[0], vector, model);
      InsertOneReports(embed, s, inputs[0], vector, model);
      assert VectorsFit(embed, inputs[1..], rest, model) by {
        forall i | 0 <= i < |inputs[1..]| && i < |rest| && rest[i].Some? && model.Some?
          ensures rest[i].value == embed(model.value, inputs[1..][i].text)
        {
          assert rest[i] == vectors[i + 1] && inputs[1..][i] == inputs[i + 1];
        }
      }
      InsertAllReports(embed, s1, inputs[1..], rest, model);
      ReportsCons(s, s1, InsertAll(s1, inputs[1..], rest, model).0, inputs, vectors, model, outcome,
        InsertAll(s1, inputs[1..], rest, model).1);
    }
  }

  lemma ReportsCons(s: Store, s1: Store, t: Store, inputs: seq<TurnInput>, vectors: seq<Option<Vector>>,
                    model: Option<Name>, outcome: Outcome, outcomes: seq<Outcome>)
    requires inputs != []
    requires Reported(s, s1, inputs[0], if vectors == [] then None else vectors[0], model, outcome)
    requires Reports(s1, t, inputs[1..], if vectors == [] then [] else vectors[1..], model, outcomes)
    requires forall id :: id in s.turns ==> id in s1.turns && s1.turns[id] == s.turns[id]
    requires outcome.Indexed? ==> forall id :: id in s.turns ==> id < outcome.id
    requires forall id :: id in s1.turns ==> (id in t.rows <==> id in s1.rows)
    requires forall id :: id in s1.rows ==> id in s1.turns && t.rows[id] == s1.rows[id]
    ensures Reports(s, t, inputs, vectors, model, [outcome] + outcomes)
  {
    hide Reported;
    ReportedCons(s, s1, t, inputs, vectors, model, outcome, outcomes);
    OrderCons(s, s1, inputs[0], if vectors == [] then None else vectors[0], model, outcome, outcomes);
  }

  lemma OrderCons(s: Store, s1: Store, input: TurnInput, vector: Option<Vector>, model: Option<Name>, outcome: Outcome,
                  outcomes: seq<Outcome>)
    requires Reported(s, s1, input, vector, model, outcome) && forall id :: id in s.turns ==> id in s1.turns
    requires outcome.Indexed? ==> forall id :: id in s.turns ==> id < outcome.id
    requires forall i, id :: 0 <= i < |outcomes| && outcomes[i].Indexed? && id in s1.turns ==> id < outcomes[i].id
    requires forall i, j :: 0 <= i < j < |outcomes| && outcomes[i].Indexed? && outcomes[j].Indexed? ==>
      outcomes[i].id < outcomes[j].id
    ensures var all := [outcome] + outcomes;
      && (forall i, id :: 0 <= i < |all| && all[i].Indexed? && id in s.turns ==> id < all[i].id)
      && (forall i, j :: 0 <= i < j < |all| && all[i].Indexed? && all[j].Indexed? ==> all[i].id < all[j].id)
  {
  }

  lemma ReportedCons(s: Store, s1: Store, t: Store, inputs: seq<TurnInput>, vectors: seq<Option<Vector>>,
                     model: Option<Name>, outcome: Outcome, outcomes: seq<Outcome>)
    requires inputs != []
    requires Reported(s, s1, inputs[0], if vectors == [] then None else vectors[0], model, outcome)
    requires Reports(s1, t, inputs[1..], if vectors == [] then [] else vectors[1..], model, outcomes)
    requires forall id :: id in s.turns ==> id in s1.turns
    requires forall id :: id in s1.turns ==>
      id in t.turns && t.turns[id] == s1.turns[id] && (id in t.rows <==> id in s1.rows)
    requires forall id :: id in s1.rows ==> id in s1.turns && t.rows[id] == s1.rows[id]
    ensures var all := [outcome] + outcomes;
      forall i :: 0 <= i < |inputs| ==>
        Reported(s, t, inputs[i], if i < |vectors| then vectors[i] else None, model, all[i])
  {
    hide Reported;
    var all := [outcome] + outcomes;
    ReportedLater(s, s1, t, inputs[0], if vectors == [] then None else vectors[0], model, outcome);
    forall i | 1 <= i < |inputs|
      ensures Reported(s, t, inputs[i], if i < |vectors| then vectors[i] else None, model, all[i])
    {
      var rest := if vectors == [] then [] else vectors[1..];
      assert Reported(s1, t, inputs[1..][i - 1], if i - 1 < |rest| then rest[i - 1] else None, model, outcomes[i - 1]);
      assert inputs[1..][i - 1] == inputs[i] && all[i] == outcomes[i - 1];
      ReportedSooner(s, s1, t, inputs[i], if i < |vectors| then vectors[i] else None, model, all[i]);
    }
  }

  lemma ReportedLater(s: Store, s1: Store, t: Store, input: TurnInput, vector: Option<Vector>, model: Option<Name>,
                      outcome: Outcome)
    requires Reported(s, s1, input, vector, model, outcome)
    requires forall id :: id in s1.turns ==>
      id in t.turns && t.turns[id] == s1.turns[id] && (id in t.rows <==> id in s1.rows)
    requires forall id :: id in s1.rows ==> id in t.rows && t.rows[id] == s1.rows[id]
    ensures Reported(s, t, input, vector, model, outcome)
  {
  }

  lemma ReportedSooner(s: Store, s1: Store, t: Store, input: TurnInput, vector: Option<Vector>, model: Option<Name>,
                       outcome: Outcome)
    requires Reported(s1, t, input, vector, model, outcome)
    requires forall id :: id in s.turns ==> id in s1.turns
    ensures Reported(s, t, input, vector, model, outcome)
  {
  }

  // What a batch commit reports, whether or not the model is still the store's.
  lemma BatchReports(embed: Embedding, s: Store, inputs: seq<TurnInput>, vectors: seq<Option<Vector>>,
                     model: Option<Name>)
    requires Sound(embed, s) && VectorsFit(embed, inputs, vectors, model)
    ensures var (t, inserted) := InsertBatch(s, inputs, vectors, model);
      Reports(s, t, inputs, vectors, if model == s.ModelName() then model else None, inserted.outcomes)
  {
    InsertAllReports(embed, s, inputs, vectors, if model == s.ModelName() then model else None);
  }

  // The positions whose text is sent to the model.
  function NotBlank(inputs: seq<TurnInput>): (pending: seq<nat>)
    ensures forall k :: 0 <= k < |pending| ==> pending[k] < |inputs| && !IsBlank(inputs[pending[k]].text)
    ensures forall i :: 0 <= i < |inputs| && !IsBlank(inputs[i].text) ==> i in pending
    ensures forall j, k :: 0 <= j < k < |pending| ==> pending[j] < pending[k]
  {
    if inputs == [] then []
    else
      var before := NotBlank(inputs[..|inputs| - 1]);
      if IsBlank(inputs[|inputs| - 1].text) then before else before + [|inputs| - 1]
  }

  // The first k of the pending positions have their vectors, the others none.
  ghost predicate Filled(embed: Embedding, model: Name, inputs: seq<TurnInput>, pending: seq<nat>, k: nat,
                         vectors: seq<Option<Vector>>) {
    && |vectors| == |inputs| && k <= |pending|
    && (forall j :: 0 <= j < |pending| ==> pending[j] < |inputs|)
    && (forall j :: 0 <= j < k ==> vectors[pending[j]] == Some(embed(model, inputs[pending[j]].text)))
    && (forall i :: 0 <= i < |inputs| && i !in pending[..k] ==> vectors[i] == None)
  }

  lemma NothingFilled(embed: Embedding, model: Name, inputs: seq<TurnInput>, pending: seq<nat>)
    requires pending == NotBlank(inputs)
    ensures Filled(embed, model, inputs, pending, 0, NoVectors(inputs))
  {
  }

  lemma FillOne(embed: Embedding, model: Name, inputs: seq<TurnInput>, pending: seq<nat>, k: nat,
                vectors: seq<Option<Vector>>)
    requires Filled(embed, model, inputs, pending, k, vectors) && k < |pending|
    ensures pending[k] < |inputs| == |vectors|
    ensures Filled(embed, model, inputs, pending, k + 1,
      vectors[pending[k] := Some(embed(model, inputs[pending[k]].text))])
  {
    assert pending[..k + 1] == pending[..k] + [pending[k]];
  }

  lemma AllFilled(embed: Embedding, model: Name, inputs: seq<TurnInput>, vectors: seq<Option<Vector>>)
    requires Filled(embed, model, inputs, NotBlank(inputs), |NotBlank(inputs)|, vectors)
    ensures vectors == EmbedInputs(embed, model, inputs)
  {
    var pending := NotBlank(inputs);
    assert pending[..|pending|] == pending;
    var all := EmbedInputs(embed, model, inputs);
    forall i | 0 <= i < |inputs| ensures vectors[i] == all[i] {
      if i in pending {
        var j :| 0 <= j < |pending| && pending[j] == i;
      }
    }
  }

  // Everything but the vectors is the same.
  predicate SameBut(s: Store, t: Store) {
    s.turns == t.turns && s.spec == t.spec && s.generation == t.generation
  }

  lemma SearchesOnlyTurns(embed: Embedding, s: Store, m: Memory)
    requires Knows(embed, s, m)
    ensures forall id :: id in s.rows ==> id in s.turns
    ensures m.seenGeneration == s.generation ==> forall id :: id in m.index ==> id in s.turns && id in s.rows
  {
  }

  // A deletion leaves exactly the other sessions' turns and vectors.
  lemma DeletedTurns(embed: Embedding, s: Store, session: string)
    requires Sound(embed, s)
    ensures var t, gone := Commit(s, Delete(session)), set id | id in s.turns && s.turns[id].session == session;
      && t.turns == (map id | id in s.turns && s.turns[id].session != session :: s.turns[id])
      && (forall id :: id in t.rows <==> id in s.rows && s.turns[id].session != session)
      && |s.turns| - |t.turns| == |gone|
      && t.generation == s.generation + (if |gone| > 0 then 1 else 0)
  {
    var gone := DeletedAre(s, session);
    var t := Commit(s, Delete(session));
    assert forall id :: id in s.rows ==> id in s.turns;
    hide Commit, Sound;
    RestOfMap(s.turns, gone);
    OtherSessions(s.turns, session, gone);
  }

  lemma DeletedAre(s: Store, session: string) returns (gone: set<Id>)
    ensures gone == set id | id in s.turns && s.turns[id].session == session
    ensures var t := Commit(s, Delete(session));
      t.turns == s.turns - gone && t.rows == s.rows - gone
        && t.generation == s.generation + (if |gone| > 0 then 1 else 0)
  {
    gone := set id | id in s.turns && s.turns[id].session == session;
    NoneGone(s, gone);
  }

  lemma OtherSessions(turns: map<Id, Turn>, session: string, gone: set<Id>)
    requires gone == set id | id in turns && turns[id].session == session
    ensures turns - gone == map id | id in turns && turns[id].session != session :: turns[id]
  {
    var rest := map id | id in turns && turns[id].session != session :: turns[id];
    assert (turns - gone).Keys == rest.Keys;
  }

  lemma NoneGone(s: Store, gone: set<Id>)
    ensures gone == {} ==> s.turns - gone == s.turns && s.rows - gone == s.rows
  {
  }

  lemma RestOfMap<T>(m: map<Id, T>, gone: set<Id>)
    requires gone <= m.Keys
    ensures (m - gone).Keys == m.Keys - gone && |m| - |m - gone| == |gone|
  {
    SubsetSize(gone, m.Keys);
    assert |m| == |m.Keys| && |m - gone| == |(m - gone).Keys|;
  }

  lemma KnowsUniform(embed: Embedding, s: Store, m: Memory)
    requires Knows(embed, s, m)
    ensures forall id :: id in s.rows ==> s.ModelName() == Some(s.rows[id].model)
  {
  }

  // Taking on an embedder with the transaction that records it.
  lemma AdoptKnows(embed: Embedding, s: Store, m: Memory, tx: Tx, spec: Spec)
    requires Knows(embed, s, m) && (tx == Update(spec) || tx == Switch(spec) || (tx == DropVectors && s.spec.Some?))
    ensures var t := Commit(s, tx);
      && StoreMoves(embed, s, t)
      && Knows(embed, t, m)
      && ((tx.Update? && !UpdateSpec(s, spec).1)
        || Knows(embed, t, Protocol.Install(m, spec, Some(spec.Name())).(dense := true)))
  {
    var t := Commit(s, tx);
    CommitMoves(embed, s, tx);
    KnowsStable(embed, s, t, m);
    InstallKeeps(t, m, spec, Some(spec.Name()));
  }

  // Holding an embedder over a store that has one.
  lemma OpensKnows(embed: Embedding, s: Store, m: Memory, spec: Spec, embedder: Option<Name>)
    requires Knows(embed, s, m) && s.spec.Some?
    ensures Knows(embed, s, Protocol.Install(m, spec, embedder).(dense := true))
  {
    InstallKeeps(s, m, spec, embedder);
  }

  // What became of the vectors: while the generation of the change stands, all that were
  // there still are, under the name they had, or none of them is.
  ghost predicate Replaced(at: Store, spec: Option<Spec>, kept: bool, t: Store) {
    t.generation == at.generation + (if kept then 0 else 1) ==>
      if kept then
        && (forall id :: id in at.rows ==> id in t.rows && t.rows[id].vec == at.rows[id].vec)
        && (at.rows != map[] ==> spec.Some? && t.ModelName() == Some(spec.value.Name()))
      else
        forall id :: id in t.rows ==> t.rows[id].serial >= at.nextSerial
  }

  lemma AdoptReplaces(embed: Embedding, s: Store, at: Store, tx: Tx, spec: Spec, t: Store)
    requires Committed(embed, s, at, tx, t)
    requires (tx == Update(spec) && at.ModelName() == Some(spec.Name())) || tx == Switch(spec)
      || (tx == DropVectors && at.spec.Some?)
    ensures Replaced(at, if tx.DropVectors? then at.spec else Some(spec), tx.Update?, t)
  {
    var c := Commit(at, tx);
    if t.generation == c.generation {
      if tx.Update? {
        KeptAll(embed, s, at, tx, t);
      } else {
        DroppedAll(embed, s, at, tx, t);
      }
    }
  }

  // A key found in the cache when nothing has arrived since the load.
  lemma CachedIsComputed(embed: Embedding, s: Store, m: Memory, key: ProjectionKey)
    requires Knows(embed, s, m) && CacheHit(m, key) && m.held.Some?
    requires key.embedded == m.seenSerial && key.model == m.held.value.Name()
    ensures m.dense
    ensures m.seenGeneration == s.generation && Complete(s, m) ==>
      m.cache.value.1 == Compute(s, key.model, key.dim, key.opts)
  {
  }

  lemma CachingKnows(embed: Embedding, s1: Store, s2: Store, s3: Store, t: Store, m: Memory, key: ProjectionKey)
    requires Knows(embed, s1, m) && StoreMoves(embed, s1, s2) && StoreMoves(embed, s2, s3) && StoreMoves(embed, s3, t)
    requires Knows(embed, t, m) && key.generation == s2.generation && key.embedded == m.seenSerial
    ensures Knows(embed, t, m.(cache := Some((key, Compute(t, key.model, key.dim, key.opts)))))
  {
    hide Knows, StoreMoves;
    KnowsSeen(embed, s1, m);
    MovesTransitive(embed, s2, s3, t);
    MovesForward(embed, s1, s2);
    MovesForward(embed, s2, t);
    NewCache(embed, t, m, key);
  }

  lemma NewCache(embed: Embedding, s: Store, m: Memory, key: ProjectionKey)
    requires Knows(embed, s, m) && m.seenGeneration <= key.generation <= s.generation && key.embedded == m.seenSerial
    ensures Knows(embed, s, m.(cache := Some((key, Compute(s, key.model, key.dim, key.opts)))))
  {
    hide Sound, Uniform, Compute, Tidy, Coherent, Named, AllSeen;
    RestKept(s, m, m.(cache := Some((key, Compute(s, key.model, key.dim, key.opts)))));
  }

  lemma RestKept(s: Store, m: Memory, n: Memory)
    requires n == m.(cache := n.cache)
    ensures Tidy(s, m) ==> Tidy(s, n) && m.seenSerial < s.nextSerial
    ensures Coherent(s, m) ==> Coherent(s, n)
    ensures Named(s, m) ==> Named(s, n)
  {
  }

  lemma MovesForward(embed: Embedding, s: Store, t: Store)
    requires StoreMoves(embed, s, t)
    ensures s.generation <= t.generation
  {
  }
}
