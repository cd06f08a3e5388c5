/** The shared file: turns, vectors, the recorded embedder and the generation stamp.

    Every function below that returns a store is one transaction. */
module Stores {
  import opened Optional
  import opened Embedders

  type Id = nat

  datatype Turn = Turn(uuid: string, session: string, speaker: string, text: string)

  // A stored vector: its insertion sequence, the model that made it and its value.
  datatype Row = Row(serial: nat, model: Name, vec: Vector)

  datatype Store = Store(
    turns: map<Id, Turn>,
    rows: map<Id, Row>,
    nextSerial: nat,
    spec: Option<Spec>,
    generation: nat) {

    function ModelName(): Option<Name> {
      match spec
      case None => None
      case Some(s) => Some(s.Name())
    }
  }

  const FRESH: Store := Store(map[], map[], 1, None, 0)

  datatype TurnInput = TurnInput(uuid: string, session: string, speaker: string, text: string)

  datatype Outcome = Indexed(id: Id) | Duplicate(id: Id) | InvalidTurn

  // --- transactions -------------------------------------------------------

  // The Unicode white space a `trim` removes.
  predicate IsWhitespace(c: char) {
    var n := c as int;
    9 <= n <= 13 || n == 32 || n == 0x85 || n == 0xA0 || n == 0x1680 || 0x2000 <= n <= 0x200A ||
    n == 0x2028 || n == 0x2029 || n == 0x202F || n == 0x205F || n == 0x3000
  }

  predicate IsBlank(s: string) {
    forall i :: 0 <= i < |s| ==> IsWhitespace(s[i])
  }

  predicate ValidInput(input: TurnInput) {
    !IsBlank(input.session) && !IsBlank(input.speaker) && !IsBlank(input.text)
  }

  lemma {:induction false} MaxExists(ids: set<Id>)
    requires ids != {}
    ensures exists m :: m in ids && forall id :: id in ids ==> id <= m
    decreases |ids|
  {
    var id :| id in ids;
    var rest := ids - {id};
    assert forall x :: x in ids ==> x == id || x in rest;
    if rest != {} {
      MaxExists(rest);
      var m :| m in rest && forall x :: x in rest ==> x <= m;
      var top := if m > id then m else id;
      assert top in ids && forall x :: x in ids ==> x <= top;
    }
  }

  // The largest turn id, 0 when there is none.
  function MaxId(ids: set<Id>): (m: Id)
    ensures forall id :: id in ids ==> id <= m
    ensures if ids == {} then m == 0 else m in ids
  {
    if ids == {} then 0
    else
      MaxExists(ids);
      var m :| m in ids && forall id :: id in ids ==> id <= m; m
  }

  predicate HasUuid(s: Store, uuid: string) {
    exists id :: id in s.turns && s.turns[id].uuid == uuid
  }

  function IdOf(s: Store, uuid: string): (id: Id)
    requires HasUuid(s, uuid)
    ensures id in s.turns && s.turns[id].uuid == uuid
  {
    var ids := set id | id in s.turns && s.turns[id].uuid == uuid;
    assert ids != {} by {
      var id :| id in s.turns && s.turns[id].uuid == uuid;
      assert id in ids;
    }
    MaxId(ids)
  }

  // One input. Only a turn that is new receives the vector that came with it, and only
  // when the vector's model was accepted.
  function InsertOne(s: Store, input: TurnInput, vector: Option<Vector>, model: Option<Name>)
    : (Store, Outcome)
  {
    if !ValidInput(input) then (s, InvalidTurn)
    else if HasUuid(s, input.uuid) then (s, Duplicate(IdOf(s, input.uuid)))
    else
      var id := MaxId(s.turns.Keys) + 1;
      var turn := Turn(input.uuid, input.session, input.speaker, input.text);
      var s1 := s.(turns := s.turns[id := turn]);
      if vector.Some? && model.Some? then
        var row := Row(s.nextSerial, model.value, vector.value);
        (s1.(rows := s.rows[id := row], nextSerial := s.nextSerial + 1), Indexed(id))
      else (s1, Indexed(id))
  }

  function InsertAll(s: Store, inputs: seq<TurnInput>, vectors: seq<Option<Vector>>, model: Option<Name>)
    : (r: (Store, seq<Outcome>))
    ensures |r.1| == |inputs|
    decreases |inputs|
  {
    if inputs == [] then (s, [])
    else
      var vector := if vectors == [] then None else vectors[0];
      var (s1, outcome) := InsertOne(s, inputs[0], vector, model);
      var (s2, outcomes) := InsertAll(s1, inputs[1..], if vectors == [] then [] else vectors[1..], model);
      (s2, [outcome] + outcomes)
  }

  datatype Inserted = Inserted(outcomes: seq<Outcome>, embedderChanged: bool)

  // When the store's embedder is not `model` any more the turns go in without vectors.
  function InsertBatch(s: Store, inputs: seq<TurnInput>, vectors: seq<Option<Vector>>, model: Option<Name>)
    : (Store, Inserted)
  {
    var changed := model.Some? && s.ModelName() != model;
    var (s1, outcomes) := InsertAll(s, inputs, vectors, if changed then None else model);
    (s1, Inserted(outcomes, changed))
  }

  datatype WriteOutcome = Written | EmbedderChanged | StoreChanged | NoSuchTurn

  // INSERT OR REPLACE, row by row: each row takes the next sequence number.
  function PutRows(s: Store, vectors: seq<(Id, Vector)>, model: Name): Store
    decreases |vectors|
  {
    if vectors == [] then s
    else
      var (id, vec) := vectors[0];
      var row := Row(s.nextSerial, model, vec);
      PutRows(s.(rows := s.rows[id := row], nextSerial := s.nextSerial + 1), vectors[1..], model)
  }

  // Refused, writing nothing, under another model or another generation. The foreign key
  // refuses a vector for a turn that does not exist.
  function WriteEmbeddings(s: Store, vectors: seq<(Id, Vector)>, model: Name, generation: nat)
    : (Store, WriteOutcome)
  {
    if s.ModelName() != Some(model) then (s, EmbedderChanged)
    else if s.generation != generation then (s, StoreChanged)
    else if exists i :: 0 <= i < |vectors| && vectors[i].0 !in s.turns then (s, NoSuchTurn)
    else (PutRows(s, vectors, model), Written)
  }

  function Bump(s: Store): Store { s.(generation := s.generation + 1) }

  // Records the embedder of a store taken to have none; it does not look.
  function SeedEmbedder(s: Store, spec: Spec): Store { s.(spec := Some(spec)) }

  function SwitchEmbedder(s: Store, spec: Spec): Store {
    Bump(s.(spec := Some(spec), rows := map[]))
  }

  function UpdateSpec(s: Store, spec: Spec): (Store, bool) {
    if s.ModelName() != Some(spec.Name()) then (s, false) else (s.(spec := Some(spec)), true)
  }

  function ClearEmbeddings(s: Store): Store { Bump(s.(rows := map[])) }

  function ClearMemory(s: Store): Store { Bump(s.(turns := map[], rows := map[])) }

  // Recomputes the derived tables; the vectors stay, the generation moves.
  function Rebuild(s: Store): Store { Bump(s) }

  // Deleting a turn deletes its vector with it.
  function Without(s: Store, gone: set<Id>): Store {
    s.(turns := s.turns - gone, rows := s.rows - gone)
  }

  function DeleteSession(s: Store, session: string): Store {
    var gone := set id | id in s.turns && s.turns[id].session == session;
    if gone == {} then s else Bump(Without(s, gone))
  }

  // Notes and briefs are turns without vectors; an entity rule moves the generation.
  function CurateApply(s: Store, notes: seq<TurnInput>, entitiesChanged: bool): Store {
    var s1 := InsertAll(s, notes, [], None).0;
    if entitiesChanged then Bump(s1) else s1
  }

  // Undoing a note deletes its turn.
  function CurateUndo(s: Store, notes: set<Id>, entitiesChanged: bool): Store {
    var gone := notes * s.turns.Keys;
    var s1 := Without(s, gone);
    if entitiesChanged || gone != {} then Bump(s1) else s1
  }

  // --- reads --------------------------------------------------------------

  predicate InBacklog(s: Store, model: Name, id: Id) {
    id in s.turns && (id !in s.rows || s.rows[id].model != model)
  }

  // The oldest `limit` turns without a vector from `model`, with their texts.
  ghost predicate IsBacklog(s: Store, model: Name, limit: nat, backlog: seq<(Id, string)>) {
    && |backlog| <= limit
    && (forall i :: 0 <= i < |backlog| ==>
          InBacklog(s, model, backlog[i].0) && backlog[i].1 == s.turns[backlog[i].0].text)
    && (forall i, j :: 0 <= i < j < |backlog| ==> backlog[i].0 < backlog[j].0)
    && (forall id :: InBacklog(s, model, id) ==>
          (exists i :: 0 <= i < |backlog| && backlog[i].0 == id)
          || (|backlog| == limit && forall i :: 0 <= i < |backlog| ==> backlog[i].0 < id))
  }

  // Rows of `model` past the cursor whose vector has the index's length.
  function EmbeddingsAfter(s: Store, after: nat, model: Name, dim: nat): map<Id, Row> {
    map id | id in s.rows && s.rows[id].serial > after && s.rows[id].model == model
      && |s.rows[id].vec| == dim :: s.rows[id]
  }

  // Every vector of the store's own model, by turn.
  function VectorsOf(s: Store, model: Name): map<Id, Vector> {
    map id | id in s.rows && s.rows[id].model == model :: s.rows[id].vec
  }
}
