/** Any number of processes over one store.

    A process keeps an in-memory index and moves in steps. A step makes at most one access
    to the store, a read or one transaction, and then only computes locally; everything
    another process does can fall between two steps. Model calls are slow and touch no
    store, so they are steps of their own. */
module Protocol {
  import opened Optional
  import opened Embedders
  import opened Stores
  import opened StoreProofs

  const EMBED_BATCH: nat := 64

  function Min(a: nat, b: nat): nat { if a < b then a else b }

  // --- the 2-D projection and its cache -----------------------------------

  datatype ProjectionOptions = ProjectionOptions(limit: Option<nat>, session: Option<string>)

  // Everything a projection is computed from: the vectors of one model with their turns.
  // The sample, the axes and the points are functions of it.
  datatype Projection = Projection(
    generation: nat, model: Name, dim: nat, opts: ProjectionOptions, population: map<Id, (Turn, Vector)>)

  datatype ProjectionKey = ProjectionKey(
    generation: nat, maxId: Id, embedded: nat, model: Name, dim: nat, opts: ProjectionOptions)

  function Compute(s: Store, model: Name, dim: nat, opts: ProjectionOptions): Projection {
    Projection(s.generation, model, dim, opts,
      map id | id in s.rows && id in s.turns && s.rows[id].model == model &&
               (opts.session.None? || s.turns[id].session == opts.session.value)
             :: (s.turns[id], s.rows[id].vec))
  }

  // --- a process ----------------------------------------------------------

  // What a process asks for when it opens: to follow the store, or one embedder.
  datatype Request = Auto | Ask(spec: Spec)

  // What follows a refresh.
  datatype After = Stop | Project(opts: ProjectionOptions)

  // What follows one embedding batch: the rest of a refresh, or of draining `left` turns.
  datatype Caller = Refreshing(after: After) | Draining(left: nat)

  datatype Pc =
    | Unopened(request: Request, allowSwitch: bool)
    | Seeding(spec: Spec)
    | OpenSwitching(spec: Spec)
    | Closed
    | Idle
    | ReadGeneration(after: After)
    | Following(after: After)
    | ReadMaxId(after: After)
    | EmbedGeneration(limit: nat, caller: Caller)
    | EmbedBacklog(limit: nat, model: Name, generation: nat, caller: Caller)
    | EmbedModel(model: Name, generation: nat, backlog: seq<(Id, string)>, caller: Caller)
    | EmbedWrite(model: Name, generation: nat, batch: seq<(Id, Vector)>, caller: Caller)
    | EmbedFollow(caller: Caller)
    | Loading(after: After)
    | DrainFollow(left: nat)
    | IngestModel(inputs: seq<TurnInput>)
    | IngestCommit(inputs: seq<TurnInput>, vectors: seq<Option<Vector>>, stamp: Option<Name>)
    | IngestFollow
    | SettingEmbedder(spec: Spec, same: bool)
    | Reembedding(spec: Spec)
    | ProjectGeneration(opts: ProjectionOptions, atLoad: Option<Projection>)
    | ProjectMaxId(opts: ProjectionOptions, atLoad: Option<Projection>, generation: nat)
    | ProjectRead(key: ProjectionKey, atLoad: Option<Projection>)

  // What a process keeps in memory, apart from where it is in a call.
  datatype Memory = Memory(
    dense: bool,
    held: Option<Spec>,
    embedder: Option<Name>,
    dim: nat,
    index: map<Id, Vector>,
    seenSerial: nat,
    seenMaxId: Id,
    seenGeneration: int,
    cache: Option<(ProjectionKey, Projection)>)
  {
    function HeldName(): Option<Name> {
      match held
      case None => None
      case Some(spec) => Some(spec.Name())
    }
  }

  datatype Process = Process(mem: Memory, pc: Pc)

  function NewProcess(dense: bool, request: Request, allowSwitch: bool): Process {
    Process(Memory(dense, None, None, 0, map[], 0, 0, -1, None), Unopened(request, allowSwitch))
  }

  // --- local moves --------------------------------------------------------

  // Hold `spec`, with or without a working embedder; the index starts over.
  function Install(m: Memory, spec: Spec, embedder: Option<Name>): Memory {
    var dim := if embedder.Some? then DimOf(embedder.value) else spec.Dim().GetOr(0);
    m.(dim := dim, index := map[], seenSerial := 0, cache := None, embedder := embedder, held := Some(spec))
  }

  // A probe embeds one text: it fills in a dimension not known yet and refuses a wrong one.
  function Probe(spec: Spec, length: nat): Option<Spec> {
    match spec
    case Remote(url, model, None) => Some(Remote(url, model, Some(length)))
    case Remote(_, _, Some(d)) => if d == length then Some(spec) else None
    case _ => Some(spec)
  }

  // `built` says whether this process can build the embedder and may use it.
  function Follow(m: Memory, spec: Spec, built: bool): Memory {
    Install(m, spec, if built then Some(spec.Name()) else None)
  }

  function FollowIfChanged(m: Memory, s: Store, built: bool): Memory {
    if !m.dense || s.ModelName() == m.HeldName() then m
    else
      match s.spec
      case Some(spec) => Follow(m, spec, built)
      case None => m.(index := map[], dim := 0, embedder := None, held := None)
  }

  // The first step of a refresh: a moved generation empties the index.
  function SeeGeneration(m: Memory, generation: nat): Memory {
    if m.seenGeneration == generation then m
    else m.(index := map[], seenSerial := 0, seenMaxId := 0, seenGeneration := generation, cache := None)
  }

  function Vectors(rows: map<Id, Row>): map<Id, Vector> { map id | id in rows :: rows[id].vec }

  // Vectors past the cursor join the index and move the cursor.
  function Load(m: Memory, s: Store): Memory {
    if m.held.None? || m.dim == 0 then m
    else
      var loaded := EmbeddingsAfter(s, m.seenSerial, m.held.value.Name(), m.dim);
      var top := MaxId(set id | id in loaded :: loaded[id].serial);
      m.(index := m.index + Vectors(loaded),
         seenSerial := if top > m.seenSerial then top else m.seenSerial)
  }

  // `n` turns were embedded; go on with whoever asked.
  function Embedded(m: Memory, n: nat, caller: Caller): Pc {
    match caller
    case Refreshing(after) => Loading(after)
    case Draining(left) =>
      if n == 0 || left <= n then Loading(Stop) else StartDrain(m, left - n)
  }

  function StartBatch(m: Memory, limit: nat, caller: Caller): Pc {
    if m.embedder.Some? then EmbedGeneration(limit, caller)
    else Loading(if caller.Refreshing? then caller.after else Stop)
  }

  function StartDrain(m: Memory, left: nat): Pc {
    if left == 0 then Loading(Stop) else StartBatch(m, Min(left, EMBED_BATCH), Draining(left))
  }

  function EmbedAll(embed: Embedding, model: Name, backlog: seq<(Id, string)>): (batch: seq<(Id, Vector)>)
    ensures |batch| == |backlog|
    ensures forall i :: 0 <= i < |backlog| ==> batch[i] == (backlog[i].0, embed(model, backlog[i].1))
  {
    seq(|backlog|, i requires 0 <= i < |backlog| => (backlog[i].0, embed(model, backlog[i].1)))
  }

  // Blank texts are not sent to the model.
  function EmbedInputs(embed: Embedding, model: Name, inputs: seq<TurnInput>): (vectors: seq<Option<Vector>>)
    ensures VectorsFit(embed, inputs, vectors, Some(model))
  {
    seq(|inputs|, i requires 0 <= i < |inputs| =>
      if IsBlank(inputs[i].text) then None else Some(embed(model, inputs[i].text)))
  }

  function NoVectors(inputs: seq<TurnInput>): seq<Option<Vector>> {
    seq(|inputs|, i requires 0 <= i < |inputs| => None)
  }

  // --- steps --------------------------------------------------------------

  datatype Command =
    | Refresh(after: After)
    | Drain(limit: nat)
    | Ingest(inputs: seq<TurnInput>)
    | SetEmbedder(spec: Spec)
    | Reembed
    | ClearVectors
    | ClearEverything
    | DeleteOne(session: string)
    | RebuildAll
    | ApplyNotes(notes: seq<TurnInput>, entitiesChanged: bool)
    | UndoNotes(gone: set<Id>, entitiesChanged: bool)

  // How the model behaved, whether it could be built or called and how long the vector of
  // a probe was, and, for a step that asks, the backlog the store answers with.
  datatype Action =
    | Begin(cmd: Command, ok: bool, length: nat)
    | Continue(ok: bool, length: nat, backlog: seq<(Id, string)>)

  predicate Enabled(p: Process, a: Action) {
    if a.Begin? then p.pc.Idle? else !p.pc.Idle? && !p.pc.Closed?
  }

  ghost predicate Answers(s: Store, p: Process, a: Action) {
    a.Continue? && p.pc.EmbedBacklog? ==> IsBacklog(s, p.pc.model, p.pc.limit, a.backlog)
  }

  // The transaction the step commits, if any.
  function Transaction(p: Process, a: Action): Option<Tx> {
    match a
    case Begin(cmd, _, _) =>
      (match cmd
       case ClearVectors => Some(DropVectors)
       case ClearEverything => Some(Forget)
       case DeleteOne(session) => Some(Delete(session))
       case RebuildAll => Some(Rederive)
       case ApplyNotes(notes, changed) => Some(Apply(notes, changed))
       case UndoNotes(gone, changed) => Some(Undo(gone, changed))
       case _ => None)
    case Continue(_, _, _) =>
      (match p.pc
       case Seeding(spec) => Some(Seed(spec))
       case OpenSwitching(spec) => Some(Switch(spec))
       case EmbedWrite(model, generation, batch, _) => Some(Write(batch, model, generation))
       case IngestCommit(inputs, vectors, stamp) => Some(Insert(inputs, vectors, stamp))
       case SettingEmbedder(spec, same) => Some(if same then Update(spec) else Switch(spec))
       case Reembedding(_) => Some(DropVectors)
       case _ => None)
  }

  ghost function StoreAfter(s: Store, p: Process, a: Action): Store {
    match Transaction(p, a)
    case None => s
    case Some(tx) => Commit(s, tx)
  }

  function OpenWith(m: Memory, s: Store, request: Request, allowSwitch: bool, ok: bool, length: nat): Process {
    if !m.dense then Process(m, ReadGeneration(Stop))
    else
      match (s.spec, request)
      case (None, Auto) => Process(m, Seeding(if ok then Onnx else Hash))
      case (None, Ask(spec)) =>
        var probed := Probe(spec, length);
        Process(m, if ok && probed.Some? then Seeding(probed.value) else Closed)
      case (Some(stored), Auto) => Process(Follow(m, stored, ok), ReadGeneration(Stop))
      case (Some(stored), Ask(spec)) =>
        if stored.SameModel(spec) then
          var name := if spec.Dim().None? then stored.Name() else spec.Name();
          if ok then Process(Install(m, stored, Some(name)), ReadGeneration(Stop)) else Process(m, Closed)
        else
          var probed := Probe(spec, length);
          Process(m, if allowSwitch && ok && probed.Some? then OpenSwitching(probed.value) else Closed)
  }

  function BeginWith(m: Memory, s: Store, cmd: Command, ok: bool, length: nat): Pc {
    match cmd
    case Refresh(after) => ReadGeneration(after)
    case Drain(limit) => DrainFollow(limit)
    case Ingest(inputs) => IngestModel(inputs)
    case SetEmbedder(spec) =>
      var probed := Probe(spec, length);
      if ok && probed.Some? then SettingEmbedder(probed.value, s.ModelName() == Some(probed.value.Name())) else Idle
    case Reembed =>
      var probed := if s.spec.Some? then Probe(s.spec.value, length) else None;
      if ok && probed.Some? then Reembedding(probed.value) else Idle
    case _ => ReadGeneration(Stop)
  }

  predicate InOpen(pc: Pc) { pc.Unopened? || pc.Seeding? || pc.OpenSwitching? }

  ghost function OpenAfter(s: Store, m: Memory, pc: Pc, ok: bool, length: nat): Process
    requires InOpen(pc)
  {
    match pc
    case Unopened(request, allowSwitch) => OpenWith(m, s, request, allowSwitch, ok, length)
    case Seeding(spec) => Process(Install(m, spec, Some(spec.Name())), ReadGeneration(Stop))
    case OpenSwitching(spec) => Process(Install(m, spec, Some(spec.Name())), ReadGeneration(Stop))
  }

  predicate InRefresh(pc: Pc) { pc.ReadGeneration? || pc.Following? || pc.ReadMaxId? || pc.Loading? }

  ghost function RefreshAfter(s: Store, m: Memory, pc: Pc, ok: bool): Process
    requires InRefresh(pc)
  {
    match pc
    case ReadGeneration(after) =>
      Process(SeeGeneration(m, s.generation),
        if m.seenGeneration == s.generation then ReadMaxId(after) else Following(after))
    case Following(after) => Process(FollowIfChanged(m, s, ok), ReadMaxId(after))
    case ReadMaxId(after) =>
      Process(m.(seenMaxId := MaxId(s.turns.Keys)), StartBatch(m, EMBED_BATCH, Refreshing(after)))
    case Loading(after) => Process(Load(m, s), AfterLoad(Load(m, s), s, after))
  }

  predicate InEmbed(pc: Pc) {
    pc.EmbedGeneration? || pc.EmbedBacklog? || pc.EmbedModel? || pc.EmbedWrite? || pc.EmbedFollow? || pc.DrainFollow?
  }

  // One batch: the generation is read before the backlog, the model is called, the write is
  // guarded by both; draining runs batches until its limit or an empty one.
  ghost function EmbedAfter(embed: Embedding, s: Store, m: Memory, pc: Pc, ok: bool,
                            backlog: seq<(Id, string)>): Process
    requires InEmbed(pc)
  {
    match pc
    case EmbedGeneration(limit, caller) =>
      Process(m,
        if m.embedder.Some? then EmbedBacklog(limit, m.embedder.value, s.generation, caller)
        else Embedded(m, 0, caller))
    case EmbedBacklog(_, model, generation, caller) =>
      Process(m, if backlog == [] then Embedded(m, 0, caller) else EmbedModel(model, generation, backlog, caller))
    case EmbedModel(model, generation, backlog, caller) =>
      Process(m,
        if ok then EmbedWrite(model, generation, EmbedAll(embed, model, backlog), caller)
        else if caller.Refreshing? then Loading(caller.after)
        else Idle)
    case EmbedWrite(model, generation, batch, caller) =>
      Process(m,
        match WriteEmbeddings(s, batch, model, generation).1
        case Written => Embedded(m, |batch|, caller)
        case EmbedderChanged => EmbedFollow(caller)
        case StoreChanged => Embedded(m, 0, caller)
        case NoSuchTurn => Idle)
    case EmbedFollow(caller) => Process(FollowIfChanged(m, s, ok), Embedded(FollowIfChanged(m, s, ok), 0, caller))
    case DrainFollow(left) =>
      var m' := FollowIfChanged(m, s, ok);
      Process(m', StartDrain(m', left))
  }

  predicate InWriter(pc: Pc) {
    pc.IngestModel? || pc.IngestCommit? || pc.IngestFollow? || pc.SettingEmbedder? || pc.Reembedding?
  }

  ghost function WriterAfter(embed: Embedding, s: Store, m: Memory, pc: Pc, ok: bool): Process
    requires InWriter(pc)
  {
    match pc
    case IngestModel(inputs) =>
      Process(m,
        if m.embedder.Some? && ok then IngestCommit(inputs, EmbedInputs(embed, m.embedder.value, inputs), m.embedder)
        else IngestCommit(inputs, NoVectors(inputs), None))
    case IngestCommit(inputs, vectors, stamp) =>
      Process(m,
        if InsertBatch(s, inputs, vectors, stamp).1.embedderChanged then IngestFollow else ReadGeneration(Stop))
    case IngestFollow => Process(FollowIfChanged(m, s, ok), ReadGeneration(Stop))
    case SettingEmbedder(spec, same) =>
      if same && !UpdateSpec(s, spec).1 then Process(m, Idle)
      else Process(Install(m, spec, Some(spec.Name())).(dense := true), ReadGeneration(Stop))
    case Reembedding(spec) => Process(Install(m, spec, Some(spec.Name())).(dense := true), ReadGeneration(Stop))
  }

  predicate InProject(pc: Pc) { pc.ProjectGeneration? || pc.ProjectMaxId? || pc.ProjectRead? }

  ghost function ProjectAfter(s: Store, m: Memory, pc: Pc): Process
    requires InProject(pc)
  {
    match pc
    case ProjectGeneration(opts, atLoad) => Process(m, ProjectMaxId(opts, atLoad, s.generation))
    case ProjectMaxId(opts, atLoad, generation) =>
      Process(m,
        if m.held.None? then Idle
        else
          var key := ProjectionKey(generation, MaxId(s.turns.Keys), m.seenSerial, m.held.value.Name(), m.dim, opts);
          ProjectRead(key, atLoad))
    case ProjectRead(key, _) =>
      Process(if CacheHit(m, key) then m else m.(cache := Some((key, Compute(s, key.model, key.dim, key.opts)))), Idle)
  }

  ghost function ProcessAfter(embed: Embedding, s: Store, p: Process, a: Action): Process {
    match a
    case Begin(cmd, ok, length) => Process(p.mem, BeginWith(p.mem, s, cmd, ok, length))
    case Continue(ok, length, backlog) =>
      if InOpen(p.pc) then OpenAfter(s, p.mem, p.pc, ok, length)
      else if InRefresh(p.pc) then RefreshAfter(s, p.mem, p.pc, ok)
      else if InEmbed(p.pc) then EmbedAfter(embed, s, p.mem, p.pc, ok, backlog)
      else if InWriter(p.pc) then WriterAfter(embed, s, p.mem, p.pc, ok)
      else if InProject(p.pc) then ProjectAfter(s, p.mem, p.pc)
      else p
  }

  // A projection needs an embedder on record. `atLoad` records, for the statement about the
  // cache only, what a computation at this very step would give, unless the store has
  // already moved on from the generation this refresh saw.
  function AfterLoad(m: Memory, s: Store, after: After): Pc {
    match after
    case Stop => Idle
    case Project(opts) =>
      if m.held.None? then Idle
      else
        ProjectGeneration(opts,
          if m.seenGeneration == s.generation then Some(Compute(s, m.held.value.Name(), m.dim, opts)) else None)
  }

  predicate CacheHit(m: Memory, key: ProjectionKey) {
    m.cache.Some? && m.cache.value.0 == key
  }

  // --- runs ---------------------------------------------------------------

  datatype Config = Config(store: Store, procs: map<nat, Process>)

  datatype Event = Event(pid: nat, action: Action)

  ghost predicate CanHappen(c: Config, e: Event) {
    e.pid in c.procs && Enabled(c.procs[e.pid], e.action) && Answers(c.store, c.procs[e.pid], e.action)
  }

  ghost function Next(embed: Embedding, c: Config, e: Event): Config
    requires CanHappen(c, e)
  {
    var p := c.procs[e.pid];
    Config(StoreAfter(c.store, p, e.action), c.procs[e.pid := ProcessAfter(embed, c.store, p, e.action)])
  }

  ghost predicate IsRun(embed: Embedding, c: Config, events: seq<Event>)
    decreases |events|
  {
    events != [] ==> CanHappen(c, events[0]) && IsRun(embed, Next(embed, c, events[0]), events[1..])
  }

  ghost function Final(embed: Embedding, c: Config, events: seq<Event>): Config
    requires IsRun(embed, c, events)
    decreases |events|
  {
    if events == [] then c else Final(embed, Next(embed, c, events[0]), events[1..])
  }

  // A step in which every model answers.
  const GO: Action := Continue(true, 0, [])

  // A fresh file and processes that have not opened it yet.
  ghost predicate Initial(c: Config) {
    && c.store == FRESH
    && forall pid :: pid in c.procs ==>
         exists dense, request, allowSwitch :: c.procs[pid] == NewProcess(dense, request, allowSwitch)
  }
}
