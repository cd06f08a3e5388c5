/** The file as a process sees it: one read or transaction at a time, with whatever the
    other processes commit in between. */
module Databases {
  import opened Embedders
  import opened Lists
  import opened Stores
  import opened StoreProofs
  import opened Protocol
  import opened ProtocolProofs

  lemma CommitMoves(embed: Embedding, s: Store, tx: Tx)
    requires Sound(embed, s) && Uniform(s) && Honest(embed, s, tx) && !MixingSeed(s, tx)
    ensures StoreMoves(embed, s, Commit(s, tx))
  {
    CommitKeepsSound(embed, s, tx);
    CommitKeepsUniform(embed, s, tx);
    KeepsSpec(s, tx);
  }

  // The file, one transaction or read at a time.
  class Database {
    var s: Store

    constructor ()
      ensures s == FRESH
    {
      s := FRESH;
    }

    // Whatever the other processes commit before the next access.
    method Others(ghost embed: Embedding, ghost quiet: bool)
      requires Sound(embed, s) && Uniform(s)
      modifies this
      ensures StoreMoves(embed, old(s), s) && (quiet ==> s == old(s))
    {
    }

    // One transaction of this process.
    method Transact(ghost embed: Embedding, tx: Tx)
      requires Sound(embed, s) && Uniform(s) && Honest(embed, s, tx) && !MixingSeed(s, tx)
      modifies this
      ensures s == Commit(old(s), tx) && StoreMoves(embed, old(s), s)
    {
      CommitMoves(embed, s, tx);
      s := Commit(s, tx);
    }

    method ReadBacklog(model: Name, limit: nat) returns (backlog: seq<(Id, string)>)
      ensures IsBacklog(s, model, limit, backlog)
    {
      backlog := [];
      var last := MaxId(s.turns.Keys);
      for id := 0 to last + 1
        invariant |backlog| <= limit
        invariant forall i :: 0 <= i < |backlog| ==>
          backlog[i].0 < id && InBacklog(s, model, backlog[i].0) && backlog[i].1 == s.turns[backlog[i].0].text
        invariant forall i, j :: 0 <= i < j < |backlog| ==> backlog[i].0 < backlog[j].0
        invariant forall k :: 0 <= k < id && InBacklog(s, model, k) ==>
          (exists i :: 0 <= i < |backlog| && backlog[i].0 == k)
          || (|backlog| == limit && forall i :: 0 <= i < |backlog| ==> backlog[i].0 < k)
      {
        ghost var before := backlog;
        if InBacklog(s, model, id) && |backlog| < limit {
          backlog := backlog + [(id, s.turns[id].text)];
          assert backlog[|before|].0 == id;
          forall k | 0 <= k < id && InBacklog(s, model, k) ensures exists i :: 0 <= i < |backlog| && backlog[i].0 == k {
            var i :| 0 <= i < |before| && before[i].0 == k;
            assert backlog[i].0 == k;
          }
        }
      }
    }

    // Rows past the cursor in the order they were written.
    method ReadEmbeddings(after: nat, model: Name, dim: nat) returns (rows: seq<(nat, Id, Vector)>)
      requires DistinctSerials(s.rows) && forall id :: id in s.rows ==> s.rows[id].serial < s.nextSerial
      ensures ListsRows(rows, EmbeddingsAfter(s, after, model, dim))
    {
      var wanted := EmbeddingsAfter(s, after, model, dim);
      rows := ListRows(wanted, s.nextSerial);
    }
  }

  method ListRows(wanted: map<Id, Row>, bound: nat) returns (rows: seq<(nat, Id, Vector)>)
    requires DistinctSerials(wanted) && forall id :: id in wanted ==> wanted[id].serial < bound
    ensures ListsRows(rows, wanted)
  {
    hide ListsRows, Below;
    rows := [];
    NothingBelow(wanted);
    for serial := 0 to bound
      invariant ListsRows(rows, Below(wanted, serial))
    {
      if id :| id in wanted && wanted[id].serial == serial {
        ListNext(rows, wanted, serial, id);
        rows := rows + [(serial, id, wanted[id].vec)];
      } else {
        BelowSame(wanted, serial);
      }
    }
    AllBelow(wanted, bound);
  }

  ghost function Below(rows: map<Id, Row>, bound: nat): map<Id, Row> {
    map id | id in rows && rows[id].serial < bound :: rows[id]
  }

  lemma NothingBelow(rows: map<Id, Row>)
    ensures ListsRows([], Below(rows, 0))
  {
  }

  lemma AllBelow(rows: map<Id, Row>, bound: nat)
    requires forall id :: id in rows ==> rows[id].serial < bound
    ensures Below(rows, bound) == rows
  {
  }

  lemma BelowSame(rows: map<Id, Row>, bound: nat)
    requires forall id :: id in rows ==> rows[id].serial != bound
    ensures Below(rows, bound + 1) == Below(rows, bound)
  {
  }

  lemma ListNext(rows: seq<(nat, Id, Vector)>, wanted: map<Id, Row>, bound: nat, id: Id)
    requires DistinctSerials(wanted) && id in wanted && wanted[id].serial == bound
      && ListsRows(rows, Below(wanted, bound))
    ensures ListsRows(rows + [(bound, id, wanted[id].vec)], Below(wanted, bound + 1))
  {
    hide ListsRows;
    assert forall k :: k in wanted && wanted[k].serial == bound ==> k == id;
    assert Below(wanted, bound + 1) == Below(wanted, bound)[id := wanted[id]];
    ListOneMore(rows, Below(wanted, bound), id, wanted[id]);
  }

  // `rows` lists `wanted`, each row once, by sequence number.
  ghost predicate ListsRows(rows: seq<(nat, Id, Vector)>, wanted: map<Id, Row>) {
    && (forall i :: 0 <= i < |rows| ==>
          rows[i].1 in wanted && wanted[rows[i].1].serial == rows[i].0 && wanted[rows[i].1].vec == rows[i].2)
    && (forall i, j :: 0 <= i < j < |rows| ==> rows[i].0 < rows[j].0)
    && (forall id :: id in wanted ==> exists i :: 0 <= i < |rows| && rows[i].1 == id)
  }

  lemma ListOneMore(rows: seq<(nat, Id, Vector)>, done: map<Id, Row>, id: Id, row: Row)
    requires ListsRows(rows, done) && id !in done && forall k :: k in done ==> done[k].serial < row.serial
    ensures ListsRows(rows + [(row.serial, id, row.vec)], done[id := row])
  {
    var more := rows + [(row.serial, id, row.vec)];
    var after := done[id := row];
    forall k | k in after ensures exists i :: 0 <= i < |more| && more[i].1 == k {
      if k == id {
        assert more[|rows|].1 == id;
      } else {
        var i :| 0 <= i < |rows| && rows[i].1 == k;
        assert more[i].1 == k;
      }
    }
  }

  // The rows listed so far, as what they add to an index and to its cursor.
  function Listed(rows: seq<(nat, Id, Vector)>): map<Id, Vector> {
    if rows == [] then map[] else Listed(rows[..|rows| - 1])[rows[|rows| - 1].1 := rows[|rows| - 1].2]
  }

  function Cursor(rows: seq<(nat, Id, Vector)>, cursor: nat): nat {
    if rows == [] then cursor
    else
      var before := Cursor(rows[..|rows| - 1], cursor);
      if rows[|rows| - 1].0 > before then rows[|rows| - 1].0 else before
  }

  lemma ListedStep(rows: seq<(nat, Id, Vector)>, i: nat, base: map<Id, Vector>, cursor: nat)
    requires i < |rows|
    ensures base + Listed(rows[..i + 1]) == (base + Listed(rows[..i]))[rows[i].1 := rows[i].2]
    ensures Cursor(rows[..i + 1], cursor) == var c := Cursor(rows[..i], cursor); if rows[i].0 > c then rows[i].0 else c
  {
    assert rows[..i + 1][..i] == rows[..i];
  }

  lemma {:induction false} ListedVectors(rows: seq<(nat, Id, Vector)>)
    requires forall i, j :: 0 <= i < j < |rows| ==> rows[i].1 != rows[j].1
    ensures forall i :: 0 <= i < |rows| ==> rows[i].1 in Listed(rows) && Listed(rows)[rows[i].1] == rows[i].2
    ensures forall id :: id in Listed(rows) ==> exists i :: 0 <= i < |rows| && rows[i].1 == id
  {
    if rows != [] {
      var init := rows[..|rows| - 1];
      ListedVectors(init);
      forall id | id in Listed(rows) ensures exists i :: 0 <= i < |rows| && rows[i].1 == id {
        if id != rows[|rows| - 1].1 {
          assert id in Listed(init);
          var i :| 0 <= i < |init| && init[i].1 == id;
          assert rows[i].1 == id;
        }
      }
    }
  }

  lemma {:induction false} CursorIsLargest(rows: seq<(nat, Id, Vector)>, cursor: nat)
    requires forall i, j :: 0 <= i < j < |rows| ==> rows[i].0 < rows[j].0
    ensures var c := Cursor(rows, cursor);
      && c >= cursor && (c == cursor || (rows != [] && c == rows[|rows| - 1].0))
      && forall i :: 0 <= i < |rows| ==> rows[i].0 <= c
  {
    if rows != [] {
      var init := rows[..|rows| - 1];
      CursorIsLargest(init, cursor);
      forall i | 0 <= i < |rows| - 1 ensures rows[i].0 <= Cursor(rows, cursor) {
        assert init[i] == rows[i];
      }
    }
  }

  // Pushing the listed rows one by one is the protocol's load.
  lemma ListedIsLoad(m: Memory, s: Store, rows: seq<(nat, Id, Vector)>)
    requires m.held.Some? && m.dim != 0
    requires ListsRows(rows, EmbeddingsAfter(s, m.seenSerial, m.held.value.Name(), m.dim))
    ensures m.(index := m.index + Listed(rows), seenSerial := Cursor(rows, m.seenSerial)) == Load(m, s)
  {
    var loaded := EmbeddingsAfter(s, m.seenSerial, m.held.value.Name(), m.dim);
    hide EmbeddingsAfter, ListsRows, Listed, Cursor, Vectors;
    ListedIsLoaded(rows, loaded);
    CursorIsTop(rows, loaded, m.seenSerial) by { AfterTheCursor(m, s); }
  }

  lemma AfterTheCursor(m: Memory, s: Store)
    requires m.held.Some?
    ensures var loaded := EmbeddingsAfter(s, m.seenSerial, m.held.value.Name(), m.dim);
      forall id :: id in loaded ==> loaded[id].serial > m.seenSerial
  {
  }

  lemma ListedIsLoaded(rows: seq<(nat, Id, Vector)>, loaded: map<Id, Row>)
    requires ListsRows(rows, loaded)
    ensures Listed(rows) == Vectors(loaded)
  {
    forall i, j | 0 <= i < j < |rows| ensures rows[i].1 != rows[j].1 {
      assert loaded[rows[i].1].serial == rows[i].0 && loaded[rows[j].1].serial == rows[j].0;
    }
    ListedVectors(rows);
    hide Listed;
  }

  lemma CursorIsTop(rows: seq<(nat, Id, Vector)>, loaded: map<Id, Row>, cursor: nat)
    requires ListsRows(rows, loaded) && forall id :: id in loaded ==> loaded[id].serial > cursor
    ensures var top := MaxId(set id | id in loaded :: loaded[id].serial);
      Cursor(rows, cursor) == if top > cursor then top else cursor
  {
    CursorIsLargest(rows, cursor);
    var serials := set id | id in loaded :: loaded[id].serial;
    if rows != [] {
      var last := rows[|rows| - 1];
      assert loaded[last.1].serial == last.0 && last.0 in serials;
      var id :| id in loaded && loaded[id].serial == MaxId(serials);
      var i :| 0 <= i < |rows| && rows[i].1 == id;
      assert rows[i].0 <= last.0;
    } else {
      assert serials == {};
    }
  }

  // --- how a batch shrinks the backlog -------------------------------------

  function BacklogOf(s: Store, model: Name): set<Id> {
    set id | id in s.turns && InBacklog(s, model, id)
  }

  lemma {:induction false} PutRowsAt(s: Store, batch: seq<(Id, Vector)>, model: Name, id: Id)
    ensures var t := PutRows(s, batch, model); t.turns == s.turns && t.generation == s.generation && t.spec == s.spec
    ensures var t := PutRows(s, batch, model);
      if exists i :: 0 <= i < |batch| && batch[i].0 == id then id in t.rows && t.rows[id].model == model
      else (id in t.rows <==> id in s.rows) && (id in s.rows ==> t.rows[id] == s.rows[id])
    decreases |batch|
  {
    if batch != [] {
      var s1 := PutOne(s, batch[0].0, model, batch[0].1);
      PutRowsAt(s1, batch[1..], model, id);
      if i :| 1 <= i < |batch| && batch[i].0 == id {
        assert batch[1..][i - 1] == batch[i];
      }
    }
  }

  function Taken(backlog: seq<(Id, string)>): set<Id> {
    set i | 0 <= i < |backlog| :: backlog[i].0
  }

  lemma TakenSize(backlog: seq<(Id, string)>)
    requires forall i, j :: 0 <= i < j < |backlog| ==> backlog[i].0 < backlog[j].0
    ensures |Taken(backlog)| == |backlog|
  {
    var ids := seq(|backlog|, i requires 0 <= i < |backlog| => backlog[i].0);
    assert Distinct(ids) by {
      forall i, j | 0 <= i < j < |ids| ensures ids[i] != ids[j] {
        assert backlog[i].0 < backlog[j].0;
      }
    }
    ListSize(ids);
    forall id ensures id in Taken(backlog) <==> id in ids {
      if id in Taken(backlog) {
        var i :| 0 <= i < |backlog| && backlog[i].0 == id;
        assert ids[i] == id;
      }
    }
    assert Taken(backlog) == Elements(ids);
  }

  // A backlog answer names as many turns as there are, up to the limit.
  lemma TakenCount(s: Store, model: Name, limit: nat, backlog: seq<(Id, string)>)
    requires IsBacklog(s, model, limit, backlog)
    ensures Taken(backlog) <= BacklogOf(s, model)
    ensures |Taken(backlog)| == |backlog| == Min(limit, |BacklogOf(s, model)|)
  {
    TakenSize(backlog);
    SubsetSize(Taken(backlog), BacklogOf(s, model));
    if |backlog| < limit {
      forall id | id in BacklogOf(s, model) ensures id in Taken(backlog) {}
      assert Taken(backlog) == BacklogOf(s, model);
    }
  }

  // Writing it leaves the others.
  lemma BatchLeaves(embed: Embedding, s: Store, model: Name, backlog: seq<(Id, string)>)
    ensures BacklogOf(PutRows(s, EmbedAll(embed, model, backlog), model), model) == BacklogOf(s, model) - Taken(backlog)
  {
    var batch := EmbedAll(embed, model, backlog);
    var t := PutRows(s, batch, model);
    PutRowsAt(s, batch, model, 0);
    forall id ensures id in BacklogOf(t, model) <==> id in BacklogOf(s, model) && id !in Taken(backlog) {
      PutRowsAt(s, batch, model, id);
      assert id in Taken(backlog) <==> exists i :: 0 <= i < |batch| && batch[i].0 == id by {
        if i :| 0 <= i < |batch| && batch[i].0 == id {
          assert backlog[i].0 == id;
        }
        if id in Taken(backlog) {
          var i :| 0 <= i < |backlog| && backlog[i].0 == id;
          assert batch[i].0 == id;
        }
      }
    }
  }

  // A written batch takes as many turns off the backlog as it holds: the limit, or all.
  lemma BatchShrinks(embed: Embedding, s: Store, model: Name, limit: nat, backlog: seq<(Id, string)>)
    requires IsBacklog(s, model, limit, backlog)
    ensures |backlog| == Min(limit, |BacklogOf(s, model)|)
    ensures var t := PutRows(s, EmbedAll(embed, model, backlog), model);
      |BacklogOf(t, model)| == |BacklogOf(s, model)| - |backlog|
  {
    TakenCount(s, model, limit, backlog);
    BatchLeaves(embed, s, model, backlog);
    SubsetSize(Taken(backlog), BacklogOf(s, model));
  }

  lemma MovesSound(embed: Embedding, s: Store, t: Store)
    requires StoreMoves(embed, s, t)
    ensures Sound(embed, s) && Uniform(s) && Sound(embed, t) && Uniform(t)
  {
  }
}
