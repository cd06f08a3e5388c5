/** The in-memory index: every vector flat in one buffer, searched by brute force. */
module VectorIndexes {
  import opened Embedders
  import opened Lists
  import opened Sorting
  import opened Stores

  function Dot(a: Vector, b: Vector): real {
    if a == [] || b == [] then 0.0 else a[0] * b[0] + Dot(a[1..], b[1..])
  }

  // --- what a search means ------------------------------------------------

  type Scored = (Id, real)

  // Better score first, ties by higher id.
  const BEST_FIRST: (Scored, Scored) -> bool := (a: Scored, b: Scored) => a.1 > b.1 || (a.1 == b.1 && a.0 >= b.0)

  ghost function Entries(contents: map<Id, Vector>, query: Vector, keep: Id -> bool): set<Scored> {
    set id | id in contents && keep(id) :: (id, Dot(query, contents[id]))
  }

  lemma EntriesAdd(contents: map<Id, Vector>, query: Vector, keep: Id -> bool, id: Id, vec: Vector)
    requires id !in contents
    ensures multiset(Entries(contents[id := vec], query, keep))
         == multiset(Entries(contents, query, keep)) + if keep(id) then multiset{(id, Dot(query, vec))} else multiset{}
  {
    var before, after := Entries(contents, query, keep), Entries(contents[id := vec], query, keep);
    var e := (id, Dot(query, vec));
    assert e !in before;
    forall x ensures x in after <==> x in before || (keep(id) && x == e) {
      if x in before {
        var j :| j in contents && keep(j) && x == (j, Dot(query, contents[j]));
        assert j in contents[id := vec] && contents[id := vec][j] == contents[j];
      }
      if keep(id) {
        assert id in contents[id := vec];
      }
    }
    assert after == if keep(id) then before + {e} else before;
  }

  // `ranking` lists the filtered entries of `contents`, each once, best first.
  ghost predicate IsRanking(contents: map<Id, Vector>, query: Vector, keep: Id -> bool, ranking: seq<Scored>) {
    SortedBy(ranking, BEST_FIRST) && multiset(ranking) == multiset(Entries(contents, query, keep))
  }

  // There is one ranking, whatever order the vectors were pushed in.
  lemma RankingUnique(contents: map<Id, Vector>, query: Vector, keep: Id -> bool, r: seq<Scored>, r': seq<Scored>)
    requires IsRanking(contents, query, keep, r) && IsRanking(contents, query, keep, r')
    ensures r == r'
  {
    assert Linear(BEST_FIRST);
    SortedOnlyOneWay(r, r', BEST_FIRST);
  }

  ghost predicate IsTop(contents: map<Id, Vector>, query: Vector, k: nat, keep: Id -> bool, top: seq<Scored>) {
    exists ranking :: IsRanking(contents, query, keep, ranking) && top == Take(ranking, k)
  }

  // The answer depends on the stored vectors alone, the filter is applied before the cut,
  // and asking for more only extends the answer.
  lemma TopGrows(contents: map<Id, Vector>, query: Vector, k: nat, keep: Id -> bool, top: seq<Scored>,
                 more: seq<Scored>)
    requires IsTop(contents, query, k, keep, top) && IsTop(contents, query, k + 1, keep, more)
    ensures top <= more && |more| <= |top| + 1
    ensures |top| < k ==> top == more
  {
    var r :| IsRanking(contents, query, keep, r) && top == Take(r, k);
    var r' :| IsRanking(contents, query, keep, r') && more == Take(r', k + 1);
    RankingUnique(contents, query, keep, r, r');
  }

  // What the cut leaves out scores no better than what it keeps.
  lemma TopIsBest(contents: map<Id, Vector>, query: Vector, k: nat, keep: Id -> bool, top: seq<Scored>, id: Id)
    requires IsTop(contents, query, k, keep, top) && id in contents && keep(id)
    ensures (id, Dot(query, contents[id])) in top
         || (|top| == k && forall i :: 0 <= i < k ==> BEST_FIRST(top[i], (id, Dot(query, contents[id]))))
  {
    var r :| IsRanking(contents, query, keep, r) && top == Take(r, k);
    var e := (id, Dot(query, contents[id]));
    assert e in Entries(contents, query, keep);
    assert e in multiset(r);
  }

  // --- the index ----------------------------------------------------------

  // The `pos`-th stretch of `dim` numbers.
  function Stretch(data: seq<real>, dim: nat, pos: nat): Vector {
    if pos * dim <= (pos + 1) * dim <= |data| then data[pos * dim..(pos + 1) * dim] else []
  }

  // The buffer with its `pos`-th stretch overwritten.
  function Overwrite(data: seq<real>, dim: nat, pos: nat, vec: Vector): seq<real> {
    if pos * dim <= (pos + 1) * dim <= |data| then data[..pos * dim] + vec + data[(pos + 1) * dim..] else data
  }

  lemma StretchFits(n: nat, dim: nat, pos: nat)
    requires pos < n
    ensures pos * dim + dim == (pos + 1) * dim <= n * dim
  {
  }

  lemma OverwriteStretch(data: seq<real>, dim: nat, n: nat, pos: nat, vec: Vector, q: nat)
    requires |data| == n * dim && |vec| == dim && pos < n && q < n
    ensures |Overwrite(data, dim, pos, vec)| == |data|
    ensures Stretch(Overwrite(data, dim, pos, vec), dim, q) == if q == pos then vec else Stretch(data, dim, q)
  {
    StretchFits(n, dim, pos);
    StretchFits(n, dim, q);
    if q < pos {
      StretchFits(pos, dim, q);
    } else if pos < q {
      StretchFits(q, dim, pos);
    }
  }

  lemma AppendStretch(data: seq<real>, dim: nat, n: nat, vec: Vector, q: nat)
    requires |data| == n * dim && |vec| == dim && q <= n
    ensures |data + vec| == (n + 1) * dim
    ensures Stretch(data + vec, dim, q) == if q == n then vec else Stretch(data, dim, q)
  {
    StretchFits(n + 1, dim, q);
    if q < n {
      StretchFits(n, dim, q);
    }
  }

  lemma StretchesOverwritten(data: seq<real>, dim: nat, n: nat, pos: nat, vec: Vector)
    requires |data| == n * dim && |vec| == dim && pos < n
    ensures |Overwrite(data, dim, pos, vec)| == |data|
    ensures forall q :: 0 <= q < n ==>
      Stretch(Overwrite(data, dim, pos, vec), dim, q) == if q == pos then vec else Stretch(data, dim, q)
  {
    hide Overwrite, Stretch;
    OverwriteStretch(data, dim, n, pos, vec, pos);
    forall q | 0 <= q < n
      ensures Stretch(Overwrite(data, dim, pos, vec), dim, q) == if q == pos then vec else Stretch(data, dim, q)
    {
      OverwriteStretch(data, dim, n, pos, vec, q);
    }
  }

  lemma StretchesAppended(data: seq<real>, dim: nat, n: nat, vec: Vector)
    requires |data| == n * dim && |vec| == dim
    ensures |data + vec| == (n + 1) * dim
    ensures forall q :: 0 <= q <= n ==> Stretch(data + vec, dim, q) == if q == n then vec else Stretch(data, dim, q)
  {
    hide Stretch;
    AppendStretch(data, dim, n, vec, n);
    forall q | 0 <= q <= n ensures Stretch(data + vec, dim, q) == if q == n then vec else Stretch(data, dim, q) {
      AppendStretch(data, dim, n, vec, q);
    }
  }

  // The buffer read as a map from turn to vector.
  ghost function ByPosition(positions: map<Id, nat>, data: seq<real>, dim: nat): map<Id, Vector> {
    map id | id in positions :: Stretch(data, dim, positions[id])
  }

  ghost predicate Placed(ids: seq<Id>, positions: map<Id, nat>) {
    && (forall i :: 0 <= i < |ids| ==> ids[i] in positions && positions[ids[i]] == i)
    && (forall id :: id in positions ==> positions[id] < |ids| && ids[positions[id]] == id)
  }

  lemma StretchOf(ids: seq<Id>, positions: map<Id, nat>, data: seq<real>, data': seq<real>, dim: nat, id: Id,
                  vec: Vector)
    requires Placed(ids, positions) && id in positions
    requires forall q :: 0 <= q < |ids| ==>
      Stretch(data', dim, q) == if q == positions[id] then vec else Stretch(data, dim, q)
    ensures ByPosition(positions, data', dim) == ByPosition(positions, data, dim)[id := vec]
  {
    hide Stretch;
  }

  lemma StretchAdded(ids: seq<Id>, positions: map<Id, nat>, data: seq<real>, data': seq<real>, dim: nat, id: Id,
                     vec: Vector)
    requires Placed(ids, positions) && id !in positions
    requires forall q :: 0 <= q <= |ids| ==>
      Stretch(data', dim, q) == if q == |ids| then vec else Stretch(data, dim, q)
    ensures Placed(ids + [id], positions[id := |ids|])
    ensures ByPosition(positions[id := |ids|], data', dim) == ByPosition(positions, data, dim)[id := vec]
  {
    hide Stretch;
  }

  class VectorIndex {
    var dim: nat
    var ids: seq<Id>
    var data: seq<real>
    // Where in `ids`, and so in the buffer, an id's stretch is.
    var positions: map<Id, nat>

    ghost predicate Valid()
      reads this
    {
      |data| == |ids| * dim && Placed(ids, positions)
    }

    // The index as a map from turn to vector.
    ghost function Contents(): map<Id, Vector>
      reads this
      requires Valid()
    {
      ByPosition(positions, data, dim)
    }

    constructor (dim: nat)
      ensures Valid() && this.dim == dim && Contents() == map[]
    {
      this.dim := dim;
      ids, data, positions := [], [], map[];
    }

    method Clear()
      requires Valid()
      modifies this
      ensures Valid() && dim == old(dim) && Contents() == map[]
    {
      ids, data, positions := [], [], map[];
    }

    // From here on the id has this vector, whatever it had.
    method Push(id: Id, vec: Vector)
      requires Valid() && |vec| == dim
      modifies this
      ensures Valid() && dim == old(dim)
      ensures Contents() == old(Contents())[id := vec]
    {
      ghost var n := |ids|;
      if id in positions {
        var pos := positions[id];
        StretchesOverwritten(data, dim, n, pos, vec);
        StretchOf(ids, positions, data, Overwrite(data, dim, pos, vec), dim, id, vec);
        data := Overwrite(data, dim, pos, vec);
      } else {
        StretchesAppended(data, dim, n, vec);
        StretchAdded(ids, positions, data, data + vec, dim, id, vec);
        positions := positions[id := |ids|];
        ids := ids + [id];
        data := data + vec;
      }
    }

    method Contains(id: Id) returns (held: bool)
      requires Valid()
      ensures held <==> id in Contents()
    {
      held := id in positions;
    }

    method VectorFor(id: Id) returns (held: bool, vec: Vector)
      requires Valid()
      ensures held <==> id in Contents()
      ensures held ==> vec == Contents()[id]
    {
      held, vec := id in positions, [];
      if held {
        vec := Stretch(data, dim, positions[id]);
      }
    }

    // Top `k` by score among the ids `keep` accepts; nothing for a query of another length.
    method Search(query: Vector, k: nat, keep: Id -> bool) returns (top: seq<Scored>)
      requires Valid()
      ensures |query| != dim ==> top == []
      ensures |query| == dim ==> IsTop(Contents(), query, k, keep, top)
    {
      if |query| != dim {
        return [];
      }
      var scored: seq<Scored> := [];
      ghost var done: map<Id, Vector> := map[];
      for i := 0 to |ids|
        invariant done.Keys == (set j | 0 <= j < i :: ids[j])
        invariant forall id :: id in done ==> id in Contents() && done[id] == Contents()[id]
        invariant multiset(scored) == multiset(Entries(done, query, keep))
      {
        var id, vec := ids[i], Stretch(data, dim, i);
        EntriesAdd(done, query, keep, id, vec);
        done := done[id := vec];
        if keep(id) {
          scored := scored + [(id, Dot(query, vec))];
        }
      }
      assert done == Contents();
      SortPermutes(scored, BEST_FIRST);
      SortSorts(scored, BEST_FIRST);
      scored := Sort(scored, BEST_FIRST);
      assert IsRanking(Contents(), query, keep, scored);
      top := Take(scored, k);
    }
  }
}
