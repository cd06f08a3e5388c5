/** Text cut into pieces, plain or a mention each. Offsets are in bytes and come from
    elsewhere: they may be out of bounds, empty, overlapping or negative. */
module MentionSpans {
  import opened Optional
  import opened Sorting

  newtype Byte = b: int | 0 <= b < 256

  type Bytes = seq<Byte>

  datatype Mention = Mention(start: int, end: int)

  datatype TextSpan = TextSpan(text: Bytes, mention: Option<Mention>)

  // By start, the longer first.
  const BY_START: (Mention, Mention) -> bool :=
    (a: Mention, b: Mention) => a.start < b.start || (a.start == b.start && a.end >= b.end)

  function Clamp(n: nat, offset: int): int { if offset < n then offset else n }

  // --- which mentions are kept --------------------------------------------

  // Where the last mention kept among the first `i` ends.
  function Cursor(ordered: seq<Mention>, n: nat, i: nat): (cursor: nat)
    requires i <= |ordered|
    ensures cursor <= n
    decreases i, 0
  {
    if i == 0 then 0
    else if Keeps(ordered, n, i - 1) then Clamp(n, ordered[i - 1].end)
    else Cursor(ordered, n, i - 1)
  }

  predicate Keeps(ordered: seq<Mention>, n: nat, i: nat)
    requires i < |ordered|
    decreases i, 1
  {
    Clamp(n, ordered[i].start) >= Cursor(ordered, n, i) && Clamp(n, ordered[i].end) > Clamp(n, ordered[i].start)
  }

  function Kept(ordered: seq<Mention>, n: nat, i: nat): seq<Mention>
    requires i <= |ordered|
  {
    if i == 0 then []
    else Kept(ordered, n, i - 1) + if Keeps(ordered, n, i - 1) then [ordered[i - 1]] else []
  }

  predicate Overlap(n: nat, a: Mention, b: Mention) {
    Clamp(n, a.start) < Clamp(n, b.end) && Clamp(n, b.start) < Clamp(n, a.end)
  }

  lemma {:induction false} CursorIsAnEnd(ordered: seq<Mention>, n: nat, i: nat)
    requires i <= |ordered|
    ensures
      || Cursor(ordered, n, i) == 0
      || exists j :: 0 <= j < i && Keeps(ordered, n, j) && Clamp(n, ordered[j].end) == Cursor(ordered, n, i)
    ensures forall j :: 0 <= j < i && Keeps(ordered, n, j) ==> Clamp(n, ordered[j].end) <= Cursor(ordered, n, i)
  {
    if i > 0 {
      CursorIsAnEnd(ordered, n, i - 1);
    }
  }

  // First wins: a mention is kept exactly when it is not empty, does not start before the
  // text and overlaps no mention kept before it.
  lemma KeptExactlyWhen(ordered: seq<Mention>, n: nat, i: nat)
    requires i < |ordered| && SortedBy(ordered, BY_START)
    ensures Keeps(ordered, n, i) <==>
      && Clamp(n, ordered[i].start) < Clamp(n, ordered[i].end)
      && ordered[i].start >= 0
      && forall j :: 0 <= j < i && Keeps(ordered, n, j) ==> !Overlap(n, ordered[j], ordered[i])
  {
    CursorIsAnEnd(ordered, n, i);
    if Clamp(n, ordered[i].start) < Clamp(n, ordered[i].end) && ordered[i].start >= 0
      && Clamp(n, ordered[i].start) < Cursor(ordered, n, i) {
      var j :| 0 <= j < i && Keeps(ordered, n, j) && Clamp(n, ordered[j].end) == Cursor(ordered, n, i);
      assert BY_START(ordered[j], ordered[i]);
      assert Overlap(n, ordered[j], ordered[i]);
    }
  }

  // Mentions within the text, none empty and no two overlapping, are all kept.
  lemma {:induction false} GoodMentionsAreKept(ordered: seq<Mention>, n: nat, i: nat)
    requires i <= |ordered| && SortedBy(ordered, BY_START)
    requires forall k :: 0 <= k < |ordered| ==> 0 <= ordered[k].start < ordered[k].end <= n
    requires forall j, k :: 0 <= j < k < |ordered| ==> !Overlap(n, ordered[j], ordered[k])
    ensures Kept(ordered, n, i) == ordered[..i]
  {
    if i > 0 {
      GoodMentionsAreKept(ordered, n, i - 1);
      KeptExactlyWhen(ordered, n, i - 1);
    }
  }

  // --- the pieces ---------------------------------------------------------

  function Joined(spans: seq<TextSpan>): Bytes {
    if spans == [] then [] else Joined(spans[..|spans| - 1]) + spans[|spans| - 1].text
  }

  function Mentioned(spans: seq<TextSpan>): seq<Mention> {
    if spans == [] then []
    else
      var last := spans[|spans| - 1];
      Mentioned(spans[..|spans| - 1]) + if last.mention.Some? then [last.mention.value] else []
  }

  // Each mentioned piece lies where its mention says, and no piece is empty.
  ghost predicate InPlace(spans: seq<TextSpan>, n: nat) {
    spans != [] ==>
      var before, last := spans[..|spans| - 1], spans[|spans| - 1];
      && InPlace(before, n) && last.text != []
      && (last.mention.Some? ==>
            && |Joined(before)| == Clamp(n, last.mention.value.start)
            && |Joined(spans)| == Clamp(n, last.mention.value.end))
  }

  lemma PushPiece(spans: seq<TextSpan>, bytes: Bytes, from: nat, to: nat, mention: Option<Mention>)
    requires from < to <= |bytes| && Joined(spans) == bytes[..from] && InPlace(spans, |bytes|)
    requires mention.Some? ==> Clamp(|bytes|, mention.value.start) == from && Clamp(|bytes|, mention.value.end) == to
    ensures var more := spans + [TextSpan(bytes[from..to], mention)];
      && Joined(more) == bytes[..to] && InPlace(more, |bytes|)
      && Mentioned(more) == Mentioned(spans) + if mention.Some? then [mention.value] else []
  {
    var more := spans + [TextSpan(bytes[from..to], mention)];
    assert more[..|spans|] == spans;
    assert bytes[..from] + bytes[from..to] == bytes[..to];
  }

  // One mention in its turn: the plain text before it, then its own piece.
  method PushMention(bytes: Bytes, spans: seq<TextSpan>, cursor: nat, mention: Mention) returns (more: seq<TextSpan>)
    requires cursor <= Clamp(|bytes|, mention.start) < Clamp(|bytes|, mention.end)
    requires Joined(spans) == bytes[..cursor] && InPlace(spans, |bytes|)
    ensures Joined(more) == bytes[..Clamp(|bytes|, mention.end)] && InPlace(more, |bytes|)
    ensures Mentioned(more) == Mentioned(spans) + [mention]
  {
    hide Joined, InPlace, Mentioned;
    var start, end := Clamp(|bytes|, mention.start), Clamp(|bytes|, mention.end);
    more := spans;
    if start > cursor {
      PushPiece(more, bytes, cursor, start, None);
      more := more + [TextSpan(bytes[cursor..start], None)];
      assert Mentioned(more) == Mentioned(spans) + [];
    }
    PushPiece(more, bytes, start, end, Some(mention));
    more := more + [TextSpan(bytes[start..end], Some(mention))];
  }

  lemma NoPieces(bytes: Bytes)
    ensures Joined([]) == bytes[..0] && InPlace([], |bytes|) && Mentioned([]) == []
    ensures Joined([TextSpan(bytes, None)]) == bytes
  {
    assert [TextSpan(bytes, None)][..0] == [];
  }

  method SplitMentions(bytes: Bytes, mentions: seq<Mention>) returns (spans: seq<TextSpan>)
    ensures Joined(spans) == bytes
    ensures mentions == [] ==> spans == [TextSpan(bytes, None)]
    ensures mentions != [] ==>
      var ordered := Sort(mentions, BY_START);
      && multiset(ordered) == multiset(mentions) && SortedBy(ordered, BY_START)
      && InPlace(spans, |bytes|) && Mentioned(spans) == Kept(ordered, |bytes|, |ordered|)
  {
    hide Joined, InPlace, Mentioned;
    NoPieces(bytes);
    if mentions == [] {
      return [TextSpan(bytes, None)];
    }
    var ordered := Sort(mentions, BY_START);
    SortPermutes(mentions, BY_START);
    SortSorts(mentions, BY_START);
    var n := |bytes|;
    spans := [];
    var cursor := 0;
    for i := 0 to |ordered|
      invariant cursor == Cursor(ordered, n, i) && Joined(spans) == bytes[..cursor]
      invariant InPlace(spans, n) && Mentioned(spans) == Kept(ordered, n, i)
    {
      var mention := ordered[i];
      var start, end := Clamp(n, mention.start), Clamp(n, mention.end);
      if start >= cursor && end > start {
        spans := PushMention(bytes, spans, cursor, mention);
        cursor := end;
      }
    }
    if cursor < n {
      PushPiece(spans, bytes, cursor, n, None);
      spans := spans + [TextSpan(bytes[cursor..], None)];
    }
    assert bytes[..n] == bytes;
  }
}
