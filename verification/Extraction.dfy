/** All the mentions of a text: the words that touch no technical token, cut into runs, and the
    dates, quantities and names in each run. */
module Extraction {
  import opened Optional
  import opened Lists
  import opened Sorting
  import opened TokenShapes
  import opened Words
  import opened WordShapes
  import opened Entities
  import opened LetterlessTokens

  type Stopword = string -> bool

  // --- runs of words ------------------------------------------------------

  predicate Clear(technical: seq<Mention>, w: Word) {
    forall k :: 0 <= k < |technical| ==> !Overlap(w.start, w.end, technical[k].start, technical[k].end)
  }

  // A word that touches a technical token ends a run and is left out.
  function RunsOf(technical: seq<Mention>, words: seq<Word>): (runs: seq<seq<Word>>)
    ensures |runs| > 0
  {
    if words == [] then [[]]
    else
      var before, w := RunsOf(technical, words[..|words| - 1]), words[|words| - 1];
      var last := |before| - 1;
      if Clear(technical, w) then before[..last] + [before[last] + [w]] else before + [[]]
  }

  method Runs(technical: seq<Mention>, words: seq<Word>) returns (runs: seq<seq<Word>>)
    ensures runs == RunsOf(technical, words)
  {
    runs := [[]];
    for i := 0 to |words|
      invariant runs == RunsOf(technical, words[..i])
    {
      assert words[..i + 1][..i] == words[..i];
      if Clear(technical, words[i]) {
        runs := runs[..|runs| - 1] + [runs[|runs| - 1] + [words[i]]];
      } else {
        runs := runs + [[]];
      }
    }
    assert words[..|words|] == words;
  }

  // --- the shapes in a run ------------------------------------------------

  ghost predicate WordsIn(text: string, ws: seq<Word>) {
    && (forall k :: 0 <= k < |ws| ==> ws[k].start < ws[k].end <= |text|)
    && InOrder(ws)
  }

  function Texts(text: string, ws: seq<Word>): (texts: seq<string>)
    ensures |texts| == |ws| && forall k :: 0 <= k < |ws| ==> texts[k] == ws[k].Text(text)
  {
    seq(|ws|, k requires 0 <= k < |ws| => ws[k].Text(text))
  }

  // A capitalised word that opens no sentence goes on with a name.
  predicate GoesOn(u: Classes, text: string, w: Word) {
    IsCapitalised(u, w.Text(text)) && !w.sentenceStart
  }

  // Where a name that has got to `j` ends: over capitals, and over one connector at a time
  // with a capital behind it.
  function NameEnd(u: Classes, stopword: Stopword, text: string, ws: seq<Word>, j: nat): (end: nat)
    requires j <= |ws|
    ensures j <= end <= |ws|
    decreases |ws| - j
  {
    if j == |ws| then j
    else
      var lower := u.lower(ws[j].Text(text));
      if GoesOn(u, text, ws[j]) && !stopword(lower) then NameEnd(u, stopword, text, ws, j + 1)
      else if j + 1 < |ws| && lower in CONNECTORS && GoesOn(u, text, ws[j + 1])
        then NameEnd(u, stopword, text, ws, j + 2)
      else j
  }

  // Word k takes a name on: a capital of its own, or a connector with a capital behind it.
  predicate TakesOn(u: Classes, stopword: Stopword, text: string, ws: seq<Word>, k: nat)
    requires k < |ws|
  {
    var lower := u.lower(ws[k].Text(text));
    || (GoesOn(u, text, ws[k]) && !stopword(lower))
    || (k + 1 < |ws| && lower in CONNECTORS && GoesOn(u, text, ws[k + 1]))
  }

  // A name runs over words that take it on or end it on a capital, stops at the first point
  // where none does, and never ends on a connector.
  lemma {:induction false} NameReaches(u: Classes, stopword: Stopword, text: string, ws: seq<Word>, j: nat)
    requires j <= |ws|
    ensures var end := NameEnd(u, stopword, text, ws, j);
      && (end > j ==> TakesOn(u, stopword, text, ws, j) && GoesOn(u, text, ws[end - 1]))
      && (forall k :: j <= k < end ==> TakesOn(u, stopword, text, ws, k) || (k > j && GoesOn(u, text, ws[k])))
      && (end < |ws| ==> !TakesOn(u, stopword, text, ws, end))
    decreases |ws| - j
  {
    hide GoesOn;
    if j < |ws| {
      var lower := u.lower(ws[j].Text(text));
      if GoesOn(u, text, ws[j]) && !stopword(lower) {
        NameReaches(u, stopword, text, ws, j + 1);
      } else if j + 1 < |ws| && lower in CONNECTORS && GoesOn(u, text, ws[j + 1]) {
        NameReaches(u, stopword, text, ws, j + 2);
      }
    }
  }

  // The words [i, i + n) as a mention.
  function Spanning(text: string, ws: seq<Word>, i: nat, n: nat, key: string, kind: Kind): (m: Mention)
    requires WordsIn(text, ws) && n > 0 && i + n <= |ws|
    ensures Quotes(text, m) && m.start == ws[i].start && m.end == ws[i + n - 1].end
  {
    var end := ws[i + n - 1].end;
    Mention(key, kind, text[ws[i].start..end], ws[i].start, end)
  }

  // The name that starts at word i and takes n words; a key of nothing is no name.
  function NameAt(u: Classes, text: string, ws: seq<Word>, i: nat, n: nat): (m: Option<Mention>)
    requires WordsIn(text, ws) && n > 0 && i + n <= |ws|
    ensures m.Some? ==> Quotes(text, m.value) && m.value.start == ws[i].start && m.value.end == ws[i + n - 1].end
  {
    hide NameKey;
    var whole := Spanning(text, ws, i, n, "", NameKind);
    var key := NameKey(u, whole.surface);
    if key != "" then Some(Spanning(text, ws, i, n, key, NameKind)) else None
  }

  // A shape lies on the words it takes, from word i on.
  ghost predicate OnWords(text: string, ws: seq<Word>, i: nat, shape: (Option<Mention>, nat)) {
    && shape.1 > 0 && i + shape.1 <= |ws|
    && (shape.0.Some? ==>
          var m := shape.0.value; Quotes(text, m) && m.start == ws[i].start && m.end == ws[i + shape.1 - 1].end)
  }

  // The date that starts at word i, with the words it takes.
  function DateAt(u: Classes, text: string, ws: seq<Word>, i: nat): (date: Option<(Mention, nat)>)
    requires WordsIn(text, ws) && i < |ws|
    ensures date.Some? ==> OnWords(text, ws, i, (Some(date.value.0), date.value.1))
  {
    hide ParseDate, Spanning, WordsIn, Quotes;
    var date := ParseDate(u, Texts(text, ws[i..]));
    if date.Some? then Some((Spanning(text, ws, i, date.value.1, date.value.0, DateKind), date.value.1)) else None
  }

  // The name that starts at word i, with the words it takes.
  function NameFrom(u: Classes, stopword: Stopword, text: string, ws: seq<Word>, i: nat)
    : (shape: (Option<Mention>, nat))
    requires WordsIn(text, ws) && i < |ws|
    ensures OnWords(text, ws, i, shape)
  {
    hide NameEnd, NameAt, WordsIn, Quotes;
    var n := NameEnd(u, stopword, text, ws, i + 1) - i;
    (NameAt(u, text, ws, i, n), n)
  }

  // What starts at word i, if anything, and how many words are done with.
  function ShapeAt(u: Classes, stopword: Stopword, text: string, ws: seq<Word>, i: nat): (shape: (Option<Mention>, nat))
    requires WordsIn(text, ws) && i < |ws|
    ensures OnWords(text, ws, i, shape)
  {
    hide DateAt, Quantity, IsNameToken, NameFrom, Spanning, WordsIn, Quotes;
    var word := ws[i].Text(text);
    var date := DateAt(u, text, ws, i);
    if date.Some? then (Some(date.value.0), date.value.1)
    else if Quantity(u, word).Some? then (Some(Spanning(text, ws, i, 1, Quantity(u, word).value, QuantityKind)), 1)
    else if IsNameToken(u, stopword, word, ws[i].sentenceStart) then NameFrom(u, stopword, text, ws, i)
    else (None, 1)
  }

  function ShapesFrom(u: Classes, stopword: Stopword, text: string, ws: seq<Word>, i: nat): seq<Mention>
    requires WordsIn(text, ws) && i <= |ws|
    decreases |ws| - i
  {
    if i == |ws| then []
    else
      var (m, n) := ShapeAt(u, stopword, text, ws, i);
      (if m.Some? then [m.value] else []) + ShapesFrom(u, stopword, text, ws, i + n)
  }

  method FindNameEnd(u: Classes, stopword: Stopword, text: string, ws: seq<Word>, from: nat) returns (j: nat)
    requires from <= |ws|
    ensures j == NameEnd(u, stopword, text, ws, from)
  {
    j := from;
    while j < |ws|
      invariant from <= j <= |ws| && NameEnd(u, stopword, text, ws, j) == NameEnd(u, stopword, text, ws, from)
    {
      var lower := u.lower(ws[j].Text(text));
      if GoesOn(u, text, ws[j]) && !stopword(lower) {
        j := j + 1;
      } else if j + 1 < |ws| && lower in CONNECTORS && GoesOn(u, text, ws[j + 1]) {
        j := j + 2;
      } else {
        return;
      }
    }
  }

  method ShapeOne(u: Classes, stopword: Stopword, text: string, ws: seq<Word>, i: nat)
    returns (m: Option<Mention>, n: nat)
    requires WordsIn(text, ws) && i < |ws|
    ensures (m, n) == ShapeAt(u, stopword, text, ws, i)
  {
    hide ParseDate, Quantity, IsNameToken, NameAt, NameEnd, Spanning, Texts;
    var word := ws[i].Text(text);
    var date := ParseDate(u, Texts(text, ws[i..]));
    if date.Some? {
      return Some(Spanning(text, ws, i, date.value.1, date.value.0, DateKind)), date.value.1;
    }
    if Quantity(u, word).Some? {
      return Some(Spanning(text, ws, i, 1, Quantity(u, word).value, QuantityKind)), 1;
    }
    if IsNameToken(u, stopword, word, ws[i].sentenceStart) {
      var j := FindNameEnd(u, stopword, text, ws, i + 1);
      return NameAt(u, text, ws, i, j - i), j - i;
    }
    return None, 1;
  }

  method Shape(u: Classes, stopword: Stopword, text: string, ws: seq<Word>) returns (out: seq<Mention>)
    requires WordsIn(text, ws)
    ensures out == ShapesFrom(u, stopword, text, ws, 0)
  {
    hide ShapeAt;
    out := [];
    var i := 0;
    while i < |ws|
      invariant i <= |ws| && out + ShapesFrom(u, stopword, text, ws, i) == ShapesFrom(u, stopword, text, ws, 0)
    {
      var m, n := ShapeOne(u, stopword, text, ws, i);
      if m.Some? {
        out := out + [m.value];
      }
      i := i + n;
    }
  }

  // --- where they lie -----------------------------------------------------

  type Range = (nat, nat)

  // The mentions span these ranges of the words, one after another.
  ghost predicate Ranged(words: seq<Word>, ms: seq<Mention>, ranges: seq<Range>, lo: nat, hi: nat) {
    && |ms| == |ranges| && hi <= |words|
    && (forall k :: 0 <= k < |ranges| ==> lo <= ranges[k].0 < ranges[k].1 <= hi)
    && (forall k :: 0 <= k < |ranges| ==>
          ms[k].start == words[ranges[k].0].start && ms[k].end == words[ranges[k].1 - 1].end)
    && (forall k, l :: 0 <= k < l < |ranges| ==> ranges[k].1 <= ranges[l].0)
  }

  lemma RangedCons(words: seq<Word>, m: Mention, range: Range, ms: seq<Mention>, ranges: seq<Range>, lo: nat, hi: nat)
    requires Ranged(words, ms, ranges, range.1, hi) && lo <= range.0 < range.1 <= hi
    requires m.start == words[range.0].start && m.end == words[range.1 - 1].end
    ensures Ranged(words, [m] + ms, [range] + ranges, lo, hi)
  {
  }

  lemma ShapesStep(u: Classes, stopword: Stopword, text: string, ws: seq<Word>, i: nat)
    returns (m: Option<Mention>, n: nat)
    requires WordsIn(text, ws) && i < |ws|
    ensures n > 0 && i + n <= |ws|
    ensures m.Some? ==> Quotes(text, m.value) && m.value.start == ws[i].start && m.value.end == ws[i + n - 1].end
    ensures ShapesFrom(u, stopword, text, ws, i) ==
      (if m.Some? then [m.value] else []) + ShapesFrom(u, stopword, text, ws, i + n)
  {
    hide ShapeAt;
    m, n := ShapeAt(u, stopword, text, ws, i).0, ShapeAt(u, stopword, text, ws, i).1;
  }

  lemma ShapesEnd(u: Classes, stopword: Stopword, text: string, ws: seq<Word>)
    requires WordsIn(text, ws)
    ensures ShapesFrom(u, stopword, text, ws, |ws|) == []
  {
  }

  lemma RangedWiden(words: seq<Word>, ms: seq<Mention>, ranges: seq<Range>, lo: nat, lo': nat, hi: nat)
    requires Ranged(words, ms, ranges, lo, hi) && lo' <= lo
    ensures Ranged(words, ms, ranges, lo', hi)
  {
  }

  lemma {:induction false} ShapesRanged(u: Classes, stopword: Stopword, text: string, ws: seq<Word>, i: nat)
    returns (ranges: seq<Range>)
    requires WordsIn(text, ws) && i <= |ws|
    ensures Ranged(ws, ShapesFrom(u, stopword, text, ws, i), ranges, i, |ws|)
    decreases |ws| - i
  {
    hide ShapesFrom, ShapeAt;
    ranges := [];
    if i == |ws| {
      ShapesEnd(u, stopword, text, ws);
    } else {
      var m, n := ShapesStep(u, stopword, text, ws, i);
      ranges := ShapesRanged(u, stopword, text, ws, i + n);
      var rest := ShapesFrom(u, stopword, text, ws, i + n);
      if m.Some? {
        RangedCons(ws, m.value, (i, i + n), rest, ranges, i, |ws|);
        ranges := [(i, i + n)] + ranges;
      } else {
        RangedWiden(ws, rest, ranges, i + n, i, |ws|);
        assert [] + rest == rest;
      }
    }
  }

  lemma {:induction false} ShapesQuote(u: Classes, stopword: Stopword, text: string, ws: seq<Word>, i: nat)
    requires WordsIn(text, ws) && i <= |ws|
    ensures forall m :: m in ShapesFrom(u, stopword, text, ws, i) ==> Quotes(text, m)
    decreases |ws| - i
  {
    hide ShapesFrom, ShapeAt;
    if i == |ws| {
      ShapesEnd(u, stopword, text, ws);
    } else {
      var m, n := ShapesStep(u, stopword, text, ws, i);
      ShapesQuote(u, stopword, text, ws, i + n);
    }
  }

  lemma RangedShift(words: seq<Word>, p: nat, q: nat, ms: seq<Mention>, inner: seq<Range>) returns (ranges: seq<Range>)
    requires p <= q <= |words| && Ranged(words[p..q], ms, inner, 0, q - p)
    ensures Ranged(words, ms, ranges, p, q)
  {
    ranges := seq(|inner|, k requires 0 <= k < |inner| => (inner[k].0 + p, inner[k].1 + p));
    forall k | 0 <= k < |ranges| ensures p <= ranges[k].0 < ranges[k].1 <= q {
      assert 0 <= inner[k].0 < inner[k].1 <= q - p;
    }
    forall k | 0 <= k < |ranges|
      ensures ms[k].start == words[ranges[k].0].start && ms[k].end == words[ranges[k].1 - 1].end
    {
      assert words[p..q][inner[k].0] == words[ranges[k].0] && words[p..q][inner[k].1 - 1] == words[ranges[k].1 - 1];
    }
  }

  lemma RangedAppend(words: seq<Word>, ms: seq<Mention>, ranges: seq<Range>, ms': seq<Mention>, ranges': seq<Range>,
                     lo: nat, mid: nat, mid': nat, hi: nat)
    requires Ranged(words, ms, ranges, lo, mid) && Ranged(words, ms', ranges', mid', hi) && lo <= mid <= mid' <= hi
    ensures Ranged(words, ms + ms', ranges + ranges', lo, hi)
  {
  }

  // The runs are stretches of the words, in order, and touch no technical token.
  ghost predicate Bounded(technical: seq<Mention>, words: seq<Word>, runs: seq<seq<Word>>, bounds: seq<Range>) {
    && |runs| == |bounds|
    && (forall r :: 0 <= r < |runs| ==>
          bounds[r].0 <= bounds[r].1 <= |words| && runs[r] == words[bounds[r].0..bounds[r].1])
    && (forall r, k :: 0 <= r < |runs| && bounds[r].0 <= k < bounds[r].1 ==> Clear(technical, words[k]))
    && (forall r, s :: 0 <= r < s < |runs| ==> bounds[r].1 <= bounds[s].0)
  }

  lemma LastRunGrows(technical: seq<Mention>, words: seq<Word>, runs: seq<seq<Word>>, bounds: seq<Range>, w: Word)
    requires Bounded(technical, words, runs, bounds) && runs != [] && bounds[|bounds| - 1].1 == |words|
      && Clear(technical, w)
    ensures var last := |runs| - 1;
      Bounded(technical, words + [w], runs[..last] + [runs[last] + [w]],
        bounds[..last] + [(bounds[last].0, |words| + 1)])
  {
    hide Clear;
    var last, more := |runs| - 1, words + [w];
    forall r | 0 <= r < last ensures runs[r] == more[bounds[r].0..bounds[r].1] {
      assert bounds[r].1 <= |words|;
    }
    assert more[bounds[last].0..|more|] == runs[last] + [w];
  }

  lemma RunsGrow(technical: seq<Mention>, words: seq<Word>, runs: seq<seq<Word>>, bounds: seq<Range>, w: Word)
    requires Bounded(technical, words, runs, bounds)
    ensures Bounded(technical, words + [w], runs + [[]], bounds + [(|words| + 1, |words| + 1)])
  {
    hide Clear;
    var more := words + [w];
    forall r | 0 <= r < |runs| ensures runs[r] == more[bounds[r].0..bounds[r].1] {
      assert bounds[r].1 <= |words|;
    }
  }

  lemma {:induction false} RunsBounded(technical: seq<Mention>, words: seq<Word>) returns (bounds: seq<Range>)
    ensures Bounded(technical, words, RunsOf(technical, words), bounds)
    ensures bounds[|bounds| - 1].1 == |words|
  {
    hide Clear, Bounded, RunsOf;
    if words == [] {
      bounds := [(0, 0)];
      NoRunsYet(technical);
    } else {
      var n := |words| - 1;
      var init, w := words[..n], words[n];
      bounds := RunsBounded(technical, init);
      var last := |bounds| - 1;
      assert words == init + [w];
      AsManyRuns(technical, init, RunsOf(technical, init), bounds);
      RunsStep(technical, init, w);
      if Clear(technical, w) {
        LastRunGrows(technical, init, RunsOf(technical, init), bounds, w);
        bounds := bounds[..last] + [(bounds[last].0, n + 1)];
      } else {
        RunsGrow(technical, init, RunsOf(technical, init), bounds, w);
        bounds := bounds + [(n + 1, n + 1)];
      }
    }
  }

  lemma NoRunsYet(technical: seq<Mention>)
    ensures Bounded(technical, [], RunsOf(technical, []), [(0, 0)])
  {
  }

  lemma RunsStep(technical: seq<Mention>, words: seq<Word>, w: Word)
    ensures var runs := RunsOf(technical, words); var last := |runs| - 1;
      RunsOf(technical, words + [w]) ==
        if Clear(technical, w) then runs[..last] + [runs[last] + [w]] else runs + [[]]
  {
    hide Clear;
    assert (words + [w])[..|words|] == words;
  }

  lemma AsManyRuns(technical: seq<Mention>, words: seq<Word>, runs: seq<seq<Word>>, bounds: seq<Range>)
    requires Bounded(technical, words, runs, bounds)
    ensures |runs| == |bounds|
  {
  }

  // --- all together -------------------------------------------------------

  ghost predicate RunsIn(text: string, runs: seq<seq<Word>>) {
    forall r :: 0 <= r < |runs| ==> WordsIn(text, runs[r])
  }

  // What the runs mention, run by run.
  ghost function ShapedIn(u: Classes, stopword: Stopword, text: string, runs: seq<seq<Word>>): seq<Mention>
    requires RunsIn(text, runs)
  {
    if runs == [] then []
    else
      var last := |runs| - 1;
      ShapedIn(u, stopword, text, runs[..last]) + ShapesFrom(u, stopword, text, runs[last], 0)
  }

  ghost predicate ClearRanges(technical: seq<Mention>, words: seq<Word>, ranges: seq<Range>) {
    forall k, i :: 0 <= k < |ranges| && ranges[k].0 <= i < ranges[k].1 && i < |words| ==> Clear(technical, words[i])
  }

  lemma BoundsFit(technical: seq<Mention>, words: seq<Word>, runs: seq<seq<Word>>, bounds: seq<Range>)
    requires Bounded(technical, words, runs, bounds) && runs != []
    ensures var last := |runs| - 1;
      && |bounds| == |runs| && bounds[last].0 <= bounds[last].1 <= |words|
        && runs[last] == words[bounds[last].0..bounds[last].1]
      && Bounded(technical, words, runs[..last], bounds[..last])
      && (last > 0 ==> bounds[last - 1].1 <= bounds[last].0)
      && (forall i :: bounds[last].0 <= i < bounds[last].1 ==> Clear(technical, words[i]))
  {
    hide Clear;
  }

  lemma {:induction false} AllRanged(u: Classes, stopword: Stopword, text: string, technical: seq<Mention>,
                                     words: seq<Word>, runs: seq<seq<Word>>, bounds: seq<Range>)
    returns (ranges: seq<Range>)
    requires Bounded(technical, words, runs, bounds) && RunsIn(text, runs)
    ensures |bounds| == |runs|
    ensures var hi := if runs == [] then 0 else bounds[|runs| - 1].1;
      Ranged(words, ShapedIn(u, stopword, text, runs), ranges, 0, hi)
    ensures ClearRanges(technical, words, ranges)
  {
    hide ShapesFrom, Clear, WordsIn, Bounded;
    ranges := [];
    if runs == [] {
      assert |bounds| == 0 by { AsManyRuns(technical, words, runs, bounds); }
    } else {
      var last := |runs| - 1;
      BoundsFit(technical, words, runs, bounds);
      var before := AllRanged(u, stopword, text, technical, words, runs[..last], bounds[..last]);
      var (p, q) := bounds[last];
      var inner := ShapesRanged(u, stopword, text, runs[last], 0);
      var shapes := ShapesFrom(u, stopword, text, runs[last], 0);
      var more := RangedShift(words, p, q, shapes, inner);
      var mid := if last == 0 then 0 else bounds[last - 1].1;
      RangedAppend(words, ShapedIn(u, stopword, text, runs[..last]), before, shapes, more, 0, mid, p, q);
      ranges := before + more;
    }
  }

  lemma {:induction false} ShapedQuote(u: Classes, stopword: Stopword, text: string, runs: seq<seq<Word>>)
    requires RunsIn(text, runs)
    ensures forall m :: m in ShapedIn(u, stopword, text, runs) ==> Quotes(text, m)
  {
    hide ShapesFrom, WordsIn, Quotes;
    if runs != [] {
      ShapedQuote(u, stopword, text, runs[..|runs| - 1]);
      ShapesQuote(u, stopword, text, runs[|runs| - 1], 0);
    }
  }

  lemma RunsAreIn(text: string, technical: seq<Mention>, words: seq<Word>, runs: seq<seq<Word>>, bounds: seq<Range>)
    requires Bounded(technical, words, runs, bounds) && WordsIn(text, words)
    ensures RunsIn(text, runs)
  {
    hide Clear;
    forall r | 0 <= r < |runs| ensures WordsIn(text, runs[r]) {
      SliceIn(text, words, bounds[r].0, bounds[r].1);
    }
  }

  lemma SliceIn(text: string, words: seq<Word>, p: nat, q: nat)
    requires WordsIn(text, words) && p <= q <= |words|
    ensures WordsIn(text, words[p..q])
  {
    var ws := words[p..q];
    forall i, j | 0 <= i < j < |ws| ensures ws[i].end < ws[j].start {
      assert words[p + i].end < words[p + j].start;
    }
  }

  // --- nothing overlaps ---------------------------------------------------

  predicate Disjoint(a: Mention, b: Mention) { !Overlap(a.start, a.end, b.start, b.end) }

  // A token with a letter or a digit in it holds part of a word, that word breaks the run,
  // and so no stretch of a run reaches over the token.
  lemma TokenBreaksRuns(u: Classes, text: string, technical: seq<Mention>, words: seq<Word>, k: nat, p: nat, q: nat)
    requires Unicode(u) && AreWords(u.alphanumeric, text, words) && k < |technical| && HasLetter(u, text, technical[k])
    requires p < q <= |words| && forall i :: p <= i < q ==> Clear(technical, words[i])
    ensures !Overlap(technical[k].start, technical[k].end, words[p].start, words[q - 1].end)
  {
    var m := technical[k];
    var w := WordWithin(u, text, m, words);
    WordsLieApart(u.alphanumeric, text, words);
    hide AreWords, HasLetter, Unicode;
    assert Clear(technical, words[p]) && Clear(technical, words[q - 1]);
    assert w < p || q <= w;
  }

  // A stretch of a run reaches over a technical token exactly when the token holds no letter
  // and no digit and lies between the first and the last word of the stretch.
  lemma ReachesOverExactlyWhen(u: Classes, text: string, technical: seq<Mention>, words: seq<Word>, k: nat, p: nat,
                               q: nat)
    requires Unicode(u) && AreWords(u.alphanumeric, text, words) && k < |technical|
    requires technical[k].start < technical[k].end
    requires p < q <= |words| && forall i :: p <= i < q ==> Clear(technical, words[i])
    ensures Overlap(technical[k].start, technical[k].end, words[p].start, words[q - 1].end) <==>
      && !HasLetter(u, text, technical[k])
      && words[p].end <= technical[k].start && technical[k].end <= words[q - 1].start
  {
    if HasLetter(u, text, technical[k]) {
      TokenBreaksRuns(u, text, technical, words, k, p, q);
    }
    WordsLieApart(u.alphanumeric, text, words);
    hide AreWords, HasLetter, Unicode;
    assert Clear(technical, words[p]) && Clear(technical, words[q - 1]);
  }

  lemma ShapedApart(text: string, words: seq<Word>, ms: seq<Mention>, ranges: seq<Range>, hi: nat)
    requires WordsIn(text, words) && Ranged(words, ms, ranges, 0, hi)
    ensures Apart(ms) && forall k :: 0 <= k < |ms| ==> ms[k].start < ms[k].end
  {
    forall k | 0 <= k < |ms| ensures ms[k].start < ms[k].end {
      if ranges[k].0 < ranges[k].1 - 1 {
        assert words[ranges[k].0].end < words[ranges[k].1 - 1].start;
      }
    }
    forall i, j | 0 <= i < j < |ms| ensures ms[i].end <= ms[j].start {
      assert ranges[i].1 - 1 < ranges[j].0;
    }
  }

  ghost predicate PairwiseDisjoint(ms: seq<Mention>) {
    forall i, j :: 0 <= i < j < |ms| ==> Disjoint(ms[i], ms[j])
  }

  // The one way a date, quantity or name runs across a technical token: over one without a
  // letter or a digit.
  ghost predicate Swallows(u: Classes, text: string, m: Mention, token: Mention) {
    !HasLetter(u, text, token) && m.start < token.start && token.end < m.end
  }

  ghost predicate NothingSwallowed(u: Classes, text: string, technical: seq<Mention>, shaped: seq<Mention>) {
    forall i, j :: 0 <= i < |technical| && 0 <= j < |shaped| ==> !Swallows(u, text, shaped[j], technical[i])
  }

  lemma OverlapSwallows(u: Classes, text: string, technical: seq<Mention>, words: seq<Word>, shaped: seq<Mention>,
                        ranges: seq<Range>, hi: nat, i: nat, j: nat)
    requires Unicode(u) && AreWords(u.alphanumeric, text, words) && i < |technical|
      && technical[i].start < technical[i].end
    requires Ranged(words, shaped, ranges, 0, hi) && ClearRanges(technical, words, ranges) && j < |shaped|
    ensures !Disjoint(technical[i], shaped[j]) <==> Swallows(u, text, shaped[j], technical[i])
  {
    var (p, q) := ranges[j];
    WordsLieApart(u.alphanumeric, text, words);
    ReachesOverExactlyWhen(u, text, technical, words, i, p, q);
    hide AreWords, Unicode, HasLetter, Clear;
    assert words[p].start < words[p].end && words[q - 1].start < words[q - 1].end;
  }

  lemma TogetherDisjoint(u: Classes, text: string, technical: seq<Mention>, words: seq<Word>, shaped: seq<Mention>,
                         ranges: seq<Range>, hi: nat)
    requires Unicode(u) && AreWords(u.alphanumeric, text, words) && Apart(technical)
    requires forall k :: 0 <= k < |technical| ==> technical[k].start < technical[k].end
    requires Ranged(words, shaped, ranges, 0, hi) && ClearRanges(technical, words, ranges)
    ensures PairwiseDisjoint(technical + shaped) <==> NothingSwallowed(u, text, technical, shaped)
  {
    hide AreWords, Unicode, Ranged, ClearRanges, Swallows, PairwiseDisjoint;
    WordsLieApart(u.alphanumeric, text, words);
    ShapedApart(text, words, shaped, ranges, hi);
    forall i, j | 0 <= i < |technical| && 0 <= j < |shaped|
      ensures !Disjoint(technical[i], shaped[j]) <==> Swallows(u, text, shaped[j], technical[i])
    {
      OverlapSwallows(u, text, technical, words, shaped, ranges, hi, i, j);
    }
    BothDisjoint(technical, shaped);
  }

  lemma BothDisjoint(some: seq<Mention>, more: seq<Mention>)
    requires Apart(some) && Apart(more)
    ensures PairwiseDisjoint(some + more)
      <==> forall i, j :: 0 <= i < |some| && 0 <= j < |more| ==> Disjoint(some[i], more[j])
  {
    var all, n := some + more, |some|;
    if PairwiseDisjoint(all) {
      forall i, j | 0 <= i < n && 0 <= j < |more| ensures Disjoint(some[i], more[j]) {
        assert Disjoint(all[i], all[n + j]);
      }
    }
  }

  // --- in order -----------------------------------------------------------

  const BY_START: (Mention, Mention) -> bool := (a: Mention, b: Mention) => a.start <= b.start

  lemma SortedApart(text: string, all: seq<Mention>, sorted: seq<Mention>)
    requires PairwiseDisjoint(all) && (forall m :: m in all ==> Quotes(text, m))
    requires multiset(sorted) == multiset(all) && SortedBy(sorted, BY_START)
    ensures Apart(sorted)
  {
    forall i, j | 0 <= i < j < |all| ensures all[i] != all[j] {
      assert Quotes(text, all[i]) && Quotes(text, all[j]) && Disjoint(all[i], all[j]);
    }
    DistinctKept(all, sorted);
    forall i, j | 0 <= i < j < |sorted| ensures sorted[i].end <= sorted[j].start {
      assert sorted[i] in multiset(all) && sorted[j] in multiset(all);
      var k, l :| 0 <= k < |all| && 0 <= l < |all| && all[k] == sorted[i] && all[l] == sorted[j];
      assert Disjoint(all[if k < l then k else l], all[if k < l then l else k]);
      assert Quotes(text, all[k]) && Quotes(text, all[l]);
    }
  }

  // Mentions that lie apart when sorted did not overlap before.
  lemma ApartMeansDisjoint(technical: seq<Mention>, shaped: seq<Mention>, sorted: seq<Mention>, i: nat, j: nat)
    requires multiset(sorted) == multiset(technical + shaped) && Apart(sorted)
    requires i < |technical| && j < |shaped| && technical[i] != shaped[j]
    ensures Disjoint(technical[i], shaped[j])
  {
    var all := technical + shaped;
    assert all[i] in multiset(sorted) && all[|technical| + j] in multiset(sorted);
    var k, l :| 0 <= k < |sorted| && 0 <= l < |sorted| && sorted[k] == technical[i] && sorted[l] == shaped[j];
    assert if k < l then sorted[k].end <= sorted[l].start else sorted[l].end <= sorted[k].start;
  }

  lemma SortedApartExactlyWhen(u: Classes, text: string, technical: seq<Mention>, shaped: seq<Mention>,
                               sorted: seq<Mention>)
    requires PairwiseDisjoint(technical + shaped) <==> NothingSwallowed(u, text, technical, shaped)
    requires forall m :: m in technical + shaped ==> Quotes(text, m)
    requires multiset(sorted) == multiset(technical + shaped) && SortedBy(sorted, BY_START)
    ensures Apart(sorted) <==> NothingSwallowed(u, text, technical, shaped)
  {
    hide PairwiseDisjoint, SortedBy, Quotes, HasLetter;
    if NothingSwallowed(u, text, technical, shaped) {
      SortedApart(text, technical + shaped, sorted);
    } else {
      var i, j :| 0 <= i < |technical| && 0 <= j < |shaped| && Swallows(u, text, shaped[j], technical[i]);
      var inside := (technical + shaped)[i];
      QuoteLies(text, inside);
      if Apart(sorted) {
        ApartMeansDisjoint(technical, shaped, sorted, i, j);
        assert false;
      }
    }
  }

  lemma QuoteLies(text: string, m: Mention)
    requires Quotes(text, m)
    ensures m.start < m.end
  {
  }

  lemma TechnicalQuotes(u: Classes, text: string, technical: seq<Mention>)
    requires AreTechnical(u, text, technical)
    ensures Apart(technical) && forall m :: m in technical ==> Quotes(text, m)
  {
    hide MentionAt, Quotes;
    forall m | m in technical ensures Quotes(text, m) {
      assert FromToken(u, text, m);
    }
  }

  // Where all that was found lies.
  lemma Together(u: Classes, stopword: Stopword, text: string, technical: seq<Mention>, words: seq<Word>)
    requires Unicode(u) && AreTechnical(u, text, technical) && AreWords(u.alphanumeric, text, words)
    ensures RunsIn(text, RunsOf(technical, words))
    ensures var all := technical + ShapedIn(u, stopword, text, RunsOf(technical, words));
      && (forall m :: m in all ==> Quotes(text, m))
      && (PairwiseDisjoint(all) <==> NothingSwallowed(u, text, technical,
        ShapedIn(u, stopword, text, RunsOf(technical, words))))
  {
    var bounds := RunsPlaced(u, text, technical, words);
    TechnicalQuotes(u, text, technical);
    forall k | 0 <= k < |technical| ensures technical[k].start < technical[k].end {
      QuoteLies(text, technical[k]);
    }
    hide AreTechnical, ShapedIn, RunsOf, RunsIn, Bounded, Quotes, AreWords, Unicode, Apart, Ranged, ClearRanges;
    hide PairwiseDisjoint, NothingSwallowed;
    var runs := RunsOf(technical, words);
    ShapedQuote(u, stopword, text, runs);
    var ranges := AllRanged(u, stopword, text, technical, words, runs, bounds);
    TogetherDisjoint(u, text, technical, words, ShapedIn(u, stopword, text, runs), ranges, bounds[|runs| - 1].1);
  }

  lemma RunsPlaced(u: Classes, text: string, technical: seq<Mention>, words: seq<Word>) returns (bounds: seq<Range>)
    requires AreWords(u.alphanumeric, text, words)
    ensures Bounded(technical, words, RunsOf(technical, words), bounds) && RunsIn(text, RunsOf(technical, words))
  {
    WordsLieApart(u.alphanumeric, text, words);
    bounds := RunsBounded(technical, words);
    RunsAreIn(text, technical, words, RunsOf(technical, words), bounds);
  }

  method ShapeRuns(u: Classes, stopword: Stopword, text: string, runs: seq<seq<Word>>) returns (shaped: seq<Mention>)
    requires RunsIn(text, runs)
    ensures shaped == ShapedIn(u, stopword, text, runs)
  {
    hide ShapesFrom, WordsIn;
    shaped := [];
    for r := 0 to |runs|
      invariant RunsIn(text, runs[..r]) && shaped == ShapedIn(u, stopword, text, runs[..r])
    {
      var found := Shape(u, stopword, text, runs[r]);
      shaped := shaped + found;
      assert runs[..r + 1][..r] == runs[..r];
    }
    assert runs[..|runs|] == runs;
  }

  lemma StillQuotes(text: string, all: seq<Mention>, mentions: seq<Mention>)
    requires multiset(mentions) == multiset(all) && forall m :: m in all ==> Quotes(text, m)
    ensures forall m :: m in mentions ==> Quotes(text, m)
  {
    hide Quotes;
    forall m | m in mentions ensures m in all {
      assert m in multiset(mentions);
    }
  }

  // Every mention lies in the text and quotes it, they come by start, and no two of them
  // overlap exactly when no date, quantity or name runs over a token without a letter or a
  // digit; when every technical token holds one, none does.
  method Extract(u: Classes, stopword: Stopword, text: string)
    returns (mentions: seq<Mention>, ghost technical: seq<Mention>, ghost words: seq<Word>, ghost shaped: seq<Mention>)
    requires Unicode(u)
    ensures AreTechnical(u, text, technical) && AreWords(u.alphanumeric, text, words)
    ensures RunsIn(text, RunsOf(technical, words)) && shaped == ShapedIn(u, stopword, text, RunsOf(technical, words))
    ensures multiset(mentions) == multiset(technical + shaped) && SortedBy(mentions, BY_START)
    ensures forall m :: m in mentions ==> Quotes(text, m)
    ensures Apart(mentions) <==> NothingSwallowed(u, text, technical, shaped)
    ensures (forall k :: 0 <= k < |technical| ==> HasLetter(u, text, technical[k])) ==> Apart(mentions)
  {
    hide AreTechnical, AreWords, ShapedIn, RunsOf, RunsIn, Unicode, HasLetter, Quotes, PairwiseDisjoint;
    var tokens := Technical(u, text);
    var ws := Tokenise(u.alphanumeric, text) by { UnicodeIsSane(u); }
    technical, words := tokens, ws;
    var runs := Runs(tokens, ws);
    Together(u, stopword, text, tokens, ws);
    var found := ShapeRuns(u, stopword, text, runs);
    shaped := found;
    SortPermutes(tokens + found, BY_START);
    SortSorts(tokens + found, BY_START);
    mentions := Sort(tokens + found, BY_START);
    StillQuotes(text, tokens + found, mentions);
    SortedApartExactlyWhen(u, text, tokens, found, mentions);
  }

  lemma UnicodeIsSane(u: Classes)
    requires Unicode(u)
    ensures Sane(u.alphanumeric)
  {
  }
}
