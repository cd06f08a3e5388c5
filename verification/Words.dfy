/** The tokenizer: maximal runs of word characters, their trailing punctuation trimmed.
    Which characters are alphanumeric is a parameter; positions count characters. */
module Words {

  type CharClass = char -> bool

  // What the parameter has to say about the characters the tokenizer names.
  ghost predicate Sane(alphanumeric: CharClass) {
    forall c :: c in {'.', '\'', '-', '/', '#', '!', '?', '\n', ' '} ==> !alphanumeric(c)
  }

  predicate IsWordChar(alphanumeric: CharClass, c: char) {
    alphanumeric(c) || c in {'\'', '-', '.', '$', '%', '#', '/', '+', '\U{2019}'}
  }

  predicate Trimmed(c: char) { c in {'.', '\'', '-', '/', '#'} }

  predicate Stops(c: char) { c in {'.', '!', '?', '\n'} }

  datatype Word = Word(start: nat, end: nat, sentenceStart: bool) {
    function Text(text: string): string {
      if start <= end <= |text| then text[start..end] else ""
    }
  }

  // --- what a word is -----------------------------------------------------

  predicate WordAt(alphanumeric: CharClass, text: string, i: nat) {
    i < |text| && IsWordChar(alphanumeric, text[i])
  }

  // [a, j) is a maximal run of word characters.
  ghost predicate IsRun(alphanumeric: CharClass, text: string, a: nat, j: nat) {
    && a < j <= |text|
    && (forall i :: a <= i < j ==> WordAt(alphanumeric, text, i))
    && !WordAt(alphanumeric, text, j)
    && (a > 0 ==> !WordAt(alphanumeric, text, a - 1))
  }

  // [a, b) is a run without its trailing punctuation, and not nothing.
  ghost predicate IsWord(alphanumeric: CharClass, text: string, a: nat, b: nat) {
    && a < b && !Trimmed(if b <= |text| then text[b - 1] else '.')
    && exists j :: b <= j && IsRun(alphanumeric, text, a, j) && forall i :: b <= i < j ==> Trimmed(text[i])
  }

  // The next word opens a sentence: a dot was trimmed off the one that ends at `b`, or a
  // stop lies between.
  ghost predicate SentenceBreak(alphanumeric: CharClass, text: string, b: nat, next: nat) {
    exists p :: b <= p < next && p < |text| && Stops(text[p])
      && (text[p] == '.' ==> forall i :: b <= i <= p ==> WordAt(alphanumeric, text, i))
  }

  ghost predicate AreWords(alphanumeric: CharClass, text: string, words: seq<Word>) {
    && (forall k :: 0 <= k < |words| ==> IsWord(alphanumeric, text, words[k].start, words[k].end))
    && (forall a: nat, b: nat :: IsWord(alphanumeric, text, a, b) ==>
          exists k :: 0 <= k < |words| && words[k].start == a && words[k].end == b)
    && InOrder(words)
    && Flagged(alphanumeric, text, words)
  }

  ghost predicate InOrder(words: seq<Word>) {
    forall i, j :: 0 <= i < j < |words| ==> words[i].end < words[j].start
  }

  ghost predicate Flagged(alphanumeric: CharClass, text: string, words: seq<Word>) {
    && (words != [] ==> words[0].sentenceStart)
    && forall k :: 0 < k < |words| ==>
         (words[k].sentenceStart <==> SentenceBreak(alphanumeric, text, words[k - 1].end, words[k].start))
  }

  // --- the scan -----------------------------------------------------------

  method RunEnd(alphanumeric: CharClass, text: string, start: nat) returns (j: nat)
    requires WordAt(alphanumeric, text, start) && (start > 0 ==> !WordAt(alphanumeric, text, start - 1))
    ensures IsRun(alphanumeric, text, start, j)
  {
    j := start;
    while j < |text| && IsWordChar(alphanumeric, text[j])
      invariant start <= j <= |text| && forall i :: start <= i < j ==> WordAt(alphanumeric, text, i)
    {
      j := j + 1;
    }
  }

  method WordEnd(text: string, start: nat, j: nat) returns (end: nat)
    requires start <= j <= |text|
    ensures start <= end <= j && (end > start ==> !Trimmed(text[end - 1]))
    ensures forall i :: end <= i < j ==> Trimmed(text[i])
  {
    end := j;
    while end > start && Trimmed(text[end - 1])
      invariant start <= end <= j && forall i :: end <= i < j ==> Trimmed(text[i])
    {
      end := end - 1;
    }
  }

  lemma RunIsOne(alphanumeric: CharClass, text: string, a: nat, j: nat, j': nat)
    requires IsRun(alphanumeric, text, a, j) && IsRun(alphanumeric, text, a, j')
    ensures j == j'
  {
    assert !WordAt(alphanumeric, text, j) && !WordAt(alphanumeric, text, j');
  }

  lemma WordEndIsOne(alphanumeric: CharClass, text: string, a: nat, b: nat, b': nat)
    requires IsWord(alphanumeric, text, a, b) && IsWord(alphanumeric, text, a, b')
    ensures b == b'
  {
    var j :| b <= j && IsRun(alphanumeric, text, a, j) && forall i :: b <= i < j ==> Trimmed(text[i]);
    var j' :| b' <= j' && IsRun(alphanumeric, text, a, j') && forall i :: b' <= i < j' ==> Trimmed(text[i]);
    RunIsOne(alphanumeric, text, a, j, j');
    assert !Trimmed(text[b - 1]) && !Trimmed(text[b' - 1]);
  }

  // What has been found up to `i`.
  ghost predicate Scanned(alphanumeric: CharClass, text: string, words: seq<Word>, i: nat) {
    && (forall k :: 0 <= k < |words| ==> IsWord(alphanumeric, text, words[k].start, words[k].end))
    && (forall a: nat, b: nat :: IsWord(alphanumeric, text, a, b) && a < i ==>
          exists k :: 0 <= k < |words| && words[k].start == a && words[k].end == b)
    && InOrder(words)
    && Flagged(alphanumeric, text, words)
    && (words != [] ==> Passed(alphanumeric, text, words[|words| - 1].start, i))
  }

  // The run from `a` ends by `i`.
  ghost predicate Passed(alphanumeric: CharClass, text: string, a: nat, i: nat) {
    exists j: nat :: IsRun(alphanumeric, text, a, j) && j <= i
  }

  ghost predicate Opens(alphanumeric: CharClass, text: string, words: seq<Word>, i: nat) {
    words == [] || SentenceBreak(alphanumeric, text, words[|words| - 1].end, i)
  }

  lemma SkipOne(alphanumeric: CharClass, text: string, words: seq<Word>, i: nat)
    requires Scanned(alphanumeric, text, words, i) && i < |text| && !WordAt(alphanumeric, text, i)
    ensures Scanned(alphanumeric, text, words, i + 1)
    ensures Opens(alphanumeric, text, words, i + 1) <==> Opens(alphanumeric, text, words, i) || Stops(text[i])
  {
    assert forall b :: !IsWord(alphanumeric, text, i, b);
    assert text[i] != '.';
    if words != [] {
      var last := words[|words| - 1];
      var j: nat :| IsRun(alphanumeric, text, last.start, j) && j <= i;
      WordWithinRun(alphanumeric, text, last.start, last.end, j);
    }
  }

  lemma WordWithinRun(alphanumeric: CharClass, text: string, a: nat, b: nat, j: nat)
    requires IsWord(alphanumeric, text, a, b) && IsRun(alphanumeric, text, a, j)
    ensures b <= j && forall i :: b <= i < j ==> Trimmed(text[i])
  {
    var j' :| b <= j' && IsRun(alphanumeric, text, a, j') && forall i :: b <= i < j' ==> Trimmed(text[i]);
    RunIsOne(alphanumeric, text, a, j, j');
  }

  lemma NoWordInside(alphanumeric: CharClass, text: string, i: nat, j: nat, a: nat, b: nat)
    requires IsRun(alphanumeric, text, i, j) && IsWord(alphanumeric, text, a, b) && i <= a < j
    ensures a == i
  {
    var r :| b <= r && IsRun(alphanumeric, text, a, r) && forall p :: b <= p < r ==> Trimmed(text[p]);
    assert a > 0 ==> !WordAt(alphanumeric, text, a - 1);
  }

  // A run of nothing but trimmed punctuation is no word and moves no flag.
  lemma SkipRun(alphanumeric: CharClass, text: string, words: seq<Word>, i: nat, j: nat)
    requires Scanned(alphanumeric, text, words, i) && IsRun(alphanumeric, text, i, j)
    requires forall p :: i <= p < j ==> Trimmed(text[p])
    ensures Scanned(alphanumeric, text, words, j)
    ensures Opens(alphanumeric, text, words, j) <==> Opens(alphanumeric, text, words, i)
  {
    forall a: nat, b: nat | IsWord(alphanumeric, text, a, b) && a < j ensures a < i {
      if i <= a {
        NoWordInside(alphanumeric, text, i, j, a, b);
        WordWithinRun(alphanumeric, text, i, b, j);
      }
    }
    if words != [] {
      var last := words[|words| - 1];
      var r: nat :| IsRun(alphanumeric, text, last.start, r) && r <= i;
      WordWithinRun(alphanumeric, text, last.start, last.end, r);
      assert !WordAt(alphanumeric, text, r) && r < i;
    }
  }

  lemma TakenAll(alphanumeric: CharClass, text: string, words: seq<Word>, i: nat, end: nat, j: nat, flag: bool, a: nat,
                 b: nat)
    requires Scanned(alphanumeric, text, words, i) && IsRun(alphanumeric, text, i, j)
      && IsWord(alphanumeric, text, i, end)
    requires IsWord(alphanumeric, text, a, b) && a < j
    ensures var more := words + [Word(i, end, flag)];
      exists k :: 0 <= k < |more| && more[k].start == a && more[k].end == b
  {
    var more := words + [Word(i, end, flag)];
    if i <= a {
      NoWordInside(alphanumeric, text, i, j, a, b);
      WordEndIsOne(alphanumeric, text, i, b, end);
      assert more[|words|] == Word(a, b, flag);
    } else {
      var k :| 0 <= k < |words| && words[k].start == a && words[k].end == b;
      assert more[k] == words[k];
    }
  }

  lemma TakenFlags(alphanumeric: CharClass, text: string, words: seq<Word>, word: Word)
    requires Flagged(alphanumeric, text, words)
      && (word.sentenceStart <==> Opens(alphanumeric, text, words, word.start))
    ensures Flagged(alphanumeric, text, words + [word])
  {
    hide SentenceBreak;
    var more := words + [word];
    forall k | 0 < k < |more|
      ensures more[k].sentenceStart <==> SentenceBreak(alphanumeric, text, more[k - 1].end, more[k].start)
    {
      assert more[k - 1] == words[k - 1];
      assert k < |words| ==> more[k] == words[k];
    }
  }

  lemma TailBreaks(alphanumeric: CharClass, text: string, i: nat, end: nat, j: nat)
    requires IsRun(alphanumeric, text, i, j) && i < end <= j && forall p :: end <= p < j ==> Trimmed(text[p])
    ensures SentenceBreak(alphanumeric, text, end, j) <==> '.' in text[end..j]
  {
    if '.' in text[end..j] {
      var p :| 0 <= p < j - end && text[end..j][p] == '.';
      assert text[end + p] == '.' && Stops(text[end + p]);
    }
  }

  // A run with a word in it.
  lemma TakeRun(alphanumeric: CharClass, text: string, words: seq<Word>, i: nat, end: nat, j: nat, flag: bool)
    requires Scanned(alphanumeric, text, words, i) && IsRun(alphanumeric, text, i, j)
    requires i < end <= j && !Trimmed(text[end - 1]) && forall p :: end <= p < j ==> Trimmed(text[p])
    requires flag <==> Opens(alphanumeric, text, words, i)
    ensures Scanned(alphanumeric, text, words + [Word(i, end, flag)], j)
    ensures Opens(alphanumeric, text, words + [Word(i, end, flag)], j) <==> '.' in text[end..j]
  {
    var more := words + [Word(i, end, flag)];
    assert IsWord(alphanumeric, text, i, end);
    EndsBefore(alphanumeric, text, words, i);
    TakenFlags(alphanumeric, text, words, Word(i, end, flag));
    TailBreaks(alphanumeric, text, i, end, j);
    assert Passed(alphanumeric, text, i, j);
    hide IsWord, Flagged, IsRun, SentenceBreak, Passed;
    forall a: nat, b: nat | IsWord(alphanumeric, text, a, b) && a < j
      ensures exists k :: 0 <= k < |more| && more[k].start == a && more[k].end == b
    {
      TakenAll(alphanumeric, text, words, i, end, j, flag, a, b);
    }
  }

  lemma EndsBefore(alphanumeric: CharClass, text: string, words: seq<Word>, i: nat)
    requires Scanned(alphanumeric, text, words, i) && WordAt(alphanumeric, text, i)
    ensures forall k :: 0 <= k < |words| ==> words[k].end < i
  {
    if words != [] {
      var last := words[|words| - 1];
      var r: nat :| IsRun(alphanumeric, text, last.start, r) && r <= i;
      WordWithinRun(alphanumeric, text, last.start, last.end, r);
      assert !WordAt(alphanumeric, text, r);
      forall k | 0 <= k < |words| - 1 ensures words[k].end < i {
        assert words[k].end < last.start;
      }
    }
  }

  method Tokenise(alphanumeric: CharClass, text: string) returns (words: seq<Word>)
    requires Sane(alphanumeric)
    ensures AreWords(alphanumeric, text, words)
  {
    hide Scanned, Opens, IsRun, IsWord;
    words := [];
    var sentenceStart := true;
    var i := 0;
    NothingScanned(alphanumeric, text);
    while i < |text|
      invariant i <= |text| && (WordAt(alphanumeric, text, i) ==> i == 0 || !WordAt(alphanumeric, text, i - 1))
      invariant Scanned(alphanumeric, text, words, i)
      invariant sentenceStart <==> Opens(alphanumeric, text, words, i)
    {
      if IsWordChar(alphanumeric, text[i]) {
        var j := RunEnd(alphanumeric, text, i);
        RunShape(alphanumeric, text, i, j);
        var end := WordEnd(text, i, j);
        var endedSentence := '.' in text[end..j];
        if end > i {
          TakeRun(alphanumeric, text, words, i, end, j, sentenceStart);
          words := words + [Word(i, end, sentenceStart)];
          sentenceStart := endedSentence;
        } else {
          SkipRun(alphanumeric, text, words, i, j);
        }
        i := j;
      } else {
        SkipOne(alphanumeric, text, words, i);
        if Stops(text[i]) {
          sentenceStart := true;
        }
        i := i + 1;
      }
    }
    ScannedAll(alphanumeric, text, words);
  }

  lemma NothingScanned(alphanumeric: CharClass, text: string)
    ensures Scanned(alphanumeric, text, [], 0) && Opens(alphanumeric, text, [], 0)
  {
  }

  lemma RunShape(alphanumeric: CharClass, text: string, i: nat, j: nat)
    requires IsRun(alphanumeric, text, i, j)
    ensures i < j <= |text| && !WordAt(alphanumeric, text, j)
  {
  }

  lemma ScannedAll(alphanumeric: CharClass, text: string, words: seq<Word>)
    requires Scanned(alphanumeric, text, words, |text|)
    ensures AreWords(alphanumeric, text, words)
  {
    forall a: nat, b: nat | IsWord(alphanumeric, text, a, b) ensures a < |text| {
      var j :| b <= j && IsRun(alphanumeric, text, a, j) && forall i :: b <= i < j ==> Trimmed(text[i]);
    }
  }

  // --- what follows for any text ------------------------------------------

  // Words lie in the text, apart and in order, and none is empty.
  lemma WordsLieApart(alphanumeric: CharClass, text: string, words: seq<Word>)
    requires AreWords(alphanumeric, text, words)
    ensures forall k :: 0 <= k < |words| ==> words[k].start < words[k].end <= |text|
    ensures forall i, j :: 0 <= i < j < |words| ==> words[i].end < words[j].start
  {
    forall k | 0 <= k < |words| ensures words[k].start < words[k].end <= |text| {
      WordShape(alphanumeric, text, words[k].start, words[k].end);
    }
  }

  lemma WordShape(alphanumeric: CharClass, text: string, a: nat, b: nat)
    requires IsWord(alphanumeric, text, a, b)
    ensures a < b <= |text| && !Trimmed(text[b - 1]) && forall i :: a <= i < b ==> WordAt(alphanumeric, text, i)
  {
    var j :| b <= j && IsRun(alphanumeric, text, a, j) && forall i :: b <= i < j ==> Trimmed(text[i]);
  }

  lemma {:induction false} RunFrom(alphanumeric: CharClass, text: string, p: nat) returns (a: nat)
    requires WordAt(alphanumeric, text, p)
    ensures a <= p && (forall i :: a <= i <= p ==> WordAt(alphanumeric, text, i))
      && (a > 0 ==> !WordAt(alphanumeric, text, a - 1))
    decreases p
  {
    if p > 0 && WordAt(alphanumeric, text, p - 1) {
      a := RunFrom(alphanumeric, text, p - 1);
    } else {
      a := p;
    }
  }

  lemma {:induction false} RunTo(alphanumeric: CharClass, text: string, p: nat) returns (j: nat)
    requires WordAt(alphanumeric, text, p)
    ensures p < j <= |text| && (forall i :: p <= i < j ==> WordAt(alphanumeric, text, i))
      && !WordAt(alphanumeric, text, j)
    decreases |text| - p
  {
    if WordAt(alphanumeric, text, p + 1) {
      j := RunTo(alphanumeric, text, p + 1);
    } else {
      j := p + 1;
    }
  }

  lemma {:induction false} LastKept(text: string, p: nat, j: nat) returns (b: nat)
    requires p < j <= |text| && !Trimmed(text[p])
    ensures p < b <= j && !Trimmed(text[b - 1]) && forall i :: b <= i < j ==> Trimmed(text[i])
    decreases j
  {
    if Trimmed(text[j - 1]) {
      b := LastKept(text, p, j - 1);
    } else {
      b := j;
    }
  }

  // A word character that is not trimmed punctuation is in a word, and in one only; every
  // alphanumeric character is such a one.
  lemma InExactlyOneWord(alphanumeric: CharClass, text: string, words: seq<Word>, p: nat) returns (k: nat)
    requires AreWords(alphanumeric, text, words) && WordAt(alphanumeric, text, p) && !Trimmed(text[p])
    ensures k < |words| && words[k].start <= p < words[k].end
    ensures forall l :: 0 <= l < |words| && words[l].start <= p < words[l].end ==> l == k
  {
    var a := RunFrom(alphanumeric, text, p);
    var j := RunTo(alphanumeric, text, p);
    var b := LastKept(text, p, j);
    assert IsRun(alphanumeric, text, a, j);
    assert IsWord(alphanumeric, text, a, b);
    k :| 0 <= k < |words| && words[k].start == a && words[k].end == b;
    WordsLieApart(alphanumeric, text, words);
  }

  lemma AlphanumericIsKept(alphanumeric: CharClass, c: char)
    requires Sane(alphanumeric) && alphanumeric(c)
    ensures IsWordChar(alphanumeric, c) && !Trimmed(c)
  {
  }

  lemma {:induction false} StartsGrow(words: seq<Word>, k: nat)
    requires InOrder(words) && k < |words| && forall i :: 0 <= i < |words| ==> words[i].start < words[i].end
    ensures words[k].start >= k
  {
    if k > 0 {
      StartsGrow(words, k - 1);
    }
  }

  // Tokenizing a word gives that word and nothing else.
  lemma WordIsItsOwnToken(alphanumeric: CharClass, text: string, word: Word, again: seq<Word>)
    requires IsWord(alphanumeric, text, word.start, word.end)
    requires AreWords(alphanumeric, word.Text(text), again)
    ensures again == [Word(0, word.end - word.start, true)]
  {
    WordShape(alphanumeric, text, word.start, word.end);
    var t := word.Text(text);
    var n := |t|;
    assert forall i :: 0 <= i < n ==> t[i] == text[word.start + i];
    forall i: nat | i < n ensures WordAt(alphanumeric, t, i) {
      assert WordAt(alphanumeric, text, word.start + i);
    }
    assert IsRun(alphanumeric, t, 0, n);
    assert t[n - 1] == text[word.end - 1];
    assert IsWord(alphanumeric, t, 0, n);
    forall k | 0 <= k < |again| ensures again[k].start == 0 && again[k].end == n {
      WordShape(alphanumeric, t, again[k].start, again[k].end);
      NoWordInside(alphanumeric, t, 0, n, again[k].start, again[k].end);
      WordEndIsOne(alphanumeric, t, 0, again[k].end, n);
    }
    var first :| 0 <= first < |again| && again[first].start == 0 && again[first].end == n;
    StartsGrow(again, |again| - 1);
  }
}
