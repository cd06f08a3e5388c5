/** Which technical tokens break a run of words: those that hold a letter or a digit. The
    others are symbols made of underscores, colons and dots, and touch no word. */
module LetterlessTokens {
  import opened Optional
  import opened TokenShapes
  import opened Words
  import opened Entities

  ghost predicate HasLetter(u: Classes, text: string, m: Mention) {
    exists i :: m.start <= i < m.end && i < |text| && u.alphanumeric(text[i])
  }

  // The token's name was recognised as what the mention says.
  lemma NamedBy(u: Classes, token: string) returns (trimmed: string)
    ensures NameIn(u, token).Some? ==>
      Classify(u, trimmed) == Some((NameIn(u, token).value.0, NameIn(u, token).value.1))
  {
    hide Classify, TrimStart, TrimTail, Fits;
    trimmed := TrimTail(TrimStart(token, Opener));
  }

  lemma RecognisedAs(u: Classes, text: string, m: Mention) returns (trimmed: string)
    requires FromToken(u, text, m)
    ensures Quotes(text, m) && Classify(u, trimmed) == Some((m.kind, m.surface))
  {
    hide Classify, NameIn, Quotes;
    var a: nat, e: nat :| IsToken(u, text, a, e) && MentionAt(u, text, a, e) == Some(m);
    trimmed := NamedBy(u, text[a..e]);
  }

  // What a word could be made of is dots, and not at the ends.
  predicate OnlyInnerDots(alphanumeric: CharClass, name: string) {
    forall i :: 0 <= i < |name| && IsWordChar(alphanumeric, name[i]) ==> 0 < i < |name| - 1 && name[i] == '.'
  }

  // Every technical name holds a letter or a digit or is such a name.
  lemma LetterOrInnerDots(u: Classes, trimmed: string, kind: Kind, name: string)
    requires Unicode(u) && Classify(u, trimmed) == Some((kind, name))
    ensures Any(name, u.alphanumeric) || OnlyInnerDots(u.alphanumeric, name)
  {
    hide EnvVar, Path, Symbol, Any;
    if EnvVar(trimmed).Some? {
      AnyAt(name, u.alphanumeric, 0);
    } else if Path(u, trimmed).Some? {
      AnyMore(name, u.alphabetic, u.alphanumeric);
    } else {
      SymbolChars(trimmed);
      assert forall i :: 0 <= i < |name| ==> IdentChar(name[i]) || name[i] == ':' || name[i] == '.';
      if i :| 0 <= i < |name| && u.alphanumeric(name[i]) {
        AnyAt(name, u.alphanumeric, i);
      }
    }
  }

  lemma AnyAt(s: string, ok: CharClass, i: nat)
    requires i < |s| && ok(s[i])
    ensures Any(s, ok)
  {
  }

  lemma AnyMore(s: string, ok: CharClass, ok': CharClass)
    requires Any(s, ok) && forall c :: ok(c) ==> ok'(c)
    ensures Any(s, ok')
  {
  }

  // A word that reached into such a name would lie within it and be all dots.
  lemma NoWordOverDots(alphanumeric: CharClass, text: string, a: nat, b: nat, w: Word)
    requires a < b <= |text| && OnlyInnerDots(alphanumeric, text[a..b])
    requires IsWord(alphanumeric, text, w.start, w.end)
    ensures !Overlap(w.start, w.end, a, b)
  {
    WordShape(alphanumeric, text, w.start, w.end);
    hide IsWord;
    forall i | a <= i < b && WordAt(alphanumeric, text, i) ensures i < b - 1 && text[i] == '.' {
      assert text[a..b][i - a] == text[i];
    }
    assert !WordAt(alphanumeric, text, b - 1) && WordAt(alphanumeric, text, w.end - 1);
  }

  lemma LetterInSurface(u: Classes, text: string, m: Mention)
    requires Quotes(text, m)
    ensures Any(m.surface, u.alphanumeric) ==> HasLetter(u, text, m)
  {
    if i :| 0 <= i < |m.surface| && u.alphanumeric(m.surface[i]) {
      assert text[m.start + i] == m.surface[i];
    }
  }

  lemma LetterlessTouchesNoWord(u: Classes, text: string, m: Mention, w: Word)
    requires Unicode(u) && FromToken(u, text, m) && !HasLetter(u, text, m)
    requires IsWord(u.alphanumeric, text, w.start, w.end)
    ensures !Overlap(w.start, w.end, m.start, m.end)
  {
    hide IsWord, FromToken, Classify, Unicode, OnlyInnerDots;
    var trimmed := RecognisedAs(u, text, m);
    LetterOrInnerDots(u, trimmed, m.kind, m.surface);
    LetterInSurface(u, text, m);
    NoWordOverDots(u.alphanumeric, text, m.start, m.end, w);
  }

  // A technical token holds part of some word exactly when it holds a letter or a digit.
  lemma TouchesWordExactlyWhen(u: Classes, text: string, m: Mention, words: seq<Word>)
    requires Unicode(u) && FromToken(u, text, m) && AreWords(u.alphanumeric, text, words)
    ensures (exists k :: 0 <= k < |words| && Overlap(words[k].start, words[k].end, m.start, m.end))
      <==> HasLetter(u, text, m)
  {
    hide FromToken, Unicode, IsWord;
    if HasLetter(u, text, m) {
      var k := WordWithin(u, text, m, words);
    } else {
      forall k | 0 <= k < |words| ensures !Overlap(words[k].start, words[k].end, m.start, m.end) {
        LetterlessTouchesNoWord(u, text, m, words[k]);
      }
    }
  }

  lemma WordWithin(u: Classes, text: string, m: Mention, words: seq<Word>) returns (k: nat)
    requires Unicode(u) && AreWords(u.alphanumeric, text, words) && HasLetter(u, text, m)
    ensures k < |words| && Overlap(words[k].start, words[k].end, m.start, m.end)
  {
    hide AreWords;
    var x: nat :| m.start <= x < m.end && x < |text| && u.alphanumeric(text[x]);
    AlphanumericIsKept(u.alphanumeric, text[x]);
    k := InExactlyOneWord(u.alphanumeric, text, words, x);
  }
}
