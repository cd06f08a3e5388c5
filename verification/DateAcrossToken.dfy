/** A text whose date runs across a technical token: `March _::_ 14`. */
module DateAcrossToken {
  import opened Optional
  import opened TokenShapes
  import opened Words
  import opened WordShapes
  import opened Entities
  import opened Extraction

  const TEXT := "March _::_ 14"

  ghost predicate Plain(u: Classes) {
    Unicode(u) && u.lower("March") == "march" && u.whitespace(' ') && !u.whitespace('_') && !u.whitespace(':')
  }

  // --- the technical token ------------------------------------------------

  // Letters and digits alone are no technical token.
  lemma PlainTokenIsNone(u: Classes, token: string)
    requires token != "" && All(token, c => IsLetter(c) || IsDigit(c))
    ensures Classify(u, token).None?
  {
    hide EnvVar, Path, Symbol;
    forall c | c in token ensures c !in {'_', ':', '/', '.', ')'} {}
    NoEnvVar(token);
    NoPath(u, token);
    NoSymbol(token);
  }

  lemma NoEnvVar(token: string)
    requires '_' !in token
    ensures EnvVar(token).None?
  {
    FindNone(token[..Find(token, "=")], "_");
  }

  lemma NoSymbol(token: string)
    requires token != "" && '_' !in token && ':' !in token && ')' !in token
    ensures Symbol(token).None?
  {
    hide Find;
    FindNone(token, "::");
    FindNone(token, "_");
    EndsDiffer(token, "()");
  }

  lemma NotShaped(u: Classes, name: string, last: string)
    requires '/' !in name && '.' !in last
    ensures !Shaped(u, name, last)
  {
    hide Split, Utf8Length, LowerAscii;
    FindLastNone(last, '.');
    assert Count(name, '/') == 0;
  }

  // What a path is taken from has its characters.
  lemma LastSegmentIn(name: string)
    ensures var segments := Segments(name); forall c :: c in segments[|segments| - 1] ==> c in name
  {
    hide Split, SLASH;
    var start := TrimStart(name, SLASH);
    var inner := TrimEnd(start, SLASH);
    SplitEnds(inner, "/");
    var last := Split(inner, "/")[|Split(inner, "/")| - 1];
    forall c | c in last ensures c in name {
      assert c in inner[|inner| - |last|..];
      assert c in start;
    }
  }

  lemma NoPath(u: Classes, token: string)
    requires '/' !in token && '.' !in token
    ensures Path(u, token).None?
  {
    hide Segments, Shaped, DropLine, SegmentOk, Find;
    var name := DropLine(DropLine(token));
    LastSegmentIn(name);
    assert forall c :: c in name ==> c in token;
    var segments := Segments(name);
    NotShaped(u, name, segments[|segments| - 1]);
  }

  lemma OnePart()
    ensures Split("_", "::") == ["_"]
  {
    FindNone("_", "::");
  }

  lemma TwoParts()
    ensures Find("_::_", "::") == 1 && Split("_::_", "::") == ["_", "_"]
  {
    assert "_::_"[1..] == "::_" && "::_"[..2] == "::" && "_::_"[3..] == "_" && "_::_"[..1] == "_";
    assert StartsWith("::_", "::") && Find("::_", "::") == 0;
    assert "_::_"[..2][0] == '_' && "::"[0] == ':';
    assert !StartsWith("_::_", "::");
    OnePart();
  }

  lemma IsASymbol()
    ensures Symbol("_::_") == Some("_::_")
  {
    TwoParts();
    assert IsIdent("_") && Qualified("_::_");
    assert "_::_"[2..] == ":_" && ":_"[0] == ':' && "()"[0] == '(';
    assert !EndsWith("_::_", "()");
  }

  lemma StartsWithUnderscore(token: string)
    requires token != "" && token[0] == '_'
    ensures EnvVar(token).None?
  {
  }

  lemma LetterlessPath(u: Classes, token: string)
    requires !Any(token, u.alphabetic)
    ensures Path(u, token).None?
  {
  }

  lemma SymbolWithoutAWord(u: Classes)
    requires Unicode(u)
    ensures Classify(u, "_::_") == Some((SymbolKind, "_::_"))
  {
    StartsWithUnderscore("_::_");
    assert !Any("_::_", u.alphabetic);
    LetterlessPath(u, "_::_");
    IsASymbol();
    hide EnvVar, Path, Symbol;
  }

  // A token with nothing to trim.
  lemma Untrimmed(u: Classes, token: string)
    requires token != "" && !Opener(token[0]) && !Closer(token[|token| - 1]) && token[|token| - 1] != ')'
    ensures NameIn(u, token) ==
      match Classify(u, token)
      case None => None
      case Some((kind, name)) => Some((kind, name, 0))
  {
    hide Classify, Fits;
    EndsDiffer(token, ")");
    assert TrimStart(token, Opener) == token;
    assert TrimTail(token) == token;
  }

  lemma TokensAre(u: Classes, a: nat, e: nat)
    requires Plain(u) && IsToken(u, TEXT, a, e)
    ensures (a, e) in {(0, 5), (6, 10), (11, 13)}
  {
    assert TEXT[5] == TEXT[10] == ' ';
    assert forall i :: 0 <= i < 13 && i != 5 && i != 10 ==> !u.whitespace(TEXT[i]);
  }

  lemma MentionsAre(u: Classes)
    requires Plain(u)
    ensures IsToken(u, TEXT, 6, 10)
    ensures MentionAt(u, TEXT, 0, 5).None? && MentionAt(u, TEXT, 11, 13).None?
    ensures MentionAt(u, TEXT, 6, 10) == Some(Mention(u.lower("_::_"), SymbolKind, "_::_", 6, 10))
  {
    hide NameIn, Classify;
    assert TEXT[0..5] == "March" && TEXT[6..10] == "_::_" && TEXT[11..13] == "14";
    NamesAre(u);
    assert TEXT[5] == TEXT[10] == ' ';
    assert forall i :: 6 <= i < 10 ==> TEXT[i] == '_' || TEXT[i] == ':';
  }

  lemma NamesAre(u: Classes)
    requires Unicode(u)
    ensures NameIn(u, "March").None? && NameIn(u, "14").None? && NameIn(u, "_::_") == Some((SymbolKind, "_::_", 0))
  {
    hide NameIn, Classify;
    Untrimmed(u, "March");
    Untrimmed(u, "_::_");
    Untrimmed(u, "14");
    PlainTokenIsNone(u, "March");
    PlainTokenIsNone(u, "14");
    SymbolWithoutAWord(u);
  }

  lemma TechnicalIs(u: Classes, technical: seq<Mention>)
    requires Plain(u) && AreTechnical(u, TEXT, technical)
    ensures technical == [Mention(u.lower("_::_"), SymbolKind, "_::_", 6, 10)]
  {
    hide MentionAt, Plain, Apart;
    MentionsAre(u);
    var only := Mention(u.lower("_::_"), SymbolKind, "_::_", 6, 10);
    forall k | 0 <= k < |technical| ensures technical[k] == only {
      assert FromToken(u, TEXT, technical[k]);
      var a: nat, e: nat :| IsToken(u, TEXT, a, e) && MentionAt(u, TEXT, a, e) == Some(technical[k]);
      TokensAre(u, a, e);
    }
    assert only in technical;
    if |technical| > 1 {
      InTurn(technical, 0, 1);
    }
  }

  lemma InTurn(ms: seq<Mention>, i: nat, j: nat)
    requires Apart(ms) && i < j < |ms|
    ensures ms[i].end <= ms[j].start
  {
  }

  // --- the words ----------------------------------------------------------

  lemma WordChars(u: Classes)
    requires Unicode(u)
    ensures forall i: nat :: WordAt(u.alphanumeric, TEXT, i) <==> i < 5 || 11 <= i < 13
    ensures !Trimmed(TEXT[4]) && !Trimmed(TEXT[12])
  {
    forall i: nat | i < 5 || 11 <= i < 13 ensures IsWordChar(u.alphanumeric, TEXT[i]) {
      assert IsLetter(TEXT[i]) || IsDigit(TEXT[i]);
    }
    forall i: nat | 5 <= i < 11 ensures !IsWordChar(u.alphanumeric, TEXT[i]) {
      assert TEXT[i] in {' ', '_', ':'};
    }
  }

  ghost predicate TwoRuns(alphanumeric: CharClass) {
    && (forall i: nat :: WordAt(alphanumeric, TEXT, i) <==> i < 5 || 11 <= i < 13)
    && IsWord(alphanumeric, TEXT, 0, 5) && IsWord(alphanumeric, TEXT, 11, 13)
  }

  lemma RunsAre(u: Classes)
    requires Unicode(u)
    ensures TwoRuns(u.alphanumeric)
  {
    WordChars(u);
    hide Unicode, WordAt;
    assert IsRun(u.alphanumeric, TEXT, 0, 5) && IsRun(u.alphanumeric, TEXT, 11, 13);
  }

  lemma WordsAre(u: Classes, words: seq<Word>)
    requires Unicode(u) && AreWords(u.alphanumeric, TEXT, words)
    ensures |words| == 2 && words[0].start == 0 && words[0].end == 5 && words[1].start == 11 && words[1].end == 13
  {
    hide Unicode, IsWord, Flagged;
    RunsAre(u);
    forall k | 0 <= k < |words| ensures (words[k].start, words[k].end) in {(0, 5), (11, 13)} {
      OneOfTwo(u.alphanumeric, words[k].start, words[k].end);
    }
    var first :| 0 <= first < |words| && words[first].start == 0;
    var second :| 0 <= second < |words| && words[second].start == 11;
    InPlace(words, |words| - 1);
    InPlace(words, 0);
  }

  lemma {:induction false} InPlace(words: seq<Word>, k: nat)
    requires InOrder(words) && k < |words|
    requires forall i :: 0 <= i < |words| ==> (words[i].start, words[i].end) in {(0, 5), (11, 13)}
    requires exists i :: 0 <= i < |words| && words[i].start == 0
    ensures k < 2 && words[k].start == 11 * k
  {
    if k > 0 {
      InPlace(words, k - 1);
    } else {
      var first :| 0 <= first < |words| && words[first].start == 0;
    }
  }

  lemma OneOfTwo(alphanumeric: CharClass, a: nat, b: nat)
    requires TwoRuns(alphanumeric) && IsWord(alphanumeric, TEXT, a, b)
    ensures (a, b) in {(0, 5), (11, 13)}
  {
    hide IsWord, WordAt;
    WordShape(alphanumeric, TEXT, a, b);
    RunStarts(alphanumeric, TEXT, a, b);
    assert a == 0 || a == 11;
    WordEndIsOne(alphanumeric, TEXT, a, b, if a == 0 then 5 else 13);
  }

  lemma RunStarts(alphanumeric: CharClass, text: string, a: nat, b: nat)
    requires IsWord(alphanumeric, text, a, b)
    ensures WordAt(alphanumeric, text, a) && (a > 0 ==> !WordAt(alphanumeric, text, a - 1))
  {
    var j :| b <= j && IsRun(alphanumeric, text, a, j);
  }

  // --- the date -----------------------------------------------------------

  lemma DayIs()
    ensures Day("14") == Some(14)
  {
    assert "14"[..1] == "1" && "1"[..0] == "";
    assert Decimal("1") == 1;
    assert Decimal("14") == 14;
    assert !EndsWith("14", "st") && !EndsWith("14", "nd") && !EndsWith("14", "rd") && !EndsWith("14", "th");
    assert TrimEnd("14", c => c == ',' || c == '.') == "14";
    assert !StartsWith("14", "+");
  }

  lemma DateIs(u: Classes)
    requires u.lower("March") == "march"
    ensures ParseDate(u, ["March", "14"]).Some? && ParseDate(u, ["March", "14"]).value.1 == 2
  {
    hide Day, KeyOf, Year, Find;
    DayIs();
    FindNone("March", "-");
    MonthIs(u);
    hide Month, IsoDate;
  }

  lemma MonthIs(u: Classes)
    requires u.lower("March") == "march"
    ensures Month(u, "March") == Some(3)
  {
  }

  lemma TextsAre(ws: seq<Word>)
    requires |ws| == 2 && ws[0].start == 0 && ws[0].end == 5 && ws[1].start == 11 && ws[1].end == 13
    ensures WordsIn(TEXT, ws) && Texts(TEXT, ws[0..]) == ["March", "14"]
  {
    assert TEXT[0..5] == "March" && TEXT[11..13] == "14";
    assert ws[0..] == ws;
  }

  lemma DateFound(u: Classes, stopword: Stopword, ws: seq<Word>)
    requires u.lower("March") == "march"
    requires |ws| == 2 && ws[0].start == 0 && ws[0].end == 5 && ws[1].start == 11 && ws[1].end == 13
    ensures WordsIn(TEXT, ws)
    ensures exists date :: ShapesFrom(u, stopword, TEXT, ws, 0) == [date] && date.start == 0 && date.end == 13
  {
    hide ParseDate, Texts, Spanning, ShapesFrom, WordsIn, Quotes, Quantity, IsNameToken, NameEnd, NameAt;
    TextsAre(ws);
    DateIs(u);
    var shape := ShapeAt(u, stopword, TEXT, ws, 0);
    assert shape.0.Some? && shape.1 == 2;
    LastShape(u, stopword, TEXT, ws, 0);
  }

  lemma LastShape(u: Classes, stopword: Stopword, text: string, ws: seq<Word>, i: nat)
    requires WordsIn(text, ws) && i < |ws| && i + ShapeAt(u, stopword, text, ws, i).1 == |ws|
    requires ShapeAt(u, stopword, text, ws, i).0.Some?
    ensures ShapesFrom(u, stopword, text, ws, i) == [ShapeAt(u, stopword, text, ws, i).0.value]
  {
    hide ShapeAt;
    assert ShapesFrom(u, stopword, text, ws, |ws|) == [];
  }

  lemma OneRun(technical: seq<Mention>, words: seq<Word>)
    requires |words| == 2 && Clear(technical, words[0]) && Clear(technical, words[1])
    ensures RunsOf(technical, words) == [words]
  {
    hide Clear;
    RunsStep(technical, [], words[0]);
    RunsStep(technical, [words[0]], words[1]);
    assert [] + [words[0]] == [words[0]] && words == [words[0]] + [words[1]];
  }

  // Whatever the other characters are, the date of `March _::_ 14` swallows the symbol
  // between its words: the mentions the extractor is bound to find overlap.
  lemma DateSwallowsSymbol(u: Classes, stopword: Stopword, technical: seq<Mention>, words: seq<Word>)
    requires Plain(u) && AreTechnical(u, TEXT, technical) && AreWords(u.alphanumeric, TEXT, words)
    ensures RunsIn(TEXT, RunsOf(technical, words))
    ensures !NothingSwallowed(u, TEXT, technical, ShapedIn(u, stopword, TEXT, RunsOf(technical, words)))
  {
    hide AreTechnical, AreWords, ShapesFrom, WordsIn, RunsOf;
    TechnicalIs(u, technical);
    WordsAre(u, words);
    OneRun(technical, words);
    DateFound(u, stopword, words);
    var runs := [words];
    assert runs[..0] == [];
    assert ShapedIn(u, stopword, TEXT, runs[..0]) == [];
    var shaped := ShapedIn(u, stopword, TEXT, runs);
    assert shaped == ShapesFrom(u, stopword, TEXT, words, 0);
    assert forall i :: 6 <= i < 10 ==> TEXT[i] == '_' || TEXT[i] == ':';
    assert Swallows(u, TEXT, shaped[0], technical[0]);
  }

  // So extraction does not keep the mentions of this text apart.
  method ExtractedOverlap(u: Classes, stopword: Stopword) returns (mentions: seq<Mention>)
    requires Plain(u)
    ensures !Apart(mentions)
  {
    ghost var technical, words, shaped;
    mentions, technical, words, shaped := Extract(u, stopword, TEXT);
    DateSwallowsSymbol(u, stopword, technical, words);
  }
}
