/** The shapes of plain words: dates, quantities and names. */
module WordShapes {
  import opened Optional
  import opened TokenShapes
  import opened Words

  const MONTHS: map<string, nat> := map[
    "january" := 1, "jan" := 1, "february" := 2, "feb" := 2, "march" := 3, "mar" := 3, "april" := 4, "apr" := 4,
    "may" := 5, "june" := 6, "jun" := 6, "july" := 7, "jul" := 7, "august" := 8, "aug" := 8, "september" := 9,
    "sep" := 9, "sept" := 9, "october" := 10, "oct" := 10, "november" := 11, "nov" := 11, "december" := 12, "dec" := 12]

  const WEEKDAYS: set<string> := {"monday", "tuesday", "wednesday", "thursday", "friday", "saturday", "sunday"}

  const CONNECTORS: set<string> := {"of", "de", "van", "von", "der", "and", "&", "the"}

  // --- numbers ------------------------------------------------------------

  function Decimal(s: string): nat
    requires All(s, IsDigit)
  {
    if s == "" then 0 else 10 * Decimal(s[..|s| - 1]) + (s[|s| - 1] as int - '0' as int)
  }

  // An unsigned 32-bit number: digits, with an optional plus sign.
  function ParseU32(s: string): Option<nat> {
    var digits := if StartsWith(s, "+") then s[1..] else s;
    if digits != "" && All(digits, IsDigit) && Decimal(digits) < 0x1_0000_0000 then Some(Decimal(digits)) else None
  }

  // At least `width` digits, zeros in front.
  function Padded(n: nat, width: nat): string {
    var last := [(n % 10 + '0' as int) as char];
    if n < 10 && width <= 1 then last else Padded(n / 10, if width > 0 then width - 1 else 0) + last
  }

  // --- dates --------------------------------------------------------------

  function Month(u: Classes, word: string): Option<nat> {
    var w := u.lower(word);
    if w in MONTHS then Some(MONTHS[w]) else None
  }

  function StripOrdinal(w: string): string {
    if EndsWith(w, "st") || EndsWith(w, "nd") || EndsWith(w, "rd") || EndsWith(w, "th") then w[..|w| - 2] else w
  }

  function Day(word: string): (day: Option<nat>)
    ensures day.Some? ==> 1 <= day.value <= 31
  {
    var d := ParseU32(StripOrdinal(TrimEnd(word, c => c == ',' || c == '.')));
    if d.Some? && 1 <= d.value <= 31 then d else None
  }

  function Year(word: string): Option<nat> {
    var y := ParseU32(TrimEnd(word, c => c == ','));
    if y.Some? && 1900 <= y.value <= 2200 then y else None
  }

  function KeyOf(year: Option<nat>, month: nat, day: nat): string {
    var monthDay := Padded(month, 2) + "-" + Padded(day, 2);
    if year.Some? then Padded(year.value, 4) + "-" + monthDay else monthDay
  }

  // 2025-03-14 in one word.
  function IsoDate(word: string): Option<string> {
    var dash := Find(word, "-");
    if dash == |word| then None
    else
      var rest := word[dash + 1..];
      var second := Find(rest, "-");
      if second == |rest| then None
      else
        var y, m, d := Year(word[..dash]), ParseU32(rest[..second]), ParseU32(rest[second + 1..]);
        if y.Some? && m.Some? && d.Some? && 1 <= m.value <= 12 && 1 <= d.value <= 31
        then Some(KeyOf(y, m.value, d.value))
        else None
  }

  // A date at the head of the words, and how many of them it takes.
  function ParseDate(u: Classes, words: seq<string>): (date: Option<(string, nat)>)
    ensures date.Some? ==> 1 <= date.value.1 <= |words|
  {
    if words == [] then None
    else if IsoDate(words[0]).Some? then Some((IsoDate(words[0]).value, 1))
    else
      var year := if |words| > 2 then Year(words[2]) else None;
      var n := if year.Some? then 3 else 2;
      if Month(u, words[0]).Some? then
        if |words| > 1 && Day(words[1]).Some?
        then Some((KeyOf(year, Month(u, words[0]).value, Day(words[1]).value), n)) else None
      else if Day(words[0]).Some? then
        if |words| > 1 && Month(u, words[1]).Some?
        then Some((KeyOf(year, Month(u, words[1]).value, Day(words[0]).value), n)) else None
      else None
  }

  // Month first or day first, spelled out or shortened: one date, one key.
  lemma DateOrdersAgree(u: Classes, month: string, month': string, day: string, rest: seq<string>)
    requires Month(u, month).Some? && Month(u, month) == Month(u, month') && Day(day).Some?
    requires IsoDate(month).None? && IsoDate(day).None? && Month(u, day).None?
    ensures ParseDate(u, [month, day] + rest).Some?
    ensures ParseDate(u, [month, day] + rest) == ParseDate(u, [day, month'] + rest)
  {
    hide Day, Month, KeyOf, IsoDate, Year;
    var a, b := [month, day] + rest, [day, month'] + rest;
    assert rest != [] ==> a[2] == rest[0] == b[2];
  }

  lemma NoSign(s: string)
    requires ParseU32(s).Some?
    ensures '-' !in s
  {
    var digits := if StartsWith(s, "+") then s[1..] else s;
    forall i | 0 <= i < |s| ensures s[i] != '-' {
      if StartsWith(s, "+") {
        assert s[..1] == "+" && (i > 0 ==> s[i] == digits[i - 1]);
      }
    }
  }

  lemma {:induction false} TrimmedOff(s: string, trim: CharClass)
    ensures forall i :: |TrimEnd(s, trim)| <= i < |s| ==> trim(s[i])
  {
    if s != "" && trim(s[|s| - 1]) {
      TrimmedOff(s[..|s| - 1], trim);
    }
  }

  lemma NoDashInYear(word: string)
    requires Year(word).Some?
    ensures '-' !in word
  {
    var kept := TrimEnd(word, c => c == ',');
    NoSign(kept);
    TrimmedOff(word, c => c == ',');
    forall i | 0 <= i < |word| ensures word[i] != '-' {
      assert i < |kept| ==> word[i] == kept[i];
    }
  }

  lemma Halves(before: string, after: string)
    requires '-' !in before
    ensures var s := before + "-" + after;
      Find(s, "-") == |before| && s[..|before|] == before && s[|before| + 1..] == after
  {
    hide Find;
    FindFirst(before, "-", after);
  }

  lemma IsoParts(y: string, m: string, d: string)
    requires '-' !in y && '-' !in m
    ensures var word := y + "-" + m + "-" + d;
      && Find(word, "-") == |y| && word[..|y|] == y
      && word[|y| + 1..] == m + "-" + d && Find(m + "-" + d, "-") == |m|
      && (m + "-" + d)[..|m|] == m && (m + "-" + d)[|m| + 1..] == d
  {
    hide Find;
    Halves(y, m + "-" + d);
    Halves(m, d);
    assert y + "-" + m + "-" + d == y + "-" + (m + "-" + d);
  }

  // `2025-03-14` and `March 14 2025` are one date under one key.
  lemma IsoAgrees(u: Classes, y: string, m: string, d: string, month: string, day: string)
    requires Year(y).Some? && Month(u, month).Some? && IsoDate(month).None?
    requires ParseU32(m) == Month(u, month) && ParseU32(d) == Day(day) != None
    ensures var key := KeyOf(Year(y), Month(u, month).value, Day(day).value);
      && ParseDate(u, [y + "-" + m + "-" + d]) == Some((key, 1))
      && ParseDate(u, [month, day, y]) == Some((key, 3))
  {
    hide KeyOf, ParseU32, Year, Day, Find;
    NoDashInYear(y);
    NoSign(m);
    IsoParts(y, m, d);
    MonthsAreTwelve(u, month);
    assert "-" + (m + "-" + d) == "-" + m + "-" + d;
  }

  lemma MonthsAreTwelve(u: Classes, word: string)
    requires Month(u, word).Some?
    ensures 1 <= Month(u, word).value <= 12
  {
  }

  // --- quantities ---------------------------------------------------------

  // No word holds a comma or a euro sign: an amount such as `€1,200` is never one word.
  lemma NoCommaInWords(u: Classes, text: string, words: seq<Word>, k: nat)
    requires AreWords(u.alphanumeric, text, words) && k < |words|
    requires !u.alphanumeric(',') && !u.alphanumeric('\U{20AC}')
    ensures ',' !in words[k].Text(text) && '\U{20AC}' !in words[k].Text(text)
  {
    var w := words[k];
    WordShape(u.alphanumeric, text, w.start, w.end);
    hide AreWords, IsWord;
    forall i | 0 <= i < |w.Text(text)| ensures IsWordChar(u.alphanumeric, w.Text(text)[i]) {
      assert WordAt(u.alphanumeric, text, w.start + i) && w.Text(text)[i] == text[w.start + i];
    }
  }

  function Without(s: string, drop: char): string {
    if s == "" then "" else (if s[0] == drop then "" else [s[0]]) + Without(s[1..], drop)
  }

  function Quantity(u: Classes, word: string): Option<string> {
    var w := Without(u.lower(word), ',');
    if !Any(w, IsDigit) then None
    else
      var money := w[0] in {'$', '\U{20AC}', '\U{A3}'};
      var version := |w| > 1 && w[0] == 'v' && IsDigit(w[1]) && '.' in w;
      var unsigned := if w[0] == '-' || w[0] == '+' then w[1..] else w;
      var numeric := unsigned != "" && IsDigit(unsigned[0]);
      var endsUnit := w[|w| - 1] in {'%', 'k', 'm', 'x'} || EndsWith(w, "ms") || EndsWith(w, "gb") || EndsWith(w, "mb");
      var allDigits := All(unsigned, c => IsDigit(c) || c == '.');
      if money || version || (numeric && endsUnit && !allDigits) then Some(w) else None
  }

  // --- names --------------------------------------------------------------

  predicate IsCapitalised(u: Classes, word: string) {
    word != "" && u.uppercase(word[0]) && All(word[1..], c => u.alphanumeric(c) || c in {'\'', '\U{2019}', '-', '.'})
  }

  predicate IsAcronym(word: string) {
    |word| >= 2 && All(word, c => IsUpper(c) || IsDigit(c)) && Any(word, IsLetter)
  }

  function TrimSuffix(w: string, suffix: string): (rest: string)
    requires suffix != ""
  {
    if EndsWith(w, suffix) then TrimSuffix(w[..|w| - |suffix|], suffix) else w
  }

  function DropPossessive(w: string): string { TrimSuffix(TrimSuffix(w, "'s"), "\U{2019}s") }

  // Where a sentence opens, a lone capital on a month or a weekday says nothing.
  predicate IsNameToken(u: Classes, stopword: string -> bool, word: string, sentenceStart: bool) {
    IsAcronym(word) ||
    (IsCapitalised(u, word) && !stopword(DropPossessive(u.lower(word))) &&
     (!sentenceStart || Any(word[1..], c => u.uppercase(c) || IsDigit(c)) ||
      (Month(u, word).None? && u.lower(word) !in WEEKDAYS)))
  }

  function SplitWhitespace(u: Classes, s: string): seq<string>
    decreases |s|
  {
    var rest := TrimStart(s, u.whitespace);
    if rest == "" then []
    else
      var n := FirstOf(rest, u.whitespace);
      if n == 0 then [] else [rest[..n]] + SplitWhitespace(u, rest[n..])
  }

  // Where the first such character is, or the length.
  function FirstOf(s: string, c: CharClass): (i: nat)
    ensures i <= |s| && (i < |s| ==> c(s[i])) && forall j :: 0 <= j < i ==> !c(s[j])
  {
    if s == "" || c(s[0]) then 0 else 1 + FirstOf(s[1..], c)
  }

  function JoinKeys(parts: seq<string>): string {
    if parts == [] then ""
    else
      var part := TrimEnd(DropPossessive(parts[0]), c => c == '\'');
      var rest := JoinKeys(parts[1..]);
      if part == "" then rest else if rest == "" then part else part + " " + rest
  }

  function NameKey(u: Classes, surface: string): string { JoinKeys(SplitWhitespace(u, u.lower(surface))) }
}
