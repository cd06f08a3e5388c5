/** The shapes of technical tokens: environment variables, paths and code symbols. Each
    answers with the part of the token that names the thing, always a start of it. */
module TokenShapes {
  import opened Optional
  import opened Words

  // What Unicode has to say about characters, as parameters.
  datatype Classes = Classes(
    alphanumeric: CharClass, alphabetic: CharClass, uppercase: CharClass, whitespace: CharClass,
    lower: string -> string)

  predicate IsUpper(c: char) { 'A' <= c <= 'Z' }

  predicate IsLower(c: char) { 'a' <= c <= 'z' }

  predicate IsLetter(c: char) { IsUpper(c) || IsLower(c) }

  predicate IsDigit(c: char) { '0' <= c <= '9' }

  ghost predicate Unicode(u: Classes) {
    && Sane(u.alphanumeric)
    && (forall c :: u.alphabetic(c) ==> u.alphanumeric(c))
    && (forall c :: IsLetter(c) || IsDigit(c) ==> u.alphanumeric(c))
    && (forall c :: u.whitespace(c) ==> !u.alphanumeric(c))
    && !u.alphanumeric('_') && !u.alphanumeric(':')
  }

  predicate All(s: string, ok: CharClass) { forall i :: 0 <= i < |s| ==> ok(s[i]) }

  predicate Any(s: string, ok: CharClass) { exists i :: 0 <= i < |s| && ok(s[i]) }

  predicate EndsWith(s: string, suffix: string) { |suffix| <= |s| && s[|s| - |suffix|..] == suffix }

  predicate StartsWith(s: string, prefix: string) { |prefix| <= |s| && s[..|prefix|] == prefix }

  // Where `sub` first occurs, or the length.
  function Find(s: string, sub: string): (i: nat)
    ensures i <= |s| && (i < |s| && sub != "" ==> StartsWith(s[i..], sub))
  {
    if s == "" || StartsWith(s, sub) then 0 else 1 + Find(s[1..], sub)
  }

  predicate Contains(s: string, sub: string)
    requires sub != ""
  {
    Find(s, sub) < |s|
  }

  function Split(s: string, sep: string): (parts: seq<string>)
    requires sep != ""
    ensures |parts| > 0
    decreases |s|
  {
    var i := Find(s, sep);
    if i == |s| then [s] else [s[..i]] + Split(s[i + |sep|..], sep)
  }

  lemma SplitStep(s: string, sep: string)
    requires sep != ""
    ensures var at := Find(s, sep);
      if at == |s| then Split(s, sep) == [s]
      else
        && at + |sep| <= |s| && s == s[..at] + sep + s[at + |sep|..]
        && Split(s, sep) == [s[..at]] + Split(s[at + |sep|..], sep)
  {
    var at := Find(s, sep);
    if at < |s| {
      Found(s, sep, at);
    }
    hide Find, StartsWith;
  }

  lemma Found(s: string, sep: string, at: nat)
    requires at < |s| && StartsWith(s[at..], sep)
    ensures at + |sep| <= |s| && s == s[..at] + sep + s[at + |sep|..]
  {
    assert s[at..][..|sep|] == sep;
  }

  // If every character of every part is fine, and of the separator, every character is.
  lemma {:induction false} SplitKeepsAll(s: string, sep: string, ok: CharClass)
    requires sep != "" && All(sep, ok) && forall p :: 0 <= p < |Split(s, sep)| ==> All(Split(s, sep)[p], ok)
    ensures All(s, ok)
    decreases |s|
  {
    hide All, Split, Find, StartsWith;
    SplitStep(s, sep);
    var parts, at := Split(s, sep), Find(s, sep);
    assert All(parts[0], ok);
    if at < |s| {
      var rest := s[at + |sep|..];
      var others := Split(rest, sep);
      forall p | 0 <= p < |others| ensures All(others[p], ok) {
        assert parts[p + 1] == others[p];
      }
      SplitKeepsAll(rest, sep, ok);
      AllTogether(s[..at], sep, rest, ok);
    }
  }

  lemma AllTogether(before: string, sep: string, rest: string, ok: CharClass)
    requires All(before, ok) && All(sep, ok) && All(rest, ok)
    ensures All(before + sep + rest, ok)
  {
  }

  // A character that fits some part is in the whole.
  lemma {:induction false} PartsAreInside(s: string, sep: string, p: nat, i: nat)
    requires sep != "" && p < |Split(s, sep)| && i < |Split(s, sep)[p]|
    ensures Split(s, sep)[p][i] in s
    decreases |s|
  {
    hide Split, Find, StartsWith;
    SplitStep(s, sep);
    var at := Find(s, sep);
    if at < |s| {
      if p == 0 {
        assert s[..at][i] == s[i];
      } else {
        PartsAreInside(s[at + |sep|..], sep, p - 1, i);
      }
    }
  }

  // The whole begins with the first part and ends with the last.
  lemma {:induction false} SplitEnds(s: string, sep: string)
    requires sep != ""
    ensures var parts := Split(s, sep); StartsWith(s, parts[0]) && EndsWith(s, parts[|parts| - 1])
    decreases |s|
  {
    hide Split, Find;
    SplitStep(s, sep);
    var parts, at := Split(s, sep), Find(s, sep);
    if at < |s| {
      var rest := s[at + |sep|..];
      SplitEnds(rest, sep);
      EndsTogether(s[..at] + sep, rest, parts[|parts| - 1]);
    }
  }

  lemma EndsTogether(before: string, rest: string, suffix: string)
    requires EndsWith(rest, suffix)
    ensures EndsWith(before + rest, suffix)
  {
    assert (before + rest)[|before + rest| - |suffix|..] == rest[|rest| - |suffix|..];
  }

  lemma {:induction false} FindNone(s: string, sub: string)
    requires sub != "" && sub[0] !in s
    ensures Find(s, sub) == |s|
  {
    if s != "" {
      FindNone(s[1..], sub);
      StartsDiffer(s, sub);
    }
  }

  lemma StartsDiffer(s: string, prefix: string)
    requires s != "" && prefix != "" && s[0] != prefix[0]
    ensures !StartsWith(s, prefix)
  {
    if |prefix| <= |s| {
      assert s[..|prefix|][0] == s[0];
    }
  }

  lemma EndsDiffer(s: string, suffix: string)
    requires s != "" && suffix != "" && s[|s| - 1] != suffix[|suffix| - 1]
    ensures !EndsWith(s, suffix)
  {
    if |suffix| <= |s| {
      assert s[|s| - |suffix|..][|suffix| - 1] == s[|s| - 1];
    }
  }

  lemma {:induction false} FindFirst(before: string, sub: string, rest: string)
    requires sub != "" && sub[0] !in before
    ensures Find(before + sub + rest, sub) == |before|
  {
    var s := before + sub + rest;
    if before == "" {
      assert s[..|sub|] == sub;
    } else {
      FindFirst(before[1..], sub, rest);
      assert s[1..] == before[1..] + sub + rest;
      StartsDiffer(s, sub);
    }
  }

  // --- environment variables ----------------------------------------------

  predicate AllCaps(part: string) { part != "" && All(part, c => IsUpper(c) || IsDigit(c)) }

  function EnvVar(token: string): (name: Option<string>)
    ensures name.Some? ==> name.value <= token && name.value != "" && IsUpper(name.value[0])
  {
    var name := token[..Find(token, "=")];
    var parts := Split(name, "_");
    if
      && parts[0] != "" && IsUpper(parts[0][0]) && Contains(name, "_")
      && forall p :: 0 <= p < |parts| ==> AllCaps(parts[p])
    then Some(name) else None
  }

  // --- symbols ------------------------------------------------------------

  predicate IdentChar(c: char) { IsLetter(c) || IsDigit(c) || c == '_' }

  predicate IsIdent(part: string) { part != "" && (IsLetter(part[0]) || part[0] == '_') && All(part, IdentChar) }

  predicate Qualified(name: string) {
    Contains(name, "::") && forall p :: 0 <= p < |Split(name, "::")| ==> IsIdent(Split(name, "::")[p])
  }

  predicate Snake(name: string) {
    IsIdent(name) && Contains(name, "_") && Any(name, IsLower) && name[0] != '_' && name[|name| - 1] != '_'
  }

  predicate Dotted(name: string) {
    forall p :: 0 <= p < |Split(name, ".")| ==> IsIdent(Split(name, ".")[p])
  }

  function Symbol(token: string): (name: Option<string>)
    ensures name.Some? ==> name.value <= token && name.value != ""
  {
    var called := EndsWith(token, "()");
    var name := if called then token[..|token| - 2] else token;
    assert name == "" ==> Split(name, ".")[0] == "";
    if Qualified(name) || Snake(name) || (called && Dotted(name)) then Some(name) else None
  }

  lemma SymbolChars(token: string)
    requires Symbol(token).Some?
    ensures var name := Symbol(token).value;
      All(name, c => IdentChar(c) || c == ':' || c == '.') && name[0] != '.' && name[|name| - 1] != '.'
  {
    var ok := (c: char) => IdentChar(c) || c == ':' || c == '.';
    var name := Symbol(token).value;
    if Qualified(name) {
      var undotted := (c: char) => IdentChar(c) || c == ':';
      assert All("::", undotted);
      SplitKeepsAll(name, "::", undotted);
    } else if !Snake(name) {
      assert All(".", ok);
      SplitKeepsAll(name, ".", ok);
      SplitEnds(name, ".");
    }
  }

  // A symbol holds a letter or a digit unless it is made of underscores, colons and dots.
  lemma LetterlessSymbols(u: Classes, token: string)
    requires Unicode(u) && Symbol(token).Some?
    ensures !Any(Symbol(token).value, u.alphanumeric) <==> All(Symbol(token).value, c => c in {'_', ':', '.'})
  {
    SymbolChars(token);
    var name := Symbol(token).value;
    forall i | 0 <= i < |name| ensures u.alphanumeric(name[i]) <==> name[i] !in {'_', ':', '.'} {
      assert IdentChar(name[i]) || name[i] == ':' || name[i] == '.';
    }
  }

  // --- paths --------------------------------------------------------------

  const EXTENSIONS: seq<string> := [
    "c", "cc", "cjs", "cpp", "css", "go", "h", "html", "java", "js", "json", "jsonl", "jsx", "kt", "lock", "md", "mjs",
    "py", "rb", "rs", "sh", "sql", "swift", "toml", "ts", "tsx", "txt", "yaml", "yml"]

  const ROOTS: seq<string> := ["/", "./", "../", "~/"]

  function LowerAscii(s: string): string {
    seq(|s|, i requires 0 <= i < |s| => if IsUpper(s[i]) then (s[i] as int + 32) as char else s[i])
  }

  // Where the last `c` is, or the length.
  function FindLast(s: string, c: char): (i: nat)
    ensures i <= |s| && (i < |s| ==> s[i] == c)
  {
    if s == "" then 0
    else
      var last := |s| - 1;
      if s[last] == c then last
      else
        var i := FindLast(s[..last], c);
        if i == last then |s| else i
  }

  lemma {:induction false} FindLastNone(s: string, c: char)
    requires c !in s
    ensures FindLast(s, c) == |s|
  {
    if s != "" {
      FindLastNone(s[..|s| - 1], c);
    }
  }

  predicate HasExtension(segment: string) {
    var dot := FindLast(segment, '.');
    0 < dot < |segment| && LowerAscii(segment[dot + 1..]) in EXTENSIONS
  }

  // A trailing `:12` is dropped.
  function DropLine(name: string): (rest: string)
    ensures rest <= name
  {
    var colon := FindLast(name, ':');
    if colon + 1 < |name| && All(name[colon + 1..], IsDigit) then name[..colon] else name
  }

  function TrimStart(s: string, trim: CharClass): (rest: string)
    ensures |rest| <= |s| && rest == s[|s| - |rest|..]
  {
    if s != "" && trim(s[0]) then TrimStart(s[1..], trim) else s
  }

  function TrimEnd(s: string, trim: CharClass): (rest: string)
    ensures rest <= s && (rest != "" ==> !trim(rest[|rest| - 1]))
  {
    if s != "" && trim(s[|s| - 1]) then TrimEnd(s[..|s| - 1], trim) else s
  }

  predicate SegmentOk(u: Classes, segment: string) {
    segment != "" && All(segment, c => u.alphanumeric(c) || c in {'_', '-', '.', '@', '~'})
  }

  function Count(s: string, c: char): nat { multiset(s)[c] }

  // The bytes a text takes.
  function Utf8Length(s: string): nat {
    if s == "" then 0
    else
      var n := s[0] as int;
      Utf8Length(s[1..]) + (if n < 0x80 then 1 else if n < 0x800 then 2 else if n < 0x10000 then 3 else 4)
  }

  predicate Shaped(u: Classes, name: string, last: string) {
    var slashes := Count(name, '/');
    if slashes == 0 then
      && HasExtension(last)
      && !(EndsWith(last, ".js") && last != "" && u.uppercase(last[0]))
      && Utf8Length(Split(last, ".")[0]) >= 2
    else
      (exists r :: 0 <= r < |ROOTS| && StartsWith(name, ROOTS[r])) || slashes >= 2 || HasExtension(last)
  }

  const SLASH: CharClass := c => c == '/'

  function Segments(name: string): (segments: seq<string>)
    ensures |segments| > 0
  {
    Split(TrimEnd(TrimStart(name, SLASH), SLASH), "/")
  }

  function Path(u: Classes, token: string): (name: Option<string>)
    ensures name.Some? ==> name.value <= token && Any(name.value, u.alphabetic)
  {
    if Contains(token, "://") then None
    else
      var name := DropLine(DropLine(token));
      var segments := Segments(name);
      if !(forall p :: 0 <= p < |segments| ==> SegmentOk(u, segments[p])) then None
      else if !(exists p :: 0 <= p < |segments| && Any(segments[p], u.alphabetic)) then None
      else
        SegmentsInside(name, SLASH, "/", u.alphabetic);
        if Shaped(u, name, segments[|segments| - 1]) then Some(name) else None
  }

  // What is in a part of the trimmed text is in the text.
  lemma SegmentsInside(s: string, trim: CharClass, sep: string, ok: CharClass)
    requires sep != "" && exists part :: part in Split(TrimEnd(TrimStart(s, trim), trim), sep) && Any(part, ok)
    ensures Any(s, ok)
  {
    var inner := TrimEnd(TrimStart(s, trim), trim);
    var part :| part in Split(inner, sep) && Any(part, ok);
    var p :| 0 <= p < |Split(inner, sep)| && Split(inner, sep)[p] == part;
    var i :| 0 <= i < |part| && ok(part[i]);
    PartsAreInside(inner, sep, p, i);
    var j :| 0 <= j < |inner| && inner[j] == part[i];
    assert TrimStart(s, trim)[j] == inner[j] == s[|s| - |TrimStart(s, trim)| + j];
  }
}
