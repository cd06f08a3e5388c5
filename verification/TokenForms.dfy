/** What the three kinds of technical token look like, put together instead of taken apart:
    parts joined by their separator. */
module TokenForms {
  import opened Optional
  import opened Words
  import opened TokenShapes

  function Join(parts: seq<string>, sep: string): string
    requires parts != []
  {
    if |parts| == 1 then parts[0] else parts[0] + sep + Join(parts[1..], sep)
  }

  // Joining undoes splitting, always;
  lemma {:induction false} JoinSplit(s: string, sep: string)
    requires sep != ""
    ensures Join(Split(s, sep), sep) == s
    decreases |s|
  {
    hide Split, Find;
    SplitStep(s, sep);
    var at := Find(s, sep);
    if at < |s| {
      var rest := s[at + |sep|..];
      JoinSplit(rest, sep);
      assert ([s[..at]] + Split(rest, sep))[1..] == Split(rest, sep);
    }
  }

  // splitting undoes joining when no part holds the separator's first character.
  lemma {:induction false} SplitJoin(parts: seq<string>, sep: string)
    requires parts != [] && sep != "" && forall p :: 0 <= p < |parts| ==> sep[0] !in parts[p]
    ensures Split(Join(parts, sep), sep) == parts
    decreases |parts|
  {
    hide Split, Find;
    var s := Join(parts, sep);
    SplitStep(s, sep);
    if |parts| == 1 {
      FindNone(s, sep);
    } else {
      var rest := Join(parts[1..], sep);
      SplitJoin(parts[1..], sep);
      FindFirst(parts[0], sep, rest);
      assert s[..|parts[0]|] == parts[0] && s[|parts[0]| + |sep|..] == rest;
    }
  }

  lemma {:induction false} JoinKeeps(parts: seq<string>, sep: string, ok: CharClass)
    requires parts != [] && All(sep, ok) && forall p :: 0 <= p < |parts| ==> All(parts[p], ok)
    ensures All(Join(parts, sep), ok)
    decreases |parts|
  {
    hide All;
    if |parts| > 1 {
      JoinKeeps(parts[1..], sep, ok);
      AllTogether(parts[0], sep, Join(parts[1..], sep), ok);
    }
  }

  predicate AllParts(parts: seq<string>, shape: string -> bool) {
    forall p :: 0 <= p < |parts| ==> shape(parts[p])
  }

  // At least `least` parts of the shape, joined.
  ghost predicate Joined(name: string, sep: string, least: nat, shape: string -> bool) {
    exists parts :: parts != [] && |parts| >= least && name == Join(parts, sep) && AllParts(parts, shape)
  }

  // Parts that cannot hold the separator: the pieces of a split are the parts of a join.
  lemma SplitIsJoined(name: string, sep: string, shape: string -> bool)
    requires sep != "" && forall part :: shape(part) ==> sep[0] !in part
    ensures AllParts(Split(name, sep), shape) <==> Joined(name, sep, 1, shape)
    ensures Contains(name, sep) && AllParts(Split(name, sep), shape) <==> Joined(name, sep, 2, shape)
  {
    hide Split, Find;
    JoinSplit(name, sep);
    SplitStep(name, sep);
    var pieces := Split(name, sep);
    if Joined(name, sep, 1, shape) {
      var parts :| parts != [] && name == Join(parts, sep) && AllParts(parts, shape);
      SplitJoin(parts, sep);
    }
    if Joined(name, sep, 2, shape) {
      var parts :| |parts| >= 2 && name == Join(parts, sep) && AllParts(parts, shape);
      SplitJoin(parts, sep);
    }
  }

  // --- environment variables ----------------------------------------------

  const ALL_CAPS: string -> bool := part => AllCaps(part)

  // A name of capitals and digits in parts joined by underscores, two of them or more, that
  // begins with a capital: the whole token, or what stands before an equals sign.
  ghost predicate IsEnvName(name: string) {
    Joined(name, "_", 2, ALL_CAPS) && name != "" && IsUpper(name[0])
  }

  lemma EnvNameIs(name: string)
    ensures IsEnvName(name) <==>
      var parts := Split(name, "_");
      && parts[0] != "" && IsUpper(parts[0][0]) && Contains(name, "_")
      && forall p :: 0 <= p < |parts| ==> AllCaps(parts[p])
  {
    forall part | ALL_CAPS(part) ensures '_' !in part {}
    hide Split, AllCaps, Find, Joined;
    SplitIsJoined(name, "_", ALL_CAPS);
    SplitEnds(name, "_");
    assert Split(name, "_")[0] != "" ==> name[..1] == Split(name, "_")[0][..1];
  }

  lemma EnvNameChars(name: string)
    requires IsEnvName(name)
    ensures '=' !in name
  {
    var parts :| |parts| >= 2 && name == Join(parts, "_") && forall p :: 0 <= p < |parts| ==> AllCaps(parts[p]);
    var ok := (c: char) => IsUpper(c) || IsDigit(c) || c == '_';
    JoinKeeps(parts, "_", ok);
  }

  lemma EnvVarExactlyWhen(token: string, name: string)
    ensures EnvVar(token) == Some(name) <==> IsEnvName(name) && (token == name || name + "=" <= token)
  {
    hide IsEnvName, Find;
    var head := token[..Find(token, "=")];
    EnvNameIs(head);
    hide Split, Contains, AllCaps;
    assert EnvVar(token) == if IsEnvName(head) then Some(head) else None;
    if IsEnvName(head) {
      HeadStands(token);
    }
    if IsEnvName(name) {
      EnvNameChars(name);
      if token == name {
        FindNone(token, "=");
        assert head == token;
      } else if name + "=" <= token {
        assert token == name + "=" + token[|name| + 1..];
        FindFirst(name, "=", token[|name| + 1..]);
        assert head == name;
      }
    }
  }

  lemma HeadStands(token: string)
    ensures var head := token[..Find(token, "=")]; token == head || head + "=" <= token
  {
    var at := Find(token, "=");
    if at < |token| {
      Found(token, "=", at);
    }
  }

  // --- symbols ------------------------------------------------------------

  const IDENT: string -> bool := part => IsIdent(part)

  ghost predicate IsQualified(name: string) { Joined(name, "::", 2, IDENT) }

  ghost predicate IsDotted(name: string) { Joined(name, ".", 1, IDENT) }

  lemma IdentHas(part: string)
    requires IDENT(part)
    ensures ':' !in part && '.' !in part && ')' !in part && All(part, c => IdentChar(c) || c == ':')
  {
  }

  lemma IdentParts(parts: seq<string>)
    ensures AllParts(parts, IDENT) <==> forall p :: 0 <= p < |parts| ==> IsIdent(parts[p])
  {
    hide IsIdent;
  }

  lemma QualifiedIs(name: string)
    ensures Qualified(name) <==> IsQualified(name)
  {
    hide Split, IsIdent, Find, Joined;
    forall part | IDENT(part) ensures ':' !in part {
      IdentHas(part);
    }
    SplitIsJoined(name, "::", IDENT);
    IdentParts(Split(name, "::"));
  }

  lemma DottedIs(name: string)
    ensures Dotted(name) <==> IsDotted(name)
  {
    hide Split, IsIdent, Find, Joined;
    forall part | IDENT(part) ensures '.' !in part {
      IdentHas(part);
    }
    SplitIsJoined(name, ".", IDENT);
    IdentParts(Split(name, "."));
  }

  lemma NotCalled(name: string)
    requires name != "" && (IsQualified(name) || Snake(name))
    ensures !EndsWith(name, "()")
  {
    if IsQualified(name) {
      QualifiedChars(name);
    }
    EndsDiffer(name, "()");
  }

  lemma QualifiedChars(name: string)
    requires IsQualified(name)
    ensures All(name, c => IdentChar(c) || c == ':')
  {
    hide IsIdent;
    var ok := (c: char) => IdentChar(c) || c == ':';
    var parts :| |parts| >= 2 && name == Join(parts, "::") && forall p :: 0 <= p < |parts| ==> IDENT(parts[p]);
    forall p | 0 <= p < |parts| ensures All(parts[p], ok) {
      IdentHas(parts[p]);
    }
    JoinKeeps(parts, "::", ok);
  }

  // Identifiers joined by `::`, a word with an underscore inside, or identifiers joined by
  // dots and called.
  lemma SymbolExactlyWhen(token: string, name: string)
    ensures Symbol(token) == Some(name) <==>
      || (token == name && (IsQualified(name) || Snake(name)))
      || (token == name + "()" && (IsQualified(name) || Snake(name) || IsDotted(name)))
  {
    hide Qualified, Snake, Dotted, IsQualified, IsDotted;
    QualifiedIs(name);
    DottedIs(name);
    if name != "" && (Qualified(name) || Snake(name)) {
      NotCalled(name);
    }
    assert EndsWith(name + "()", "()") && (name + "()")[..|name|] == name;
    if EndsWith(token, "()") {
      assert token == token[..|token| - 2] + "()";
    }
    SymbolIs(token);
  }

  lemma SymbolIs(token: string)
    ensures var called := EndsWith(token, "()"); var name := if called then token[..|token| - 2] else token;
      Symbol(token) == if Qualified(name) || Snake(name) || (called && Dotted(name)) then Some(name) else None
  {
  }

  // --- paths --------------------------------------------------------------

  lemma {:induction false} TrimStartAt(s: string, n: nat, trim: CharClass)
    requires n <= |s| && (forall i :: 0 <= i < n ==> trim(s[i])) && (n < |s| ==> !trim(s[n]))
    ensures TrimStart(s, trim) == s[n..]
  {
    if n > 0 {
      TrimStartAt(s[1..], n - 1, trim);
      assert s[1..][n - 1..] == s[n..];
    }
  }

  lemma {:induction false} TrimEndAt(rest: string, tail: string, trim: CharClass)
    requires All(tail, trim) && (rest == "" || !trim(rest[|rest| - 1]))
    ensures TrimEnd(rest + tail, trim) == rest
  {
    if tail == "" {
      assert rest + tail == rest;
    } else {
      var n := |tail| - 1;
      TrimEndAt(rest, tail[..n], trim);
      assert (rest + tail)[..|rest + tail| - 1] == rest + tail[..n];
    }
  }

  lemma {:induction false} TrimStartDrops(s: string, trim: CharClass)
    ensures var rest := TrimStart(s, trim); All(s[..|s| - |rest|], trim) && (rest != "" ==> !trim(rest[0]))
  {
    if s != "" && trim(s[0]) {
      TrimStartDrops(s[1..], trim);
      var rest := TrimStart(s[1..], trim);
      assert s[..|s| - |rest|] == [s[0]] + s[1..][..|s[1..]| - |rest|];
    }
  }

  lemma {:induction false} TrimEndDrops(s: string, trim: CharClass)
    ensures All(s[|TrimEnd(s, trim)|..], trim)
  {
    if s != "" && trim(s[|s| - 1]) {
      var init := s[..|s| - 1];
      TrimEndDrops(init, trim);
      assert s[|TrimEnd(s, trim)|..] == init[|TrimEnd(init, trim)|..] + [s[|s| - 1]];
    }
  }

  // Segments joined by slashes, with any slashes before and behind.
  ghost predicate InSegments(name: string, segments: seq<string>) {
    exists lead, tail :: segments != [] && All(lead, SLASH) && All(tail, SLASH)
      && name == lead + Join(segments, "/") + tail
  }

  // None of them empty, all of path characters.
  predicate SegmentsOk(u: Classes, segments: seq<string>) {
    forall p :: 0 <= p < |segments| ==> SegmentOk(u, segments[p])
  }

  lemma SegmentsJoin(name: string)
    ensures InSegments(name, Segments(name))
  {
    hide TrimStart, TrimEnd, Split, All, Join;
    var start := TrimStart(name, SLASH);
    var inner := TrimEnd(start, SLASH);
    TrimStartDrops(name, SLASH);
    TrimEndDrops(start, SLASH);
    JoinSplit(inner, "/");
    var lead, tail := name[..|name| - |start|], start[|inner|..];
    assert start == inner + tail && name == lead + start;
    assert name == lead + inner + tail;
  }

  lemma {:induction false} JoinEnds(segments: seq<string>, sep: string)
    requires segments != [] && forall p :: 0 <= p < |segments| ==> segments[p] != ""
    ensures var s := Join(segments, sep); var last := segments[|segments| - 1];
      s != "" && s[0] == segments[0][0] && s[|s| - 1] == last[|last| - 1]
    decreases |segments|
  {
    if |segments| > 1 {
      JoinEnds(segments[1..], sep);
    }
  }

  lemma SegmentsAre(u: Classes, name: string, segments: seq<string>)
    requires !u.alphanumeric('/') && InSegments(name, segments) && SegmentsOk(u, segments)
    ensures Segments(name) == segments
  {
    var lead, tail :| All(lead, SLASH) && All(tail, SLASH) && name == lead + Join(segments, "/") + tail;
    forall p | 0 <= p < |segments| ensures segments[p] != "" && '/' !in segments[p] {
      assert SegmentOk(u, segments[p]);
    }
    hide SegmentsOk, InSegments, All, Join, Split, TrimStart, TrimEnd;
    JoinEnds(segments, "/");
    var core := Join(segments, "/");
    assert segments[0][0] in segments[0];
    var last := segments[|segments| - 1];
    assert last[|last| - 1] in last;
    assert name == lead + (core + tail);
    TrimLead(name, lead, core + tail);
    TrimEndAt(core, tail, SLASH);
    SplitJoin(segments, "/");
  }

  lemma TrimLead(name: string, lead: string, rest: string)
    requires name == lead + rest && All(lead, SLASH) && (rest == "" || !SLASH(rest[0]))
    ensures TrimStart(name, SLASH) == rest
  {
    TrimStartAt(name, |lead|, SLASH);
  }

  // A token that is no address, its line numbers dropped, is a path exactly when it is such
  // segments, one of them with a letter, and rooted, of two slashes, or of a known extension;
  // without any slash the extension is needed, and a stem of two bytes that is no product.
  lemma PathExactlyWhen(u: Classes, token: string, name: string)
    requires !u.alphanumeric('/')
    ensures Path(u, token) == Some(name) <==>
      && !Contains(token, "://") && name == DropLine(DropLine(token))
      && exists segments :: InSegments(name, segments) && SegmentsOk(u, segments)
           && (exists p :: 0 <= p < |segments| && Any(segments[p], u.alphabetic))
             && Shaped(u, name, segments[|segments| - 1])
  {
    hide Segments, Shaped, DropLine, Contains, InSegments, SegmentOk, Any;
    var dropped := DropLine(DropLine(token));
    SegmentsJoin(dropped);
    PathIs(u, token);
    if name == dropped {
      forall segments | InSegments(name, segments) && SegmentsOk(u, segments) ensures segments == Segments(name) {
        SegmentsAre(u, name, segments);
      }
    }
  }

  lemma PathIs(u: Classes, token: string)
    ensures var name := DropLine(DropLine(token)); var segments := Segments(name);
      Path(u, token) ==
        if !Contains(token, "://") && SegmentsOk(u, segments)
          && (exists p :: 0 <= p < |segments| && Any(segments[p], u.alphabetic))
           && Shaped(u, name, segments[|segments| - 1])
        then Some(name) else None
  {
    hide Segments, Shaped, DropLine, Contains, SegmentOk, Any;
  }
}
