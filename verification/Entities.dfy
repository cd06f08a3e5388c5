/** Mentions found by shape: technical tokens first, then dates, quantities and names in the
    runs of words between them. Positions count characters. */
module Entities {
  import opened Optional
  import opened TokenShapes

  datatype Kind = NameKind | DateKind | QuantityKind | PathKind | SymbolKind | EnvKind

  datatype Mention = Mention(key: string, kind: Kind, surface: string, start: nat, end: nat)

  // A mention lies in the text and quotes it.
  ghost predicate Quotes(text: string, m: Mention) {
    m.start < m.end <= |text| && m.surface == text[m.start..m.end]
  }

  predicate Overlap(a: nat, b: nat, c: nat, d: nat) { a < d && c < b }

  // --- technical tokens ---------------------------------------------------

  // A stretch without white space, as long as can be.
  ghost predicate IsToken(u: Classes, text: string, a: nat, e: nat) {
    && a < e <= |text|
    && (forall i :: a <= i < e ==> !u.whitespace(text[i]))
    && (a > 0 ==> u.whitespace(text[a - 1]))
    && (e < |text| ==> u.whitespace(text[e]))
  }

  predicate Opener(c: char) { c in {'(', '[', '{', '\"', '\'', '`', '<', '*'} }

  predicate Closer(c: char) { c in {',', ';', '.', '!', '?', ']', '}', '\"', '\'', '`', '>', '*', ':'} }

  // The token without the punctuation behind it and without a closing bracket that no
  // opening one in it answers for, over and over.
  function TrimTail(s: string): (rest: string)
    ensures rest <= s
    decreases |s|
  {
    var t := TrimEnd(s, Closer);
    var t := if EndsWith(t, ")") && Count(t, ')') > Count(t, '(') then t[..|t| - 1] else t;
    if |t| == |s| then s else TrimTail(t)
  }

  function Classify(u: Classes, token: string): (found: Option<(Kind, string)>)
    ensures found.Some? ==> found.value.1 <= token && found.value.1 != ""
  {
    if EnvVar(token).Some? then Some((EnvKind, EnvVar(token).value))
    else if Path(u, token).Some? then Some((PathKind, Path(u, token).value))
    else if Symbol(token).Some? then Some((SymbolKind, Symbol(token).value))
    else None
  }

  ghost predicate Fits(token: string, named: Option<(Kind, string, nat)>) {
    named.Some? ==>
      var (_, name, lead) := named.value;
      name != "" && lead + |name| <= |token| && token[lead..lead + |name|] == name
  }

  // What a token names, and where in it.
  function NameIn(u: Classes, token: string): (found: Option<(Kind, string, nat)>)
    ensures Fits(token, found)
  {
    hide TrimStart, TrimTail, Classify, Fits;
    var inner := TrimStart(token, Opener);
    var trimmed := TrimTail(inner);
    if trimmed == "" then NothingFits(token); None
    else
      match Classify(u, trimmed)
      case None => NothingFits(token); None
      case Some((kind, name)) =>
        PrefixFits(token, inner, kind, name);
        Some((kind, name, |token| - |inner|))
  }

  lemma NothingFits(token: string)
    ensures Fits(token, None)
  {
  }

  lemma PrefixFits(token: string, inner: string, kind: Kind, name: string)
    requires |inner| <= |token| && inner == token[|token| - |inner|..] && name <= inner && name != ""
    ensures Fits(token, Some((kind, name, |token| - |inner|)))
  {
    var lead := |token| - |inner|;
    assert token[lead..lead + |name|] == inner[..|name|];
  }

  lemma SliceOfSlice(text: string, a: nat, e: nat, lead: nat, name: string)
    requires a <= e <= |text| && lead + |name| <= e - a && text[a..e][lead..lead + |name|] == name
    ensures text[a + lead..a + lead + |name|] == name
  {
    var from := a + lead;
    forall i | 0 <= i < |name| ensures text[from..from + |name|][i] == name[i] {
      assert text[a..e][lead..lead + |name|][i] == text[a..e][lead + i];
    }
  }

  // The mention a token makes.
  function Place(u: Classes, text: string, a: nat, e: nat, named: Option<(Kind, string, nat)>): (m: Option<Mention>)
    requires a <= e <= |text|
    requires Fits(text[a..e], named)
    ensures m.Some? ==> a <= m.value.start < m.value.end <= e && Quotes(text, m.value)
  {
    match named
    case None => None
    case Some((kind, name, lead)) =>
      SliceOfSlice(text, a, e, lead, name);
      Some(Mention(u.lower(name), kind, name, a + lead, a + lead + |name|))
  }

  function MentionAt(u: Classes, text: string, a: nat, e: nat): (m: Option<Mention>)
    requires a <= e <= |text|
    ensures m.Some? ==> a <= m.value.start < m.value.end <= e && Quotes(text, m.value)
  {
    hide Fits, Place, NameIn, Quotes;
    Place(u, text, a, e, NameIn(u, text[a..e]))
  }

  // The mentions of the tokens that start before `i`, in order.
  ghost predicate TechnicalSoFar(u: Classes, text: string, out: seq<Mention>, i: nat) {
    && (forall k :: 0 <= k < |out| ==> FromToken(u, text, out[k]) && out[k].end <= i)
    && (forall a: nat, e: nat :: IsToken(u, text, a, e) && a < i && MentionAt(u, text, a, e).Some? ==>
      MentionAt(u, text, a, e).value in out)
    && Apart(out)
  }

  ghost predicate FromToken(u: Classes, text: string, m: Mention) {
    exists a: nat, e: nat :: IsToken(u, text, a, e) && MentionAt(u, text, a, e) == Some(m)
  }

  ghost predicate Apart(out: seq<Mention>) {
    forall i, j :: 0 <= i < j < |out| ==> out[i].end <= out[j].start
  }

  ghost predicate AreTechnical(u: Classes, text: string, out: seq<Mention>) { TechnicalSoFar(u, text, out, |text|) }

  method TokenEnd(u: Classes, text: string, a: nat) returns (e: nat)
    requires a < |text| && !u.whitespace(text[a]) && (a > 0 ==> u.whitespace(text[a - 1]))
    ensures IsToken(u, text, a, e)
  {
    e := a;
    while e < |text| && !u.whitespace(text[e])
      invariant a <= e <= |text| && (e == a ==> e < |text| && !u.whitespace(text[e]))
      invariant forall i :: a <= i < e ==> !u.whitespace(text[i])
    {
      e := e + 1;
    }
  }

  lemma TokenIsOne(u: Classes, text: string, a: nat, e: nat, b: nat, f: nat)
    requires IsToken(u, text, a, e) && IsToken(u, text, b, f) && a <= b < e
    ensures a == b && e == f
  {
    assert b > 0 ==> u.whitespace(text[b - 1]) || b == 0;
    assert !u.whitespace(text[e - 1]) && !u.whitespace(text[f - 1]);
  }

  lemma Taken(u: Classes, text: string, out: seq<Mention>, a: nat, e: nat, b: nat, f: nat)
    requires TechnicalSoFar(u, text, out, a) && IsToken(u, text, a, e)
    requires IsToken(u, text, b, f) && b < e && MentionAt(u, text, b, f).Some?
    ensures MentionAt(u, text, b, f).value in out || (b == a && f == e)
  {
    hide MentionAt, FromToken, Apart;
    if a <= b {
      TokenIsOne(u, text, a, e, b, f);
    }
  }

  lemma TakeToken(u: Classes, text: string, out: seq<Mention>, a: nat, e: nat)
    requires TechnicalSoFar(u, text, out, a) && IsToken(u, text, a, e)
    ensures var found := MentionAt(u, text, a, e);
      TechnicalSoFar(u, text, if found.Some? then out + [found.value] else out, e)
  {
    hide MentionAt, Quotes, FromToken, Apart;
    var found := MentionAt(u, text, a, e);
    var more := if found.Some? then out + [found.value] else out;
    if found.Some? {
      FoundIn(u, text, a, e, found.value);
      LaterApart(out, found.value, a);
    }
    forall b: nat, f: nat | IsToken(u, text, b, f) && b < e && MentionAt(u, text, b, f).Some?
      ensures MentionAt(u, text, b, f).value in more
    {
      Taken(u, text, out, a, e, b, f);
      Among(out, more, MentionAt(u, text, b, f).value);
    }
  }

  lemma FoundIn(u: Classes, text: string, a: nat, e: nat, m: Mention)
    requires IsToken(u, text, a, e) && MentionAt(u, text, a, e) == Some(m)
    ensures FromToken(u, text, m) && a <= m.start && m.end <= e
  {
    hide MentionAt, Quotes;
  }

  lemma LaterApart(out: seq<Mention>, m: Mention, a: nat)
    requires Apart(out) && a <= m.start && forall k :: 0 <= k < |out| ==> out[k].end <= a
    ensures Apart(out + [m])
  {
  }

  lemma Among(out: seq<Mention>, more: seq<Mention>, m: Mention)
    requires out <= more && (m in out || (|more| > |out| && more[|out|] == m))
    ensures m in more
  {
  }

  lemma SkipSpace(u: Classes, text: string, out: seq<Mention>, i: nat)
    requires TechnicalSoFar(u, text, out, i) && i < |text| && u.whitespace(text[i])
    ensures TechnicalSoFar(u, text, out, i + 1)
  {
    hide MentionAt;
  }

  method Technical(u: Classes, text: string) returns (out: seq<Mention>)
    ensures AreTechnical(u, text, out)
  {
    hide MentionAt, TechnicalSoFar;
    out := [];
    var offset := 0;
    NoTokens(u, text);
    while offset < |text|
      invariant offset <= |text|
      invariant offset < |text| && !u.whitespace(text[offset]) ==> offset == 0 || u.whitespace(text[offset - 1])
      invariant TechnicalSoFar(u, text, out, offset)
    {
      if u.whitespace(text[offset]) {
        SkipSpace(u, text, out, offset);
        offset := offset + 1;
      } else {
        var e := TokenEnd(u, text, offset);
        TakeToken(u, text, out, offset, e);
        var found := MentionAt(u, text, offset, e);
        if found.Some? {
          out := out + [found.value];
        }
        offset := e;
      }
    }
  }

  lemma NoTokens(u: Classes, text: string)
    ensures TechnicalSoFar(u, text, [], 0)
  {
  }
}
