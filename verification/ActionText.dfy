/**
 Text on its way in and out of the sequence (dmn/protocol.py:36-58, 195-204): the whitespace repair
 of action objects, and the delimiter escaping of event records.
 */
module ActionText {

  /** One lexical element of a JSON text: structure, a quote, a plain or a backslash-escaped string character. */
  datatype Lexeme = Out(c: char) | Quote | Lit(c: char) | Esc(c: char)

  function Lex(t: string, quoted: bool): seq<Lexeme> {
    if t == "" then []
    else if t[0] == '"' then [Quote] + Lex(t[1..], !quoted)
    else if !quoted then [Out(t[0])] + Lex(t[1..], false)
    else if t[0] == '\\' && |t| > 1 then [Esc(t[1])] + Lex(t[2..], true)
    else [Lit(t[0])] + Lex(t[1..], true)
  }

  function Spelling(x: Lexeme): string {
    match x
    case Out(c) => [c]
    case Quote => "\""
    case Lit(c) => [c]
    case Esc(c) => ['\\', c]
  }

  function Spell(xs: seq<Lexeme>): string {
    if xs == [] then "" else Spelling(xs[0]) + Spell(xs[1..])
  }

  /** Lexing loses nothing. */
  lemma {:induction false} SpellLex(t: string, quoted: bool)
    ensures Spell(Lex(t, quoted)) == t
    decreases |t|
  {
    if t != "" {
      var k := if t[0] != '"' && quoted && t[0] == '\\' && |t| > 1 then 2 else 1;
      var inside := if t[0] == '"' then !quoted else quoted;
      SpellLex(t[k..], inside);
      assert Lex(t, quoted)[1..] == Lex(t[k..], inside);
      assert t == t[..k] + t[k..];
    }
  }

  predicate Whitespace(c: char) {
    c == '\n' || c == '\r' || c == '\t'
  }

  function Letter(c: char): char {
    if c == '\n' then 'n' else if c == '\r' then 'r' else 't'
  }

  /** The repair as the loop performs it, from a position with the given flags. */
  function RepairFrom(t: string, quoted: bool, escaped: bool): string {
    if t == "" then ""
    else if quoted && !escaped && Whitespace(t[0]) then ['\\', Letter(t[0])] + RepairFrom(t[1..], quoted, escaped)
    else
      var nextEscaped := !escaped && quoted && t[0] == '\\';
      var nextQuoted := if !escaped && !nextEscaped && t[0] == '"' then !quoted else quoted;
      [t[0]] + RepairFrom(t[1..], nextQuoted, nextEscaped)
  }

  method Repair(text: string) returns (result: string)
    ensures result == RepairFrom(text, false, false)
  {
    result := "";
    var quoted, escaped := false, false;
    assert text[0..] == text;
    for i := 0 to |text|
      invariant result + RepairFrom(text[i..], quoted, escaped) == RepairFrom(text, false, false)
    {
      var c := text[i];
      RepairUnfold(text, i, quoted, escaped, result);
      if quoted && !escaped && Whitespace(c) {
        result := result + ['\\', Letter(c)];
      } else {
        result := result + [c];
        if escaped {
          escaped := false;
        } else if quoted && c == '\\' {
          escaped := true;
        } else if c == '"' {
          quoted := !quoted;
        }
      }
    }
  }

  lemma RepairUnfold(t: string, i: nat, quoted: bool, escaped: bool, before: string)
    requires i < |t|
    ensures var c := t[i];
      before + RepairFrom(t[i..], quoted, escaped) ==
      if quoted && !escaped && Whitespace(c) then (before + ['\\', Letter(c)]) + RepairFrom(t[i + 1..], quoted, escaped)
      else if escaped then (before + [c]) + RepairFrom(t[i + 1..], quoted, false)
      else if quoted && c == '\\' then (before + [c]) + RepairFrom(t[i + 1..], quoted, true)
      else if c == '"' then (before + [c]) + RepairFrom(t[i + 1..], !quoted, false)
      else (before + [c]) + RepairFrom(t[i + 1..], quoted, false)
  {
    assert t[i..][1..] == t[i + 1..] && t[i..][0] == t[i];
  }

  /** Literal whitespace inside a string becomes the escape that denotes it; nothing else changes. */
  function Fixed(x: Lexeme): Lexeme {
    if x.Lit? && Whitespace(x.c) then Esc(Letter(x.c)) else x
  }

  function FixAll(xs: seq<Lexeme>): seq<Lexeme> {
    if xs == [] then [] else [Fixed(xs[0])] + FixAll(xs[1..])
  }

  /** The repaired text reads as the original with exactly the literal whitespace of its strings escaped. */
  lemma {:induction false} RepairReads(t: string, quoted: bool)
    ensures Lex(RepairFrom(t, quoted, false), quoted) == FixAll(Lex(t, quoted))
    decreases |t|
  {
    if t == "" {
    } else if quoted && Whitespace(t[0]) {
      RepairReads(t[1..], quoted);
      var rest := RepairFrom(t[1..], quoted, false);
      assert RepairFrom(t, quoted, false)[2..] == rest;
      assert Lex(t, quoted) == [Lit(t[0])] + Lex(t[1..], true);
    } else if quoted && t[0] == '\\' && |t| > 1 {
      RepairReads(t[2..], quoted);
      var rest := RepairFrom(t[2..], quoted, false);
      assert t[1..][1..] == t[2..] && t[1..][0] == t[1];
      assert RepairFrom(t, quoted, false) == ['\\'] + RepairFrom(t[1..], true, true);
      assert RepairFrom(t[1..], true, true) == [t[1]] + rest;
      assert RepairFrom(t, quoted, false) == ['\\', t[1]] + rest;
      assert Lex(t, quoted) == [Esc(t[1])] + Lex(t[2..], true);
      assert RepairFrom(t, quoted, false)[2..] == rest;
    } else if quoted && t[0] == '\\' {
      assert t[1..] == "";
      assert RepairFrom(t, quoted, false) == t;
      assert Lex(t, quoted) == [Lit('\\')];
    } else {
      var inside := if t[0] == '"' then !quoted else quoted;
      RepairReads(t[1..], inside);
      assert RepairFrom(t, quoted, false)[1..] == RepairFrom(t[1..], inside, false);
      var first := if t[0] == '"' then Quote else if quoted then Lit(t[0]) else Out(t[0]);
      assert Lex(t, quoted) == [first] + Lex(t[1..], inside);
    }
  }

  lemma {:induction false} FixAllClean(xs: seq<Lexeme>)
    ensures FixAll(FixAll(xs)) == FixAll(xs)
    ensures FixAll(xs) == xs <==> forall i :: 0 <= i < |xs| ==> Fixed(xs[i]) == xs[i]
  {
    if xs != [] {
      FixAllClean(xs[1..]);
      assert FixAll(xs)[1..] == FixAll(xs[1..]);
      assert forall i :: 0 < i < |xs| ==> xs[i] == xs[1..][i - 1];
    }
  }

  /** Repairing twice changes nothing more, and a text is left alone exactly when its strings hold no literal whitespace. */
  lemma RepairIsExact(t: string)
    ensures RepairFrom(RepairFrom(t, false, false), false, false) == RepairFrom(t, false, false)
    ensures RepairFrom(t, false, false) == t <==>
      forall i :: 0 <= i < |Lex(t, false)| ==> !(Lex(t, false)[i].Lit? && Whitespace(Lex(t, false)[i].c))
  {
    var once := RepairFrom(t, false, false);
    RepairReads(t, false);
    RepairReads(once, false);
    FixAllClean(Lex(t, false));
    SpellLex(t, false);
    SpellLex(once, false);
    SpellLex(RepairFrom(once, false, false), false);
    assert forall i :: 0 <= i < |Lex(t, false)| ==>
      (Fixed(Lex(t, false)[i]) == Lex(t, false)[i] <==> !(Lex(t, false)[i].Lit? && Whitespace(Lex(t, false)[i].c)));
  }

  /*------------------------------------------------------------------ event records */

  predicate Delimiter(c: char) {
    c == '<' || c == '>' || c == '&'
  }

  function Code(c: char): string {
    if c == '<' then "\\u003c" else if c == '>' then "\\u003e" else "\\u0026"
  }

  /** The three replacements; none of them produces a character that a later one replaces. */
  function Escape(t: string): string {
    if t == "" then "" else (if Delimiter(t[0]) then Code(t[0]) else [t[0]]) + Escape(t[1..])
  }

  function Replace(t: string, c: char, code: string): string {
    if t == "" then "" else (if t[0] == c then code else [t[0]]) + Replace(t[1..], c, code)
  }

  function ReplaceInTurn(t: string): string {
    Replace(Replace(Replace(t, '<', Code('<')), '>', Code('>')), '&', Code('&'))
  }

  lemma Assoc(a: string, b: string, c: string)
    ensures a + (b + c) == (a + b) + c
  {
  }

  lemma {:induction false} ReplaceAppend(a: string, b: string, c: char, code: string)
    ensures Replace(a + b, c, code) == Replace(a, c, code) + Replace(b, c, code)
  {
    if a == "" {
      assert a + b == b;
    } else {
      ReplaceAppend(a[1..], b, c, code);
      assert (a + b)[1..] == a[1..] + b;
      var head := if a[0] == c then code else [a[0]];
      assert Replace(a + b, c, code) == head + Replace(a[1..] + b, c, code);
      Assoc(head, Replace(a[1..], c, code), Replace(b, c, code));
    }
  }

  lemma {:induction false} ReplaceAbsent(t: string, c: char, code: string)
    requires c !in t
    ensures Replace(t, c, code) == t
  {
    if t != "" { ReplaceAbsent(t[1..], c, code); }
  }

  /** Three passes over the whole text are one pass. */
  lemma {:induction false} EscapeIsOnePass(t: string)
    ensures ReplaceInTurn(t) == Escape(t)
  {
    if t != "" {
      EscapeIsOnePass(t[1..]);
      var head := [t[0]];
      assert t == head + t[1..];
      ReplaceAppend(head, t[1..], '<', Code('<'));
      var h1, t1 := Replace(head, '<', Code('<')), Replace(t[1..], '<', Code('<'));
      ReplaceAppend(h1, t1, '>', Code('>'));
      var h2, t2 := Replace(h1, '>', Code('>')), Replace(t1, '>', Code('>'));
      ReplaceAppend(h2, t2, '&', Code('&'));
      HeadInTurn(t[0]);
    }
  }

  lemma ReplaceOne(c: char, d: char, code: string)
    ensures Replace([c], d, code) == if c == d then code else [c]
  {
    assert [c][1..] == "";
  }

  lemma HeadInTurn(c: char)
    ensures ReplaceInTurn([c]) == if Delimiter(c) then Code(c) else [c]
  {
    ReplaceOne(c, '<', Code('<'));
    ReplaceOne(c, '>', Code('>'));
    ReplaceOne(c, '&', Code('&'));
    CodesStay();
  }

  lemma CodesStay()
    ensures Replace(Code('<'), '>', Code('>')) == Code('<')
    ensures Replace(Code('<'), '&', Code('&')) == Code('<')
    ensures Replace(Code('>'), '&', Code('&')) == Code('>')
  {
    hide Replace;
    CodeIsPlain('<');
    CodeIsPlain('>');
    ReplaceAbsent(Code('<'), '>', Code('>'));
    ReplaceAbsent(Code('<'), '&', Code('&'));
    ReplaceAbsent(Code('>'), '&', Code('&'));
  }

  lemma CodeIsPlain(c: char)
    ensures '<' !in Code(c) && '>' !in Code(c) && '&' !in Code(c)
  {
  }

  lemma {:induction false} EscapeHasNoDelimiter(t: string)
    ensures forall i :: 0 <= i < |Escape(t)| ==> !Delimiter(Escape(t)[i])
  {
    if t != "" { EscapeHasNoDelimiter(t[1..]); }
  }

  predicate Hex(c: char) {
    '0' <= c <= '9' || 'a' <= c <= 'f'
  }

  /** What the serializer writes: delimiters only inside strings, every escape complete. */
  predicate JsonText(t: string, quoted: bool) {
    if t == "" then true
    else if t[0] == '"' then JsonText(t[1..], !quoted)
    else if !quoted then !Delimiter(t[0]) && JsonText(t[1..], false)
    else if t[0] != '\\' then JsonText(t[1..], true)
    else if |t| >= 6 && t[1] == 'u' then Hex(t[2]) && Hex(t[3]) && Hex(t[4]) && Hex(t[5]) && JsonText(t[6..], true)
    else |t| >= 2 && !Delimiter(t[1]) && t[1] != 'u' && JsonText(t[2..], true)
  }

  /** The characters a JSON reader finds: as `Lex`, with the codes of the three delimiters read as those characters. */
  function Read(t: string, quoted: bool): seq<Lexeme> {
    if t == "" then []
    else if t[0] == '"' then [Quote] + Read(t[1..], !quoted)
    else if !quoted then [Out(t[0])] + Read(t[1..], false)
    else if t[0] != '\\' || |t| < 2 then [Lit(t[0])] + Read(t[1..], true)
    else if Code('<') <= t then [Lit('<')] + Read(t[6..], true)
    else if Code('>') <= t then [Lit('>')] + Read(t[6..], true)
    else if Code('&') <= t then [Lit('&')] + Read(t[6..], true)
    else [Esc(t[1])] + Read(t[2..], true)
  }

  lemma EscapeStep(t: string)
    requires t != ""
    ensures !Delimiter(t[0]) ==> Escape(t) == [t[0]] + Escape(t[1..]) && Escape(t)[1..] == Escape(t[1..])
    ensures Delimiter(t[0]) ==> Escape(t) == Code(t[0]) + Escape(t[1..]) && Escape(t)[6..] == Escape(t[1..])
  {
  }

  /** An escape sequence passes through unchanged. */
  lemma {:induction false} EscapePlain(t: string, k: nat)
    requires k <= |t| && forall i :: 0 <= i < k ==> !Delimiter(t[i])
    ensures Escape(t) == t[..k] + Escape(t[k..]) && Escape(t)[..k] == t[..k] && Escape(t)[k..] == Escape(t[k..])
    decreases k
  {
    hide Escape;
    if k > 0 {
      EscapeStep(t);
      EscapePlain(t[1..], k - 1);
      TakeFirst(t, k);
      assert Escape(t) == t[..k] + Escape(t[k..]);
    } else {
      assert t[0..] == t && t[..0] + Escape(t) == Escape(t);
    }
    Halves(t[..k], Escape(t[k..]));
  }

  lemma TakeFirst(t: string, k: nat)
    requires 0 < k <= |t|
    ensures t[..k] == [t[0]] + t[1..][..k - 1] && t[1..][k - 1..] == t[k..]
  {
  }

  lemma Halves(a: string, b: string)
    ensures (a + b)[..|a|] == a && (a + b)[|a|..] == b
  {
  }

  lemma ReadEscape(t: string, k: nat)
    requires 2 <= k <= |t| && t[0] == '\\' && (k == 6 || (k == 2 && t[1] != 'u'))
    requires forall i :: 0 <= i < k ==> !Delimiter(t[i])
    requires k == 6 ==> t[1] == 'u' && forall i :: 2 <= i < 6 ==> Hex(t[i])
    requires Read(Escape(t[k..]), true) == Read(t[k..], true)
    ensures Read(Escape(t), true) == Read(t, true)
  {
    EscapePlain(t, k);
    if k == 6 {
      ReadSix(Escape(t), t);
    } else {
      ReadTwo(Escape(t), t);
    }
  }

  lemma ReadTwo(e: string, t: string)
    requires |t| >= 2 && |e| >= 2 && e[..2] == t[..2] && t[0] == '\\' && t[1] != 'u'
    requires Read(e[2..], true) == Read(t[2..], true)
    ensures Read(e, true) == Read(t, true)
  {
    assert e[0] == e[..2][0] == t[0] && e[1] == e[..2][1] == t[1];
    assert Code('<')[1] == Code('>')[1] == Code('&')[1] == 'u';
  }

  lemma ReadSix(e: string, t: string)
    requires |t| >= 6 && |e| >= 6 && e[..6] == t[..6] && t[0] == '\\' && t[1] == 'u'
    requires forall i :: 2 <= i < 6 ==> Hex(t[i])
    requires Read(e[6..], true) == Read(t[6..], true)
    ensures Read(e, true) == Read(t, true)
  {
    hide Hex, Delimiter;
    assert e[0] == e[..6][0] == t[0] && e[1] == e[..6][1] == t[1];
    PrefixSix(e, Code('<'));
    PrefixSix(t, Code('<'));
    PrefixSix(e, Code('>'));
    PrefixSix(t, Code('>'));
    PrefixSix(e, Code('&'));
    PrefixSix(t, Code('&'));
    ReadHex(e, t);
  }

  lemma PrefixSix(t: string, code: string)
    requires |t| >= 6 && |code| == 6
    ensures code <= t <==> t[..6] == code
  {
  }

  lemma ReadHex(e: string, t: string)
    requires |t| >= 6 && |e| >= 6 && e[..6] == t[..6] && t[0] == '\\' && t[1] == 'u'
    requires forall i :: 2 <= i < 6 ==> Hex(t[i])
    requires Read(e[6..], true) == Read(t[6..], true)
    ensures Read(e[2..], true) == Read(t[2..], true)
  {
    assert forall i :: 0 <= i < 6 ==> e[i] == e[..6][i] == t[i];
    ReadPlain(e, t, 5);
    ReadPlain(e, t, 4);
    ReadPlain(e, t, 3);
    ReadPlain(e, t, 2);
  }

  lemma ReadPlain(e: string, t: string, i: nat)
    requires |t| > i && |e| > i && e[i] == t[i] && Hex(t[i])
    requires Read(e[i + 1..], true) == Read(t[i + 1..], true)
    ensures Read(e[i..], true) == Read(t[i..], true)
  {
    assert e[i..][1..] == e[i + 1..] && t[i..][1..] == t[i + 1..];
  }

  /** Escaping the delimiters of a JSON text leaves what a reader finds unchanged. */
  lemma {:induction false} EscapeKeepsMeaning(t: string, quoted: bool)
    requires JsonText(t, quoted)
    ensures Read(Escape(t), quoted) == Read(t, quoted)
    decreases |t|
  {
    if t != "" {
      EscapeStep(t);
      if t[0] == '"' {
        EscapeKeepsMeaning(t[1..], !quoted);
      } else if !quoted || (t[0] != '\\' && !Delimiter(t[0])) {
        EscapeKeepsMeaning(t[1..], quoted);
      } else if Delimiter(t[0]) {
        EscapeKeepsMeaning(t[1..], true);
        ReadCode(t[0], Escape(t[1..]));
      } else {
        var k := if t[1] == 'u' then 6 else 2;
        EscapeKeepsMeaning(t[k..], true);
        assert forall i :: 0 <= i < k ==> !Delimiter(t[i]);
        ReadEscape(t, k);
      }
    }
  }

  lemma ReadCode(c: char, rest: string)
    requires Delimiter(c)
    ensures Read(Code(c) + rest, true) == [Lit(c)] + Read(rest, true)
  {
    var t := Code(c) + rest;
    assert t[..6] == Code(c) && t[6..] == rest;
    assert t[5] == Code(c)[5];
    assert Code('<') <= t <==> t[..6] == Code('<');
    assert Code('>') <= t <==> t[..6] == Code('>');
  }

  const OPEN := "<external_event>"
  const CLOSE := "</external_event>"

  const REOPENED := "<internal_cognition>\n"
  const SUSPENDED := "\n</internal_cognition>"

  function Record(e: string): string {
    "\n" + OPEN + e + CLOSE + "\n"
  }

  function EventText(json: string, resume: bool): string {
    var event := Record(Escape(json));
    if resume then SUSPENDED + event + REOPENED else event
  }

  /** Where an event's own tags begin; the third of the marked format, or the second, is the record's end. */
  function TagsAt(n: nat, resume: bool): seq<nat> {
    if resume then [1, 23, 39 + n, 57 + n] else [1, 17 + n]
  }

  /** Position `p` is the only one at which a tag begins. */
  ghost predicate OnlyAt(s: string, p: nat) {
    forall k :: 0 <= k < |s| ==> (s[k] == '<' <==> k == p)
  }

  /** A text in which no tag is followed by a `d`, and `p` is the only place of a closing tag that begins with an `e`. */
  ghost predicate ClosesAt(s: string, i: nat, p: nat)
    requires i < |s|
  {
    && (s[i] == '<' ==> i + 2 < |s| && s[i + 1] != 'd')
    && (s[i] == '<' && s[i + 1] == '/' && s[i + 2] == 'e' <==> i == p)
  }

  lemma Between(a: string, m: string, b: string, i: nat)
    requires i < |a + m + b|
    ensures (a + m + b)[i] == if i < |a| then a[i] else if i < |a| + |m| then m[i - |a|] else b[i - |a| - |m|]
  {
  }

  lemma Brackets(a: string, m: string, b: string)
    requires a == "\n" + OPEN && b == CLOSE + "\n"
    ensures |a| == 17 && OnlyAt(a, 1) && a[2] == 'e' && |b| == 18 && OnlyAt(b, 0) && b[1] == '/' && b[2] == 'e'
    ensures Record(m) == a + m + b
  {
  }

  lemma Marks(a: string, b: string)
    requires a == SUSPENDED && b == REOPENED
    ensures |a| == 22 && OnlyAt(a, 1) && a[2] == '/' && a[3] == 'i' && |b| == 21 && OnlyAt(b, 0) && b[1] == 'i'
  {
  }

  lemma BracketedTags(a: string, e: string, b: string, i: nat)
    requires |a| == 17 && OnlyAt(a, 1) && a[2] == 'e' && |b| == 18 && OnlyAt(b, 0) && b[1] == '/' && b[2] == 'e'
    requires i < |a + e + b| && forall j :: 0 <= j < |e| ==> e[j] != '<'
    ensures (a + e + b)[i] == '<' <==> i == 1 || i == 17 + |e|
    ensures ClosesAt(a + e + b, i, 17 + |e|)
  {
    var text, n := a + e + b, 17 + |e|;
    Between(a, e, b, i);
    Between(a, e, b, 2);
    Between(a, e, b, n);
    Between(a, e, b, n + 1);
    Between(a, e, b, n + 2);
  }

  lemma RecordTags(e: string, i: nat)
    requires i < |Record(e)| && forall j :: 0 <= j < |e| ==> e[j] != '<'
    ensures |Record(e)| == 35 + |e|
    ensures Record(e)[i] == '<' <==> i == 1 || i == 17 + |e|
    ensures ClosesAt(Record(e), i, 17 + |e|)
  {
    var a, b := "\n" + OPEN, CLOSE + "\n";
    Brackets(a, e, b);
    hide Record, ClosesAt, OnlyAt;
    BracketedTags(a, e, b, i);
  }

  lemma MarkedTags(a: string, event: string, b: string, i: nat, n: nat)
    requires |a| == 22 && OnlyAt(a, 1) && a[2] == '/' && a[3] == 'i' && |b| == 21 && OnlyAt(b, 0) && b[1] == 'i'
    requires i < |a + event + b| && |event| == 18 + n
    requires 22 <= i < 22 + |event| ==> (event[i - 22] == '<' <==> i == 23 || i == 22 + n) && ClosesAt(event, i - 22, n)
    requires 17 <= n && event[n] == '<'
    ensures (a + event + b)[i] == '<' <==> i == 1 || i == 23 || i == 22 + n || i == 40 + n
    ensures ClosesAt(a + event + b, i, 22 + n)
  {
    var text := a + event + b;
    Between(a, event, b, i);
    if i < 22 {
      Between(a, event, b, 2);
      Between(a, event, b, 3);
    } else if i < 22 + |event| {
      if event[i - 22] == '<' {
        Between(a, event, b, i + 1);
        Between(a, event, b, i + 2);
      }
    } else {
      Between(a, event, b, 40 + n + 1);
    }
  }

  lemma MarkedOwnTags(e: string, i: nat)
    requires i < |SUSPENDED + Record(e) + REOPENED| && forall j :: 0 <= j < |e| ==> e[j] != '<'
    ensures var text := SUSPENDED + Record(e) + REOPENED;
      && (text[i] == '<' <==> i == 1 || i == 23 || i == 39 + |e| || i == 57 + |e|)
      && ClosesAt(text, i, 39 + |e|)
  {
    var a, b, event := SUSPENDED, REOPENED, Record(e);
    Marks(a, b);
    RecordTags(e, 1);
    RecordTags(e, 17 + |e|);
    if 22 <= i < 22 + |event| { RecordTags(e, i - 22); }
    hide Record, ClosesAt, OnlyAt;
    MarkedTags(a, event, b, i, 17 + |e|);
  }

  /**
   In either format every tag of an event is one of its own: its text can neither end the record nor open an
   action frame, whose tag begins with a `d`.
   */
  lemma OnlyOwnTags(json: string, resume: bool, i: nat)
    requires i < |EventText(json, resume)|
    ensures var text, tags := EventText(json, resume), TagsAt(|Escape(json)|, resume);
      && (text[i] == '<' <==> i in tags)
      && ClosesAt(text, i, tags[if resume then 2 else 1])
  {
    var e := Escape(json);
    EscapeHasNoDelimiter(json);
    forall j | 0 <= j < |e| ensures e[j] != '<' { assert !Delimiter(e[j]); }
    hide Escape, Record, ClosesAt;
    if resume {
      MarkedOwnTags(e, i);
    } else {
      RecordTags(e, i);
    }
  }

  /** The payload's place: between the record's opening tag and its closing one. */
  function PayloadAt(resume: bool): nat {
    if resume then 39 else 17
  }

  lemma RecordHolds(e: string)
    ensures |Record(e)| == 35 + |e| && Record(e)[17..17 + |e|] == e
    ensures Record(e)[1..17] == OPEN && Record(e)[17 + |e|..34 + |e|] == CLOSE
  {
    var a, b := "\n" + OPEN, CLOSE + "\n";
    assert Record(e) == a + e + b && |a| == 17 && |b| == 18;
    assert a[1..17] == OPEN && b[..17] == CLOSE;
    InMiddle(a, e, b);
  }

  lemma InMiddle(a: string, m: string, b: string)
    ensures (a + m + b)[..|a|] == a && (a + m + b)[|a|..|a| + |m|] == m && (a + m + b)[|a| + |m|..] == b
  {
  }

  /**
   An event carries its payload: in either format the record's tags stand where they are said to, and a reader of
   what is between them finds what the JSON text said. The marked format closes the thought before it and opens the next.
   */
  lemma PayloadIsReadBack(json: string, resume: bool)
    requires JsonText(json, false)
    ensures var text, at, n := EventText(json, resume), PayloadAt(resume), |Escape(json)|;
      && |text| == (if resume then 78 else 35) + n
      && text[at - 16..at] == OPEN && text[at + n..at + n + 17] == CLOSE
      && Read(text[at..at + n], false) == Read(json, false)
      && (resume ==> text[..22] == SUSPENDED && text[|text| - 21..] == REOPENED)
  {
    var e := Escape(json);
    var n := |e|;
    EscapeKeepsMeaning(json, false);
    RecordHolds(e);
    hide Escape, Read, JsonText, Record;
    if resume { MarkedParts(SUSPENDED, Record(e), REOPENED, n); }
  }

  lemma MarkedParts(a: string, event: string, b: string, n: nat)
    requires |a| == 22 && |event| == 35 + n && |b| == 21
    ensures var text := a + event + b;
      && |text| == 78 + n && text[23..39] == event[1..17] && text[39..39 + n] == event[17..17 + n]
      && text[39 + n..56 + n] == event[17 + n..34 + n] && text[..22] == a && text[|text| - 21..] == b
  {
    InMiddle(a, event, b);
    var text := a + event + b;
    SliceOfSlice(text, event, 22, 1, 17);
    SliceOfSlice(text, event, 22, 17, 17 + n);
    SliceOfSlice(text, event, 22, 17 + n, 34 + n);
  }

  lemma SliceOfSlice(text: string, part: string, at: nat, low: nat, high: nat)
    requires low <= high <= |part| && at + |part| <= |text| && text[at..at + |part|] == part
    ensures text[at + low..at + high] == part[low..high]
  {
    forall i | low <= i < high ensures text[at + i] == part[i] {
      assert text[at..at + |part|][i] == text[at + i];
    }
    var a, b := text[at + low..at + high], part[low..high];
    forall k | 0 <= k < |a| ensures a[k] == b[k] {
      assert text[at + (low + k)] == part[low + k];
    }
    assert a == b;
  }
}
