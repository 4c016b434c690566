/**
 The grammar of log patterns, primo/log/Logger.cpp 479-560, as a recursive
 tokeniser on the remaining text, with printing as its inverse.
 */
module Pattern {
  import opened Wrappers
  import opened Sequences

  /** isalpha, on ASCII. */
  predicate IsAlpha(c: char) {
    'a' <= c <= 'z' || 'A' <= c <= 'Z'
  }

  /** The scanner lets a closing brace be part of a directive's name. */
  predicate NameChar(c: char) {
    IsAlpha(c) || c == '}'
  }

  /** A literal, or %name with an optional {group}. */
  datatype Token = Literal(text: string) | Directive(name: string, group: Option<string>)

  datatype Parse = Parse(tokens: seq<Token>, error: bool)

  const PATTERN_ERROR := "<<pattern_error>>"

  function NameLen(p: string): (k: nat)
    ensures k <= |p|
    ensures forall j | 0 <= j < k :: NameChar(p[j])
    ensures k < |p| ==> !NameChar(p[k])
  {
    if p == "" || !NameChar(p[0]) then 0 else 1 + NameLen(p[1..])
  }

  /** The index of the first closing brace; the length of the text when there is none. */
  function Closing(p: string): (k: nat)
    ensures k <= |p|
    ensures forall j | 0 <= j < k :: p[j] != '}'
    ensures k < |p| ==> p[k] == '}'
  {
    if p == "" || p[0] == '}' then 0 else 1 + Closing(p[1..])
  }

  /**
   The directive whose percent sign stands before the text, and its length with
   that sign; nothing when its brace is unclosed.
   */
  function DirectiveAfter(q: string): (r: Option<(Token, nat)>)
    ensures r.Some? ==> 0 < r.value.1 <= 1 + |q| && r.value.0.Directive?
  {
    var k := NameLen(q);
    if k < |q| && q[k] == '{' then
      var r := q[k + 1..];
      var j := Closing(r);
      if j == |r| then None else Some((Directive(q[..k], Some(r[..j])), 3 + k + j))
    else Some((Directive(q[..k], None), 1 + k))
  }

  lemma GroupFound(q: string, name: string, r: string, g: string)
    requires NameLen(q) == |name| < |q| && q[..|name|] == name && q[|name|] == '{' && q[|name| + 1..] == r
    requires Closing(r) == |g| < |r| && r[..|g|] == g
    ensures DirectiveAfter(q) == Some((Directive(name, Some(g)), 3 + |name| + |g|))
  {
  }

  /** Which characters extend a name, by their ASCII codes: the letters, and the closing brace. */
  lemma NameCharIff(c: char)
    ensures NameChar(c) <==> 65 <= c as int <= 90 || 97 <= c as int <= 122 || c as int == 125
  {
  }

  function Flush(lit: string): seq<Token> {
    if lit == "" then [] else [Literal(lit)]
  }

  /** A percent sign followed by another is literal text; the second one is looked at again. */
  predicate Plain(p: string)
    requires p != ""
  {
    p[0] != '%' || (|p| > 1 && p[1] == '%')
  }

  /** The tokens of text p, given literal text lit that is still pending. */
  function Tokenise(p: string, lit: string): Parse
    decreases |p|
  {
    if p == "" then Parse(Flush(lit), false)
    else if Plain(p) then Tokenise(p[1..], lit + [p[0]])
    else
      match DirectiveAfter(p[1..])
      case None => Parse([Literal(PATTERN_ERROR)] + Tokenise(p[1..], lit).tokens, true)
      case Some((t, n)) =>
        var r := Tokenise(p[n..], "");
        Parse(Flush(lit) + [t] + r.tokens, r.error)
  }

  function PrintToken(t: Token): string {
    match t
    case Literal(text) => text
    case Directive(name, group) => "%" + Body(name, group)
  }

  function Body(name: string, group: Option<string>): string {
    if group.None? then name else name + ("{" + (group.value + "}"))
  }

  function Print(ts: seq<Token>): string {
    if ts == [] then "" else PrintToken(ts[0]) + Print(ts[1..])
  }

  lemma PrintCons(t: Token, ts: seq<Token>)
    ensures Print([t] + ts) == PrintToken(t) + Print(ts)
  {
    assert ([t] + ts)[1..] == ts;
  }

  lemma {:induction false} PrintConcat(a: seq<Token>, b: seq<Token>)
    ensures Print(a + b) == Print(a) + Print(b)
  {
    if a == [] {
      assert a + b == b;
    } else {
      var t, r := a[0], a[1..];
      Uncons(a);
      Assoc([t], r, b);
      PrintConcat(r, b);
      PrintCons(t, r + b);
      Assoc(PrintToken(t), Print(r), Print(b));
    }
  }

  lemma TokeniseDirective(p: string, lit: string, t: Token, n: nat, q: string, rest: string)
    requires p != "" && !Plain(p) && q == p[1..] && DirectiveAfter(q) == Some((t, n)) && rest == p[n..]
    ensures Tokenise(p, lit) == Parse(Flush(lit) + [t] + Tokenise(rest, "").tokens, Tokenise(rest, "").error)
  {
  }

  lemma PrintFlush(lit: string)
    ensures Print(Flush(lit)) == lit
  {
    if lit != "" {
      assert [Literal(lit)][1..] == [];
    }
  }

  // ---- Printing after tokenising ----

  lemma BodyScanned(q: string)
    requires DirectiveAfter(q).Some?
    ensures var (t, n) := DirectiveAfter(q).value; Body(t.name, t.group) == q[..n - 1]
  {
    var k := NameLen(q);
    if k < |q| && q[k] == '{' {
      GroupText(q, k, Closing(q[k + 1..]));
    }
  }

  lemma GroupText(q: string, k: nat, j: nat)
    requires k + 1 + j < |q| && q[k] == '{' && q[k + 1 + j] == '}'
    ensures q[..k + 2 + j] == q[..k] + ("{" + (q[k + 1..][..j] + "}"))
  {
  }

  lemma DirectivePrints(p: string)
    requires p != "" && p[0] == '%' && DirectiveAfter(p[1..]).Some?
    ensures var (t, n) := DirectiveAfter(p[1..]).value; PrintToken(t) == p[..n]
  {
    BodyScanned(p[1..]);
    var (t, n) := DirectiveAfter(p[1..]).value;
    assert p[..n] == "%" + p[1..][..n - 1];
  }

  lemma PrintParsed(lit: string, t: Token, r: seq<Token>)
    ensures Print(Flush(lit) + [t] + r) == lit + (PrintToken(t) + Print(r))
  {
    Assoc(Flush(lit), [t], r);
    PrintConcat(Flush(lit), [t] + r);
    PrintFlush(lit);
    PrintCons(t, r);
  }

  /** Every pattern without an unclosed brace is the text of its tokens. */
  lemma {:induction false} PrintOfTokens(p: string, lit: string)
    requires !Tokenise(p, lit).error
    ensures Print(Tokenise(p, lit).tokens) == lit + p
    decreases |p|
  {
    if p == "" {
      PrintFlush(lit);
    } else if Plain(p) {
      PrintOfTokens(p[1..], lit + [p[0]]);
      Assoc(lit, [p[0]], p[1..]);
      assert [p[0]] + p[1..] == p;
    } else {
      var (t, n) := DirectiveAfter(p[1..]).value;
      PrintOfTokens(p[n..], "");
      EmptyLeft(p[n..]);
      DirectivePrints(p);
      Split(p, n);
      PrintParsed(lit, t, Tokenise(p[n..], "").tokens);
    }
  }

  // ---- Canonical token lists ----

  /** Every percent sign in the literal is followed by another, the last one by the next token's. */
  ghost predicate LiteralOk(lit: string, followed: bool) {
    && (lit != "" && lit[|lit| - 1] == '%' ==> followed)
    && (forall i, j | 0 <= i < j < |lit| && j == i + 1 && lit[i] == '%' :: lit[j] == '%')
  }

  /** The text q after a bare directive does not continue it. */
  predicate Ends(name: string, q: string) {
    q == "" || (!NameChar(q[0]) && q[0] != '{' && (name == "" ==> q[0] != '%'))
  }

  ghost predicate DirectiveOk(t: Token, rest: seq<Token>)
    requires t.Directive?
  {
    && (forall c <- t.name :: NameChar(c))
    && match t.group
       case None => Ends(t.name, Print(rest))
       case Some(g) => '}' !in g
  }

  ghost predicate Canonical(ts: seq<Token>) {
    ts == [] ||
    (Canonical(ts[1..]) &&
     match ts[0]
     case Literal(text) =>
       text != "" && LiteralOk(text, |ts| > 1) && (|ts| > 1 ==> ts[1].Directive?)
     case Directive(_, _) => DirectiveOk(ts[0], ts[1..]))
  }

  lemma NameLenIs(p: string, k: nat)
    requires k <= |p| && (forall j | 0 <= j < k :: NameChar(p[j])) && (k < |p| ==> !NameChar(p[k]))
    ensures NameLen(p) == k
  {
  }

  lemma ClosingIs(p: string, k: nat)
    requires k <= |p| && (forall j | 0 <= j < k :: p[j] != '}') && (k < |p| ==> p[k] == '}')
    ensures Closing(p) == k
  {
  }

  lemma NameThen(name: string, rest: string)
    requires (forall c <- name :: NameChar(c)) && (rest != "" ==> !NameChar(rest[0]))
    ensures NameLen(name + rest) == |name|
    ensures (name + rest)[..|name|] == name && (name + rest)[|name|..] == rest
  {
    NameLenIs(name + rest, |name|);
  }

  lemma GroupThen(g: string, q: string)
    requires '}' !in g
    ensures Closing(g + ("}" + q)) == |g| < |g + ("}" + q)|
    ensures (g + ("}" + q))[..|g|] == g
  {
    ClosingIs(g + ("}" + q), |g|);
  }

  lemma OpenBrace(name: string, r: string)
    requires forall c <- name :: NameChar(c)
    ensures var q := name + ("{" + r);
      NameLen(q) == |name| < |q| && q[..|name|] == name && q[|name|] == '{' && q[|name| + 1..] == r
  {
    NameThen(name, "{" + r);
  }

  lemma Regroup(name: string, g: string, q: string)
    ensures name + ("{" + (g + "}")) + q == name + ("{" + (g + ("}" + q)))
  {
    Assoc(name, "{" + (g + "}"), q);
    Assoc("{", g + "}", q);
    Assoc(g, "}", q);
  }

  lemma BodyFound(name: string, group: Option<string>, q: string)
    requires forall c <- name :: NameChar(c)
    requires if group.None? then Ends(name, q) else '}' !in group.value
    ensures DirectiveAfter(Body(name, group) + q) == Some((Directive(name, group), 1 + |Body(name, group)|))
  {
    match group
    case None => NameThen(name, q);
    case Some(g) =>
      GroupBody(name, g, q);
  }

  lemma GroupBody(name: string, g: string, q: string)
    requires (forall c <- name :: NameChar(c)) && '}' !in g
    ensures var b := name + ("{" + (g + "}")); DirectiveAfter(b + q) == Some((Directive(name, Some(g)), 1 + |b|))
  {
    Regroup(name, g, q);
    GroupAfterName(name, g, q, g + ("}" + q));
    GroupLength(name, g);
  }

  lemma GroupLength(name: string, g: string)
    ensures |name + ("{" + (g + "}"))| == 2 + |name| + |g|
  {
  }

  lemma GroupAfterName(name: string, g: string, q: string, r: string)
    requires (forall c <- name :: NameChar(c)) && '}' !in g && r == g + ("}" + q)
    ensures DirectiveAfter(name + ("{" + r)) == Some((Directive(name, Some(g)), 3 + |name| + |g|))
  {
    OpenBrace(name, r);
    GroupThen(g, q);
    GroupFound(name + ("{" + r), name, r, g);
  }

  lemma BodyStarts(name: string, group: Option<string>, q: string)
    requires forall c <- name :: NameChar(c)
    requires group.None? ==> Ends(name, q)
    ensures var b := Body(name, group) + q; b != "" ==> b[0] != '%'
  {
    if name != "" {
      assert name[0] in name;
    }
  }

  lemma PercentThen(q: string)
    requires q != "" ==> q[0] != '%'
    ensures var p := "%" + q; p[0] == '%' && !Plain(p) && p[1..] == q
  {
  }

  /** A directive's text is found again in front of any text that does not continue it. */
  lemma PrintedToken(t: Token, q: string)
    requires t.Directive? && (forall c <- t.name :: NameChar(c))
    requires if t.group.None? then Ends(t.name, q) else '}' !in t.group.value
    ensures var p := PrintToken(t) + q;
      p[0] == '%' && !Plain(p) && DirectiveAfter(p[1..]) == Some((t, |PrintToken(t)|))
  {
    BodyFound(t.name, t.group, q);
    BodyStarts(t.name, t.group, q);
    PercentThen(Body(t.name, t.group) + q);
    Assoc("%", Body(t.name, t.group), q);
  }

  lemma PrintedDirective(t: Token, rest: seq<Token>)
    requires t.Directive? && DirectiveOk(t, rest)
    ensures var p := PrintToken(t) + Print(rest);
      p[0] == '%' && !Plain(p) && DirectiveAfter(p[1..]) == Some((t, |PrintToken(t)|))
  {
    PrintedToken(t, Print(rest));
  }

  lemma {:induction false} LiteralScans(text: string, q: string, lit: string)
    requires LiteralOk(text, q != "" && q[0] == '%')
    ensures Tokenise(text + q, lit) == Tokenise(q, lit + text)
    decreases |text|
  {
    if text == "" {
      assert text + q == q && lit + text == lit;
    } else {
      var p := text + q;
      assert p[1..] == text[1..] + q;
      assert |text| > 1 ==> p[1] == text[1];
      assert |text| == 1 && q != "" ==> p[1] == q[0];
      assert LiteralOk(text[1..], q != "" && q[0] == '%') by {
        assert forall i | 0 <= i < |text| - 1 :: text[1..][i] == text[i + 1];
      }
      LiteralScans(text[1..], q, lit + [text[0]]);
      assert lit + [text[0]] + text[1..] == lit + text;
    }
  }

  lemma {:induction false} TokensOfPrintFrom(ts: seq<Token>, lit: string)
    requires Canonical(ts) && (lit == "" || ts == [] || ts[0].Directive?)
    ensures Tokenise(Print(ts), lit) == Parse(Flush(lit) + ts, false)
    decreases |ts|
  {
    if ts == [] {
      assert Flush(lit) + ts == Flush(lit);
    } else if ts[0].Literal? {
      TokensOfPrintFrom(ts[1..], ts[0].text);
      LiteralThenRest(ts);
    } else {
      TokensOfPrintFrom(ts[1..], "");
      DirectiveThenRest(ts, lit);
    }
  }

  lemma StartsWithPercent(b: seq<Token>)
    requires Canonical(b) && b != [] && b[0].Directive?
    ensures Print(b) != "" && Print(b)[0] == '%'
  {
    PrintedDirective(b[0], b[1..]);
  }

  lemma LiteralThenRest(ts: seq<Token>)
    requires Canonical(ts) && ts != [] && ts[0].Literal?
    requires Tokenise(Print(ts[1..]), ts[0].text) == Parse(Flush(ts[0].text) + ts[1..], false)
    ensures Tokenise(Print(ts), "") == Parse(Flush("") + ts, false)
  {
    var text, q := ts[0].text, Print(ts[1..]);
    if |ts| > 1 {
      StartsWithPercent(ts[1..]);
    }
    LiteralScans(text, q, "");
    EmptyLeft(text);
    Uncons(ts);
    EmptyLeft(ts);
  }

  lemma DirectiveThenRest(ts: seq<Token>, lit: string)
    requires Canonical(ts) && ts != [] && ts[0].Directive?
    requires Tokenise(Print(ts[1..]), "") == Parse(Flush("") + ts[1..], false)
    ensures Tokenise(Print(ts), lit) == Parse(Flush(lit) + ts, false)
  {
    PrintedDirective(ts[0], ts[1..]);
    EmptyLeft(ts[1..]);
    DirectiveStep(PrintToken(ts[0]), Print(ts[1..]), lit, ts[0]);
    Uncons(ts);
    Assoc(Flush(lit), [ts[0]], ts[1..]);
  }

  lemma DirectiveStep(h: string, q: string, lit: string, t: Token)
    requires h + q != "" && (h + q)[0] == '%' && !Plain(h + q) && DirectiveAfter((h + q)[1..]) == Some((t, |h|))
    ensures Tokenise(h + q, lit) == Parse(Flush(lit) + [t] + Tokenise(q, "").tokens, Tokenise(q, "").error)
  {
    Joined(h, q);
    TokeniseDirective(h + q, lit, t, |h|, (h + q)[1..], q);
  }

  /** Every canonical token list printed tokenises back to itself. */
  lemma TokensOfPrint(ts: seq<Token>)
    requires Canonical(ts)
    ensures Tokenise(Print(ts), "") == Parse(ts, false)
  {
    TokensOfPrintFrom(ts, "");
  }

  lemma CanonicalCons(lit: string, ts: seq<Token>)
    requires Canonical(ts) && LiteralOk(lit, ts != []) && (ts != [] && lit != "" ==> ts[0].Directive?)
    ensures Canonical(Flush(lit) + ts)
  {
    if lit == "" {
      assert Flush(lit) + ts == ts;
    } else {
      assert (Flush(lit) + ts)[1..] == ts;
    }
  }

  lemma {:induction false} TokensCanonicalFrom(p: string, lit: string)
    requires !Tokenise(p, lit).error && LiteralOk(lit, p != "" && p[0] == '%')
    ensures Canonical(Tokenise(p, lit).tokens)
    decreases |p|
  {
    if p == "" {
      CanonicalCons(lit, []);
      assert Flush(lit) + [] == Flush(lit);
    } else if Plain(p) {
      LongerLiteralOk(p, lit);
      TokensCanonicalFrom(p[1..], lit + [p[0]]);
    } else {
      var (t, n) := DirectiveAfter(p[1..]).value;
      TokensCanonicalFrom(p[n..], "");
      ParsedCanonical(p, lit, t, n);
    }
  }

  lemma LongerLiteralOk(p: string, lit: string)
    requires p != "" && Plain(p) && LiteralOk(lit, p[0] == '%')
    ensures LiteralOk(lit + [p[0]], p[1..] != "" && p[1..][0] == '%')
  {
    var l := lit + [p[0]];
    forall i, j | 0 <= i < j < |l| && j == i + 1 && l[i] == '%'
      ensures l[j] == '%'
    {
      assert l[i] == lit[i] && (j < |lit| ==> l[j] == lit[j]);
    }
  }

  lemma ParsedCanonical(p: string, lit: string, t: Token, n: nat)
    requires p != "" && !Plain(p) && DirectiveAfter(p[1..]) == Some((t, n)) && LiteralOk(lit, true)
    requires !Tokenise(p[n..], "").error && Canonical(Tokenise(p[n..], "").tokens)
    ensures Canonical(Flush(lit) + [t] + Tokenise(p[n..], "").tokens)
  {
    var r := Tokenise(p[n..], "").tokens;
    PrintOfTokens(p[n..], "");
    assert "" + p[n..] == p[n..];
    DirectiveIsOk(p, r);
    assert ([t] + r)[1..] == r;
    CanonicalCons(lit, [t] + r);
    assert Flush(lit) + [t] + r == Flush(lit) + ([t] + r);
  }

  lemma DirectiveIsOk(p: string, rest: seq<Token>)
    requires p != "" && p[0] == '%' && !Plain(p) && DirectiveAfter(p[1..]).Some?
    requires Print(rest) == p[DirectiveAfter(p[1..]).value.1..]
    ensures DirectiveOk(DirectiveAfter(p[1..]).value.0, rest)
  {
    var (t, n) := DirectiveAfter(p[1..]).value;
    var k := NameLen(p[1..]);
    assert forall j | 0 <= j < k :: t.name[j] == p[1..][j];
    if t.group.None? && n < |p| {
      assert p[n] == p[1..][k];
    }
  }

  /**
   The two-way inverse: tokenising is a bijection between the patterns in which
   every brace is closed and the canonical token lists, with Print its inverse.
   */
  lemma BracesClosedIffCanonicalText(p: string)
    ensures !Tokenise(p, "").error <==> exists ts :: Canonical(ts) && Print(ts) == p
    ensures !Tokenise(p, "").error ==>
      Canonical(Tokenise(p, "").tokens) && Print(Tokenise(p, "").tokens) == p
  {
    if !Tokenise(p, "").error {
      TokensCanonicalFrom(p, "");
      PrintOfTokens(p, "");
      assert "" + p == p;
    }
    if ts :| Canonical(ts) && Print(ts) == p {
      TokensOfPrint(ts);
    }
  }

  /**
   An unclosed brace drops its percent sign only: the error text comes first, then
   what the rest of the text yields with the literal that was pending.
   */
  lemma UnclosedBrace(name: string, rest: string, lit: string)
    requires (forall c <- name :: NameChar(c)) && '}' !in rest
    ensures var p := name + ("{" + rest);
      Tokenise("%" + p, lit) == Parse([Literal("<<pattern_error>>")] + Tokenise(p, lit).tokens, true)
  {
    OpenBrace(name, rest);
    ClosingIs(rest, |rest|);
    var p := name + ("{" + rest);
    assert p[0] != '%' by {
      if name != "" {
        assert name[0] in name;
      }
    }
    PercentThen(p);
  }
}
