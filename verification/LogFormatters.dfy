/**
 LogFormatter of primo/log/Logger.cpp: the index-jumping scanner of Init, refined
 against the recursive grammar, its cost, and the resolution of directives.  Line
 numbers are those of primo/log/Logger.cpp.
 */
module LogFormatters {
  import opened LogDefines
  import opened Wrappers
  import opened Pattern
  import opened Sequences

  /** An element of Init's vector: (text, "", 0) or (name, format, 1). */
  datatype Piece = Text(text: string) | Field(name: string, format: string)

  function PieceOf(t: Token): Piece {
    match t
    case Literal(text) => Text(text)
    case Directive(name, group) => Field(name, if group.Some? then group.value else "")
  }

  function Pieces(ts: seq<Token>): seq<Piece> {
    seq(|ts|, i requires 0 <= i < |ts| => PieceOf(ts[i]))
  }

  datatype FormatItem =
    | StringItem(text: string)
    | MessageItem
    | LevelItem
    | ElapseItem
    | NameItem
    | ThreadIdItem
    | NewLineItem
    | DateTimeItem(format: string)
    | FilenameItem
    | LineItem
    | TabItem
    | FiberIdItem
    | ThreadNameItem

  const DEFAULT_DATE := "%Y-%m-%d %H:%M:%S"

  /** The table of directives. */
  function FieldItem(name: string, format: string): Option<FormatItem> {
    if name == "m" then Some(MessageItem)
    else if name == "p" then Some(LevelItem)
    else if name == "r" then Some(ElapseItem)
    else if name == "c" then Some(NameItem)
    else if name == "t" then Some(ThreadIdItem)
    else if name == "n" then Some(NewLineItem)
    else if name == "d" then Some(DateTimeItem(if format == "" then DEFAULT_DATE else format))
    else if name == "f" then Some(FilenameItem)
    else if name == "l" then Some(LineItem)
    else if name == "T" then Some(TabItem)
    else if name == "F" then Some(FiberIdItem)
    else if name == "N" then Some(ThreadNameItem)
    else None
  }

  predicate KnownName(name: string) {
    name in {"m", "p", "r", "c", "t", "n", "d", "f", "l", "T", "F", "N"}
  }

  predicate Known(p: Piece) {
    p.Text? || KnownName(p.name)
  }

  function Resolve(p: Piece): FormatItem {
    match p
    case Text(text) => StringItem(text)
    case Field(name, format) =>
      match FieldItem(name, format)
      case Some(item) => item
      case None => StringItem("<<error_format %" + name + ">>")
  }

  /** The error flag of a formatter for the pattern. */
  ghost predicate BadPattern(pattern: string) {
    var r := Tokenise(pattern, "");
    r.error || exists p <- Pieces(r.tokens) :: !Known(p)
  }

  /** What the scan of one directive finds: its name, its format text and where it stops. */
  ghost predicate Scanned(p: string, i: nat, closed: bool, str: string, fmt: string, n: nat)
    requires i < |p| && p[i] == '%'
  {
    var d := DirectiveAfter(p[i + 1..]);
    if closed then d.Some? && PieceOf(d.value.0) == Field(str, fmt) && n == i + d.value.1
    else d.None?
  }

  lemma BareScanned(p: string, i: nat, n: nat)
    requires i < n <= |p| && p[i] == '%'
    requires forall j | i < j < n :: NameChar(p[j])
    requires n < |p| ==> !NameChar(p[n]) && p[n] != '{'
    ensures Scanned(p, i, true, p[i + 1..n], "", n)
  {
    NameLenIs(p[i + 1..], n - i - 1);
    DropTake(p, i + 1, n - i - 1);
  }

  /** A directive's name up to its opening brace, and the text after it. */
  lemma NameScanned(p: string, i: nat, open: nat)
    requires i < open < |p| && p[open] == '{' && forall j | i < j < open :: NameChar(p[j])
    ensures var q, k := p[i + 1..], open - i - 1;
      NameLen(q) == k < |q| && q[k] == '{' && q[..k] == p[i + 1..open] && q[k + 1..] == p[open + 1..]
  {
    NameLenIs(p[i + 1..], open - i - 1);
    DropTake(p, i + 1, open - i - 1);
    DropDrop(p, i + 1, open - i);
  }

  /** The format text up to the closing brace. */
  lemma GroupClosed(p: string, open: nat, n: nat)
    requires open < n - 1 < |p| && p[n - 1] == '}' && forall j | open < j < n - 1 :: p[j] != '}'
    ensures var r := p[open + 1..];
      Closing(r) == n - open - 2 < |r| && r[..n - open - 2] == p[open + 1..n - 1]
  {
    ClosingIs(p[open + 1..], n - open - 2);
    DropTake(p, open + 1, n - open - 2);
  }

  lemma GroupScanned(p: string, i: nat, open: nat, n: nat)
    requires i < open < n <= |p| && p[i] == '%' && p[open] == '{'
    requires forall j | i < j < open :: NameChar(p[j])
    requires forall j | open < j < n - 1 :: p[j] != '}'
    requires open < n - 1 && p[n - 1] == '}'
    ensures Scanned(p, i, true, p[i + 1..open], p[open + 1..n - 1], n)
  {
    NameScanned(p, i, open);
    GroupClosed(p, open, n);
    GroupFound(p[i + 1..], p[i + 1..open], p[open + 1..], p[open + 1..n - 1]);
  }

  lemma UnclosedScanned(p: string, i: nat, open: nat)
    requires i < open < |p| && p[i] == '%' && p[open] == '{'
    requires forall j | i < j < open :: NameChar(p[j])
    requires forall j | open < j < |p| :: p[j] != '}'
    ensures DirectiveAfter(p[i + 1..]).None?
  {
    NameScanned(p, i, open);
    ClosingIs(p[open + 1..], |p| - open - 1);
  }

  /** The inner loop, lines 498-537; cost counts its iterations. */
  method ScanDirective(p: string, i: nat)
    returns (iFmtStatus: int, str: string, fmt: string, n: nat, ghost cost: nat)
    requires i < |p| && p[i] == '%'
    ensures iFmtStatus == 0 || iFmtStatus == 1
    ensures Scanned(p, i, iFmtStatus == 0, str, fmt, n)
    ensures iFmtStatus == 0 ==> i < n <= |p| && cost <= n - i
    ensures iFmtStatus == 1 ==> fmt == "" && cost < |p| - i
  {
    n := i + 1;
    iFmtStatus := 0;
    var iFmtBegin := 0;
    str, fmt, cost := "", "", 0;
    while n < |p|
      invariant i < n <= |p| && cost == n - i - 1 && fmt == ""
      invariant iFmtStatus == 0 || iFmtStatus == 1
      invariant iFmtStatus == 0 ==> forall j | i < j < n :: NameChar(p[j])
      invariant iFmtStatus == 0 ==> str == if n == |p| then p[i + 1..] else ""
      invariant iFmtStatus == 1 ==>
        && i < iFmtBegin < n && p[iFmtBegin] == '{'
        && (forall j | i < j < iFmtBegin :: NameChar(p[j]))
        && (forall j | iFmtBegin < j < n :: p[j] != '}')
        && (str == p[i + 1..iFmtBegin] || n == |p|)
    {
      cost := cost + 1;
      if iFmtStatus == 0 && !IsAlpha(p[n]) && p[n] != '{' && p[n] != '}' {
        str := p[i + 1..n];
        BareScanned(p, i, n);
        return;
      }
      if iFmtStatus == 0 && p[n] == '{' {
        str := p[i + 1..n];
        iFmtStatus := 1;
        iFmtBegin := n;
        n := n + 1;
        continue;
      } else if iFmtStatus == 1 && p[n] == '}' {
        fmt := p[iFmtBegin + 1..n];
        iFmtStatus := 0;
        n := n + 1;
        GroupScanned(p, i, iFmtBegin, n);
        return;
      }
      n := n + 1;
      if n == |p| && str == "" {
        str := p[i + 1..];
      }
    }
    if iFmtStatus == 0 {
      BareScanned(p, i, n);
    } else {
      UnclosedScanned(p, i, iFmtBegin);
    }
  }

  lemma PiecesConcat(a: seq<Token>, b: seq<Token>)
    ensures Pieces(a + b) == Pieces(a) + Pieces(b)
  {
  }

  function PiecesOfFlush(lit: string): seq<Piece> {
    if lit == "" then [] else [Text(lit)]
  }

  lemma PiecesStep(vec: seq<Piece>, lit: string, t: Token, r: seq<Token>)
    ensures vec + Pieces(Flush(lit) + [t] + r) == vec + PiecesOfFlush(lit) + [PieceOf(t)] + Pieces(r)
  {
    PiecesConcat(Flush(lit) + [t], r);
    PiecesConcat(Flush(lit), [t]);
    assert Pieces([t]) == [PieceOf(t)] && Pieces(Flush(lit)) == PiecesOfFlush(lit);
    Assoc(vec, PiecesOfFlush(lit) + [PieceOf(t)], Pieces(r));
    Assoc(vec, PiecesOfFlush(lit), [PieceOf(t)]);
  }

  /** Where the scan stands: what it has produced, followed by what the grammar still yields, is the whole. */
  ghost predicate OnTrack(whole: Parse, vec: seq<Piece>, bError: bool, rest: Parse) {
    Pieces(whole.tokens) == vec + Pieces(rest.tokens) && whole.error == (bError || rest.error)
  }

  lemma DirectiveScanned(p: string, i: nat, nstr: string, str: string, fmt: string, n: nat) returns (t: Token)
    requires i < |p| && !Plain(p[i..]) && i < n <= |p| && Scanned(p, i, true, str, fmt, n)
    ensures PieceOf(t) == Field(str, fmt)
    ensures var r := Tokenise(p[n..], ""); Tokenise(p[i..], nstr) == Parse(Flush(nstr) + [t] + r.tokens, r.error)
  {
    t := DirectiveAfter(p[i + 1..]).value.0;
    DropDrop(p, i, 1);
    DropDrop(p, i, n - i);
    TokeniseDirective(p[i..], nstr, t, n - i, p[i + 1..], p[n..]);
  }

  lemma PlainAt(p: string, i: nat)
    requires i < |p|
    ensures Plain(p[i..]) <==> p[i] != '%' || (i + 1 < |p| && p[i + 1] == '%')
  {
  }

  lemma TrackPlain(whole: Parse, vec: seq<Piece>, bError: bool, p: string, i: nat, nstr: string)
    requires i < |p| && Plain(p[i..]) && OnTrack(whole, vec, bError, Tokenise(p[i..], nstr))
    ensures OnTrack(whole, vec, bError, Tokenise(p[i + 1..], nstr + [p[i]]))
  {
    DropDrop(p, i, 1);
  }

  lemma TrackDirective(whole: Parse, vec: seq<Piece>, bError: bool, p: string, i: nat, nstr: string,
                       str: string, fmt: string, n: nat)
    requires i < |p| && !Plain(p[i..]) && i < n <= |p| && Scanned(p, i, true, str, fmt, n)
    requires OnTrack(whole, vec, bError, Tokenise(p[i..], nstr))
    ensures OnTrack(whole, vec + PiecesOfFlush(nstr) + [Field(str, fmt)], bError, Tokenise(p[n..], ""))
  {
    var t := DirectiveScanned(p, i, nstr, str, fmt, n);
    PiecesStep(vec, nstr, t, Tokenise(p[n..], "").tokens);
  }

  lemma TrackEnd(whole: Parse, vec: seq<Piece>, bError: bool, nstr: string)
    requires OnTrack(whole, vec, bError, Tokenise("", nstr))
    ensures vec + PiecesOfFlush(nstr) == Pieces(whole.tokens) && bError == whole.error
  {
    assert Pieces(Flush(nstr)) == PiecesOfFlush(nstr);
  }

  lemma TrackUnclosed(whole: Parse, vec: seq<Piece>, bError: bool, p: string, i: nat, nstr: string)
    requires i < |p| && !Plain(p[i..]) && DirectiveAfter(p[i + 1..]).None?
    requires OnTrack(whole, vec, bError, Tokenise(p[i..], nstr))
    ensures OnTrack(whole, vec + [Text(PATTERN_ERROR)], true, Tokenise(p[i + 1..], nstr))
  {
    DropDrop(p, i, 1);
    var r := Tokenise(p[i + 1..], nstr).tokens;
    PiecesConcat([Literal(PATTERN_ERROR)], r);
    assert Pieces([Literal(PATTERN_ERROR)]) == [Text(PATTERN_ERROR)];
    Assoc(vec, [Text(PATTERN_ERROR)], Pieces(r));
  }

  /** The product, kept away from the solver's nonlinear arithmetic. */
  ghost function Times(i: nat, size: nat): nat {
    if i == 0 then 0 else Times(i - 1, size) + size
  }

  lemma {:induction false} TimesIsProduct(i: nat, size: nat)
    ensures Times(i, size) == i * size
  {
    if i > 0 {
      TimesIsProduct(i - 1, size);
    }
  }

  lemma {:induction false} CostStep(i: nat, n: nat, size: nat, before: nat, more: nat)
    requires before <= Times(i, size) && i < n && size >= 1
    requires more <= n - i || (more <= size && n == i + 1)
    ensures before + more <= Times(n, size)
    decreases n
  {
    if n > i + 1 {
      CostStep(i, n - 1, size, before, if more == 0 then 0 else more - 1);
    }
  }

  /** The scanner at a percent sign that starts a directive, lines 498-554. */
  method ScanPercent(p: string, i: nat, vec: seq<Piece>, nstr: string, bError: bool, ghost cost: nat, ghost whole: Parse)
    returns (vec': seq<Piece>, nstr': string, bError': bool, i': nat, ghost cost': nat)
    requires i < |p| && p[i] == '%' && !Plain(p[i..]) && OnTrack(whole, vec, bError, Tokenise(p[i..], nstr))
    requires (!bError ==> cost <= i) && cost <= Times(i, |p|)
    ensures i < i' <= |p| && OnTrack(whole, vec', bError', Tokenise(p[i'..], nstr'))
    ensures (!bError' ==> cost' <= i') && cost' <= Times(i', |p|)
  {
    vec', nstr', bError' := vec, nstr, bError;
    var iFmtStatus, str, fmt, n;
    ghost var c;
    iFmtStatus, str, fmt, n, c := ScanDirective(p, i);
    if iFmtStatus == 0 {
      TrackDirective(whole, vec, bError, p, i, nstr, str, fmt, n);
      EmptyRight(vec);
      CostStep(i, n, |p|, cost, c);
      if nstr' != "" {
        vec' := vec' + [Text(nstr')];
        nstr' := "";
      }
      vec' := vec' + [Field(str, fmt)];
      i' := n;
    } else {
      TrackUnclosed(whole, vec, bError, p, i, nstr);
      CostStep(i, i + 1, |p|, cost, c);
      bError' := true;
      vec' := vec' + [Text(PATTERN_ERROR)];
      i' := i + 1;
    }
    cost' := cost + c;
  }

  /**
   The scanning pass computes exactly what the grammar says and terminates.  Its
   inner loop makes at most as many iterations as the pattern has characters when
   every brace is closed, and at most the square of that otherwise.
   */
  method Scan(p: string) returns (vec: seq<Piece>, bError: bool, ghost cost: nat)
    ensures vec == Pieces(Tokenise(p, "").tokens)
    ensures bError == Tokenise(p, "").error
    ensures !bError ==> cost <= |p|
    ensures cost <= |p| * |p|
  {
    vec, bError, cost := [], false, 0;
    var nstr := "";
    var i := 0;
    ghost var whole := Tokenise(p, "");
    EmptyLeft(Pieces(whole.tokens));
    assert p[0..] == p;
    while i < |p|
      invariant i <= |p| && OnTrack(whole, vec, bError, Tokenise(p[i..], nstr))
      invariant !bError ==> cost <= i
      invariant cost <= Times(i, |p|)
    {
      PlainAt(p, i);
      if p[i] != '%' {
        TrackPlain(whole, vec, bError, p, i, nstr);
        CostStep(i, i + 1, |p|, cost, 0);
        nstr := nstr + [p[i]];
        i := i + 1;
        continue;
      }
      if i + 1 < |p| && p[i + 1] == '%' {
        TrackPlain(whole, vec, bError, p, i, nstr);
        CostStep(i, i + 1, |p|, cost, 0);
        nstr := nstr + ['%'];
        i := i + 1;
        continue;
      }
      vec, nstr, bError, i, cost := ScanPercent(p, i, vec, nstr, bError, cost, whole);
    }
    TimesIsProduct(i, |p|);
    assert p[i..] == "";
    TrackEnd(whole, vec, bError, nstr);
    EmptyRight(vec);
    if nstr != "" {
      vec := vec + [Text(nstr)];
    }
  }

  /** Lines 584-600: the item of one element of the vector, and whether its name is unknown. */
  method ItemFor(p: Piece) returns (item: FormatItem, unknown: bool)
    ensures item == Resolve(p) && unknown == !Known(p)
  {
    unknown := false;
    match p {
      case Text(text) => item := StringItem(text);
      case Field(name, format) =>
        match FieldItem(name, format) {
          case None =>
            item := StringItem("<<error_format %" + name + ">>");
            unknown := true;
          case Some(found) => item := found;
        }
    }
  }

  class LogFormatter {
    const pattern: string
    var items: seq<FormatItem>
    var bError: bool

    ghost predicate Compiled()
      reads this
    {
      var ps := Pieces(Tokenise(pattern, "").tokens);
      && |items| == |ps| && (forall k | 0 <= k < |ps| :: items[k] == Resolve(ps[k]))
      && bError == BadPattern(pattern)
    }

    constructor (pattern: string)
      ensures this.pattern == pattern && Compiled()
    {
      this.pattern := pattern;
      items, bError := [], false;
      new;
      Init();
    }

    /** Lines 476-604. */
    method Init()
      requires items == [] && !bError
      modifies this
      ensures Compiled()
    {
      ghost var cost;
      var vec;
      vec, bError, cost := Scan(pattern);
      ghost var unclosed := bError;
      var k := 0;
      while k < |vec|
        invariant 0 <= k <= |vec| && |items| == k
        invariant forall j | 0 <= j < k :: items[j] == Resolve(vec[j])
        invariant bError == (unclosed || exists j :: 0 <= j < k && !Known(vec[j]))
      {
        var item, unknown := ItemFor(vec[k]);
        items := items + [item];
        bError := bError || unknown;
        k := k + 1;
      }
    }

    /**
     Lines 339-347: a compiled formatter writes the expansion of its pattern's tokens,
     each directive standing for the event's field it names.
     */
    method Format(ev: LogEvent, texts: Texts) returns (r: string)
      requires Compiled()
      ensures r == Concat(ExpandedEach(Tokenise(pattern, "").tokens, ev, texts))
    {
      ghost var parts := WrittenEach(items, ev, texts);
      r := "";
      var k := 0;
      while k < |items|
        invariant 0 <= k <= |items| && r == Concat(parts[..k])
      {
        assert parts[..k + 1][..k] == parts[..k] && parts[k] == Written(items[k], ev, texts);
        r := r + Written(items[k], ev, texts);
        k := k + 1;
      }
      assert parts[..k] == parts;
      ItemsExpand(items, Tokenise(pattern, "").tokens, ev, texts);
    }
  }

  // ---- What a compiled formatter writes ----

  /** What the items read of an event; level is the one the event is logged at. */
  datatype LogEvent = LogEvent(content: string, level: Level, elapse: nat, logger: string, threadId: nat,
                               threadName: string, fiberId: nat, time: int, file: string, line: nat)

  /** The texts that come from the C++ library: numbers in decimal, and dates. */
  datatype Texts = Texts(decimal: nat -> string, date: (string, int) -> string)

  /** Lines 350-473: the format method of each item. */
  function Written(item: FormatItem, ev: LogEvent, texts: Texts): string {
    match item
    case StringItem(text) => text
    case MessageItem => ev.content
    case LevelItem => LevelToString(ev.level)
    case ElapseItem => texts.decimal(ev.elapse)
    case NameItem => ev.logger
    case ThreadIdItem => texts.decimal(ev.threadId)
    case NewLineItem => "\n"
    case DateTimeItem(format) => texts.date(format, ev.time)
    case FilenameItem => ev.file
    case LineItem => texts.decimal(ev.line)
    case TabItem => "\t"
    case FiberIdItem => texts.decimal(ev.fiberId)
    case ThreadNameItem => ev.threadName
  }

  /** What a token of the pattern stands for in a log line. */
  function Expanded(t: Token, ev: LogEvent, texts: Texts): string {
    match t
    case Literal(text) => text
    case Directive(name, group) =>
      if name == "m" then ev.content
      else if name == "p" then LevelToString(ev.level)
      else if name == "r" then texts.decimal(ev.elapse)
      else if name == "c" then ev.logger
      else if name == "t" then texts.decimal(ev.threadId)
      else if name == "n" then "\n"
      else if name == "d" && (group == None || group == Some("")) then texts.date("%Y-%m-%d %H:%M:%S", ev.time)
      else if name == "d" then texts.date(group.value, ev.time)
      else if name == "f" then ev.file
      else if name == "l" then texts.decimal(ev.line)
      else if name == "T" then "\t"
      else if name == "F" then texts.decimal(ev.fiberId)
      else if name == "N" then ev.threadName
      else "<<error_format %" + name + ">>"
  }

  function Concat(parts: seq<string>): string {
    if parts == [] then "" else Concat(parts[..|parts| - 1]) + parts[|parts| - 1]
  }

  function ExpandedEach(ts: seq<Token>, ev: LogEvent, texts: Texts): seq<string> {
    seq(|ts|, i requires 0 <= i < |ts| => Expanded(ts[i], ev, texts))
  }

  function WrittenEach(items: seq<FormatItem>, ev: LogEvent, texts: Texts): seq<string> {
    seq(|items|, i requires 0 <= i < |items| => Written(items[i], ev, texts))
  }

  lemma ItemExpands(t: Token, ev: LogEvent, texts: Texts)
    ensures Written(Resolve(PieceOf(t)), ev, texts) == Expanded(t, ev, texts)
  {
  }

  lemma ItemsExpand(items: seq<FormatItem>, ts: seq<Token>, ev: LogEvent, texts: Texts)
    requires |items| == |ts| && forall k | 0 <= k < |ts| :: items[k] == Resolve(PieceOf(ts[k]))
    ensures WrittenEach(items, ev, texts) == ExpandedEach(ts, ev, texts)
  {
    forall k | 0 <= k < |ts|
      ensures WrittenEach(items, ev, texts)[k] == ExpandedEach(ts, ev, texts)[k]
    {
      ItemExpands(ts[k], ev, texts);
    }
  }

  // ---- The vector determines the pattern ----

  /** The vector does not tell an empty group from none. */
  function TokenOf(p: Piece): Token {
    match p
    case Text(text) => Literal(text)
    case Field(name, format) => Directive(name, if format == "" then None else Some(format))
  }

  function TokensOf(vec: seq<Piece>): seq<Token> {
    seq(|vec|, i requires 0 <= i < |vec| => TokenOf(vec[i]))
  }

  predicate EmptyGroup(t: Token) {
    t.Directive? && t.group == Some("")
  }

  /** Joining what the scan produced gives the pattern back, but for empty groups. */
  lemma PatternFromVector(p: string)
    requires !Tokenise(p, "").error
    ensures var ts := Tokenise(p, "").tokens; var us := TokensOf(Pieces(ts));
      && |us| == |ts| && Print(ts) == p
      && (forall k | 0 <= k < |ts| :: us[k] == if EmptyGroup(ts[k]) then Directive(ts[k].name, None) else ts[k])
      && ((forall t <- ts :: !EmptyGroup(t)) ==> Print(us) == p)
  {
    PrintOfTokens(p, "");
    EmptyLeft(p);
    ThereAndBack(Tokenise(p, "").tokens);
  }

  lemma ThereAndBack(ts: seq<Token>)
    ensures var us := TokensOf(Pieces(ts));
      && |us| == |ts|
      && (forall k | 0 <= k < |ts| :: us[k] == if EmptyGroup(ts[k]) then Directive(ts[k].name, None) else ts[k])
      && ((forall t <- ts :: !EmptyGroup(t)) ==> us == ts)
  {
    var us := TokensOf(Pieces(ts));
    forall k | 0 <= k < |ts|
      ensures us[k] == if EmptyGroup(ts[k]) then Directive(ts[k].name, None) else ts[k]
    {
      assert us[k] == TokenOf(PieceOf(ts[k]));
    }
    if forall t <- ts :: !EmptyGroup(t) {
      assert forall k | 0 <= k < |ts| :: ts[k] in ts;
    }
  }

  lemma BackAndThere(vec: seq<Piece>)
    ensures Pieces(TokensOf(vec)) == vec
  {
    forall k | 0 <= k < |vec|
      ensures Pieces(TokensOf(vec))[k] == vec[k]
    {
      assert PieceOf(TokenOf(vec[k])) == vec[k];
    }
  }

  /** Scanning what a canonical vector prints to gives the vector back, without error. */
  lemma VectorRoundTrip(vec: seq<Piece>)
    requires Canonical(TokensOf(vec))
    ensures var r := Tokenise(Print(TokensOf(vec)), ""); !r.error && Pieces(r.tokens) == vec
  {
    TokensOfPrint(TokensOf(vec));
    BackAndThere(vec);
  }

  // ---- Soundness of the error flag ----

  ghost predicate AllKnown(ts: seq<Token>) {
    forall t <- ts :: t.Literal? || KnownName(t.name)
  }

  lemma UnknownPiece(ts: seq<Token>)
    ensures (exists p <- Pieces(ts) :: !Known(p)) <==> !AllKnown(ts)
  {
    if !AllKnown(ts) {
      var i :| 0 <= i < |ts| && !(ts[i].Literal? || KnownName(ts[i].name));
      assert Pieces(ts)[i] == PieceOf(ts[i]);
      assert !Known(Pieces(ts)[i]);
    }
  }

  /**
   A formatter is error-free exactly when its pattern is the text of some canonical
   token list in which every directive is one of the twelve known ones.
   */
  lemma GoodPatternIff(pattern: string)
    ensures !BadPattern(pattern) <==> exists ts :: Canonical(ts) && Print(ts) == pattern && AllKnown(ts)
  {
    var r := Tokenise(pattern, "");
    BracesClosedIffCanonicalText(pattern);
    UnknownPiece(r.tokens);
    if ts :| Canonical(ts) && Print(ts) == pattern && AllKnown(ts) {
      TokensOfPrint(ts);
    }
  }

  // ---- The default pattern ----

  const DATE := "%d{" + (DEFAULT_DATE + "}")
  const THREADS := "%T%t" + "%T%N"
  const MIDDLE := "%T%F" + ("%T[%p]" + "%T[%c]")
  const TAIL := "%T%f:" + ("%l%T" + "%m%n")

  /** Line 96, in pieces. */
  const DEFAULT_PATTERN := DATE + (THREADS + (MIDDLE + TAIL))

  /** The text is that of a canonical list of literals and known directives. */
  ghost predicate Fits(ts: seq<Token>, text: string) {
    Canonical(ts) && Print(ts) == text && AllKnown(ts)
  }

  lemma AddBare(c: char, ts: seq<Token>, text: string) returns (us: seq<Token>)
    requires Fits(ts, text) && KnownName([c]) && Ends([c], text)
    ensures Fits(us, ['%', c] + text) && us != [] && us[0].Directive?
  {
    var t := Directive([c], None);
    us := [t] + ts;
    assert us[1..] == ts;
    assert IsAlpha([c][0]);
    assert PrintToken(t) == ['%', c];
  }

  lemma AddChar(c: char, ts: seq<Token>, text: string) returns (us: seq<Token>)
    requires Fits(ts, text) && c != '%' && (ts != [] ==> ts[0].Directive?)
    ensures Fits(us, [c] + text)
  {
    us := [Literal([c])] + ts;
    assert us[1..] == ts;
  }

  lemma StillOk(t: Token, rest: seq<Token>, b: seq<Token>)
    requires t.Directive? && t.name != "" && DirectiveOk(t, rest)
    requires Print(b) != "" && Print(b)[0] == '%'
    ensures DirectiveOk(t, rest + b)
  {
    PrintConcat(rest, b);
  }

  /** A canonical list with named directives can be continued by a directive. */
  lemma {:induction false} CanonicalConcat(a: seq<Token>, b: seq<Token>)
    requires Canonical(a) && Canonical(b) && b != [] && b[0].Directive?
    requires forall t <- a :: t.Directive? ==> t.name != ""
    ensures Canonical(a + b)
    decreases |a|
  {
    if a == [] {
      EmptyLeft(b);
    } else {
      CanonicalConcat(a[1..], b);
      Uncons(a);
      Assoc([a[0]], a[1..], b);
      ConcatStep(a[0], a[1..], b);
    }
  }

  lemma ConcatStep(t: Token, r: seq<Token>, b: seq<Token>)
    requires Canonical([t] + r) && Canonical(r + b) && Canonical(b) && b != [] && b[0].Directive?
    requires t.Directive? ==> t.name != ""
    ensures Canonical([t] + (r + b))
  {
    Joined([t], r);
    Joined([t], r + b);
    if t.Directive? {
      StartsWithPercent(b);
      StillOk(t, r, b);
    }
  }

  lemma FitsConcat(a: seq<Token>, x: string, b: seq<Token>, y: string)
    requires Fits(a, x) && Fits(b, y) && b != [] && b[0].Directive?
    ensures Fits(a + b, x + y)
  {
    PrintConcat(a, b);
    forall t | t in a && t.Directive?
      ensures t.name != ""
    {
      assert KnownName(t.name);
    }
    CanonicalConcat(a, b);
  }

  lemma Part1() returns (ts: seq<Token>)
    ensures Fits(ts, DATE)
  {
    ts := [Directive("d", Some(DEFAULT_DATE))];
    EmptyRight(ts);
    PrintCons(ts[0], []);
    DateText(DEFAULT_DATE + "}");
  }

  lemma DateText(rest: string)
    ensures "%" + ("d" + ("{" + rest)) == "%d{" + rest
  {
  }

  /** Two directives in a row. */
  lemma Pair(c: char, d: char) returns (ts: seq<Token>)
    requires KnownName([c]) && KnownName([d])
    ensures Fits(ts, ['%', c] + ['%', d]) && ts != [] && ts[0].Directive?
  {
    ts := AddBare(d, [], "");
    assert ['%', d] + "" == ['%', d];
    ts := AddBare(c, ts, ['%', d]);
  }

  /** A tab and a bracketed directive. */
  lemma Bracketed(c: char) returns (ts: seq<Token>)
    requires KnownName([c])
    ensures Fits(ts, "%T[" + (['%', c] + "]")) && ts != [] && ts[0].Directive?
  {
    ts := AddChar(']', [], "");
    assert "]" + "" == "]";
    ts := AddBare(c, ts, "]");
    ts := AddChar('[', ts, ['%', c] + "]");
    ts := AddBare('T', ts, ['['] + (['%', c] + "]"));
    assert ['%', 'T'] + (['['] + (['%', c] + "]")) == "%T[" + (['%', c] + "]");
  }

  lemma TabFileColon() returns (ts: seq<Token>)
    ensures Fits(ts, "%T%f:") && ts != [] && ts[0].Directive?
  {
    ts := AddChar(':', [], "");
    ts := AddBare('f', ts, ":");
    ts := AddBare('T', ts, "%f:");
  }

  lemma Tail() returns (ts: seq<Token>)
    ensures Fits(ts, "%T%f:" + ("%l%T" + "%m%n")) && ts != [] && ts[0].Directive?
  {
    var a := TabFileColon();
    var b := Pair('l', 'T');
    var c := Pair('m', 'n');
    FitsConcat(b, "%l%T", c, "%m%n");
    FitsConcat(a, "%T%f:", b + c, "%l%T" + "%m%n");
    ts := a + (b + c);
  }

  lemma Middle() returns (ts: seq<Token>)
    ensures Fits(ts, "%T%F" + ("%T[%p]" + "%T[%c]")) && ts != [] && ts[0].Directive?
  {
    var a := Pair('T', 'F');
    var b := Bracketed('p');
    assert "%T[" + (['%', 'p'] + "]") == "%T[%p]";
    var c := Bracketed('c');
    assert "%T[" + (['%', 'c'] + "]") == "%T[%c]";
    FitsConcat(b, "%T[%p]", c, "%T[%c]");
    FitsConcat(a, "%T%F", b + c, "%T[%p]" + "%T[%c]");
    ts := a + (b + c);
  }

  lemma Threads() returns (ts: seq<Token>)
    ensures Fits(ts, "%T%t" + "%T%N") && ts != [] && ts[0].Directive?
  {
    var a := Pair('T', 't');
    var b := Pair('T', 'N');
    FitsConcat(a, "%T%t", b, "%T%N");
    ts := a + b;
  }

  /** The pattern every logger starts with compiles without error. */
  lemma DefaultPatternIsGood()
    ensures !BadPattern(DEFAULT_PATTERN)
  {
    var a := Part1();
    var b := Threads();
    var c := Middle();
    var d := Tail();
    FitsConcat(c, MIDDLE, d, TAIL);
    FitsConcat(b, THREADS, c + d, MIDDLE + TAIL);
    FitsConcat(a, DATE, b + (c + d), THREADS + (MIDDLE + TAIL));
    GoodPatternIff(DEFAULT_PATTERN);
  }
}
