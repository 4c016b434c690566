/**
 The log section of the configuration: LogDefine, its conversions from and to a
 document, and those of name-keyed sets of them (primo/log/Logger.cpp 644-802,
 primo/config.h 160-191).
 */
module LogDefines {
  import opened Sequences
  import opened Wrappers
  import opened Yaml

  datatype Level = Unknow | Debug | Info | Warn | Error | Fatal
  {
    function Rank(): nat {
      match this
      case Unknow => 0
      case Debug => 1
      case Info => 2
      case Warn => 3
      case Error => 4
      case Fatal => 5
    }
  }

  function LevelToString(l: Level): string {
    match l
    case Unknow => "UNKNOW"
    case Debug => "DEBUG"
    case Info => "INFO"
    case Warn => "WARN"
    case Error => "ERROR"
    case Fatal => "FATAL"
  }

  function LevelFromString(s: string): Level {
    if s == "debug" || s == "DEBUG" then Debug
    else if s == "info" || s == "INFO" then Info
    else if s == "warn" || s == "WARN" then Warn
    else if s == "error" || s == "ERROR" then Error
    else if s == "fatal" || s == "FATAL" then Fatal
    else Unknow
  }

  const FILE := 1
  const STDOUT := 2

  datatype AppenderDefine = AppenderDefine(kind: int, level: Level, formatter: string, file: string)

  datatype LogDefine = LogDefine(name: string, level: Level, formatter: string, appenders: seq<AppenderDefine>)

  /** n[key] for reading: a scalar has no members and throws, anything but a map has none. */
  function Get(n: Node, key: string): Result<Option<Node>> {
    match n
    case Scalar(_) => Err
    case Map(entries) => Ok(Find(entries, key))
    case _ => Ok(None)
  }

  function Find(entries: seq<(string, Node)>, key: string): Option<Node> {
    if entries == [] then None
    else if entries[0].0 == key then Some(entries[0].1)
    else Find(entries[1..], key)
  }

  function AsString(n: Node): Result<string> {
    if n.Scalar? then Ok(n.text) else Err
  }

  /** The text of a member, or the given text when the member is absent. */
  function TextOr(n: Node, key: string, absent: string): Result<string> {
    match Get(n, key)
    case Err => Err
    case Ok(None) => Ok(absent)
    case Ok(Some(v)) => AsString(v)
  }

  /** Lines 711-749: nothing when the entry is reported and skipped. */
  function ParseAppender(apd: Node): Result<Option<AppenderDefine>> {
    match Get(apd, "type")
    case Err => Err
    case Ok(None) => Ok(None)
    case Ok(Some(t)) =>
      match AsString(t)
      case Err => Err
      case Ok(kind) =>
        if kind == "FileAppender" then ParseFile(apd)
        else if kind == "StdOutAppender" then ParseStdOut(apd)
        else Ok(None)
  }

  /** The formatter of a file appender is read from its file member, as line 732 does. */
  function ParseFile(apd: Node): Result<Option<AppenderDefine>> {
    match Get(apd, "file")
    case Err => Err
    case Ok(None) => Ok(None)
    case Ok(Some(f)) =>
      match (AsString(f), Get(apd, "formatter"))
      case (Ok(file), Ok(fmt)) => Ok(Some(AppenderDefine(FILE, Unknow, if fmt.Some? then file else "", file)))
      case _ => Err
  }

  function ParseStdOut(apd: Node): Result<Option<AppenderDefine>> {
    match TextOr(apd, "formatter", "")
    case Err => Err
    case Ok(fmt) => Ok(Some(AppenderDefine(STDOUT, Unknow, fmt, "")))
  }

  function ParseAppenders(items: seq<Node>): Result<seq<AppenderDefine>> {
    if items == [] then Ok([])
    else
      match (ParseAppenders(items[..|items| - 1]), ParseAppender(items[|items| - 1]))
      case (Ok(init), Ok(last)) => Ok(init + if last.Some? then [last.value] else [])
      case _ => Err
  }

  function AppenderItems(n: Node): Result<seq<Node>> {
    match Get(n, "appenders")
    case Err => Err
    case Ok(Some(Sequence(items))) => Ok(items)
    case Ok(_) => Ok([])
  }

  /** Lines 690-753. */
  function ParseDefine(n: Node): Result<LogDefine> {
    match Get(n, "name")
    case Ok(Some(name)) =>
      (match (AsString(name), TextOr(n, "level", ""), TextOr(n, "formatter", ""), AppenderItems(n))
       case (Ok(text), Ok(level), Ok(fmt), Ok(items)) =>
         (match ParseAppenders(items)
          case Err => Err
          case Ok(appenders) => Ok(LogDefine(text, LevelFromString(level), fmt, appenders)))
       case _ => Err)
    case _ => Err
  }

  // ---- What is read of a document, in terms of its members ----

  const UPPER_NAMES := ["UNKNOW", "DEBUG", "INFO", "WARN", "ERROR", "FATAL"]
  const LOWER_NAMES := ["unknow", "debug", "info", "warn", "error", "fatal"]

  /** Lines 12-55: a level is written as its name in upper case and read in either case; all else is UNKNOW. */
  lemma LevelNames(l: Level, s: string)
    ensures LevelToString(l) == UPPER_NAMES[l.Rank()]
    ensures l != Unknow ==> (LevelFromString(s) == l <==> s == UPPER_NAMES[l.Rank()] || s == LOWER_NAMES[l.Rank()])
  {
    LevelsDiffer();
  }

  lemma LevelsDiffer()
    ensures forall i, j | 0 <= i < j < 6 :: UPPER_NAMES[i] != UPPER_NAMES[j] && LOWER_NAMES[i] != LOWER_NAMES[j]
    ensures forall i, j | 0 <= i < 6 && 0 <= j < 6 :: UPPER_NAMES[i] != LOWER_NAMES[j]
  {
    assert UPPER_NAMES[0][0] == 'U' && UPPER_NAMES[1][0] == 'D' && UPPER_NAMES[2][0] == 'I';
    assert UPPER_NAMES[3][0] == 'W' && UPPER_NAMES[4][0] == 'E' && UPPER_NAMES[5][0] == 'F';
    assert LOWER_NAMES[0][0] == 'u' && LOWER_NAMES[1][0] == 'd' && LOWER_NAMES[2][0] == 'i';
    assert LOWER_NAMES[3][0] == 'w' && LOWER_NAMES[4][0] == 'e' && LOWER_NAMES[5][0] == 'f';
  }

  /** The member of a map under a key is the value of the first entry with that key. */
  ghost predicate IsMember(n: Node, key: string, v: Option<Node>) {
    match v
    case Some(value) =>
      n.Map? && exists i :: 0 <= i < |n.entries| && n.entries[i] == (key, value) && forall j | 0 <= j < i :: n.entries[j].0 != key
    case None => n.Map? ==> forall i | 0 <= i < |n.entries| :: n.entries[i].0 != key
  }

  function Member(n: Node, key: string): Option<Node> {
    if n.Map? then Find(n.entries, key) else None
  }

  lemma {:induction false} FindIsFirst(entries: seq<(string, Node)>, key: string)
    ensures IsMember(Map(entries), key, Find(entries, key))
    decreases |entries|
  {
    if entries != [] && entries[0].0 != key {
      FindIsFirst(entries[1..], key);
      match Find(entries[1..], key)
      case Some(value) =>
        var i :| 0 <= i < |entries[1..]| && entries[1..][i] == (key, value) && forall j | 0 <= j < i :: entries[1..][j].0 != key;
        assert entries[i + 1] == (key, value);
        assert forall j | 1 <= j < i + 1 :: entries[j] == entries[1..][j - 1];
      case None =>
        assert forall j | 1 <= j < |entries| :: entries[j] == entries[1..][j - 1];
    }
  }

  /** Reading n[key]: it throws on a scalar, and otherwise finds the member. */
  lemma GetIsMember(n: Node, key: string)
    ensures Get(n, key).Err? <==> n.Scalar?
    ensures Get(n, key).Ok? ==> IsMember(n, key, Get(n, key).value) && Get(n, key).value == Member(n, key)
  {
    if n.Map? {
      FindIsFirst(n.entries, key);
    }
  }

  predicate AbsentOrText(v: Option<Node>) {
    v.None? || v.value.Scalar?
  }

  function TextOf(v: Option<Node>): string {
    if v.Some? && v.value.Scalar? then v.value.text else ""
  }

  /**
   An appender entry is an error when it is a scalar, when its type is no text, when a
   file appender's file is no text, or when a console appender's formatter is none.  It
   is skipped when it has no type, a type that is neither, or is a file appender
   without a file.  Otherwise it is kept, without a level: a file appender with its
   file, and that same text as its formatter when it has one; a console appender with
   its formatter.
   */
  lemma AppenderParsed(apd: Node)
    ensures var kind, file, fmt := Member(apd, "type"), Member(apd, "file"), Member(apd, "formatter");
      var isFile, isStdOut := kind == Some(Scalar("FileAppender")), kind == Some(Scalar("StdOutAppender"));
      && (ParseAppender(apd).Err? <==>
            || apd.Scalar? || !AbsentOrText(kind) || (isFile && !AbsentOrText(file)) || (isStdOut && !AbsentOrText(fmt)))
      && (ParseAppender(apd) == Ok(None) <==>
            !apd.Scalar? && AbsentOrText(kind) && !isStdOut && (isFile ==> file.None?))
      && (isFile && ParseAppender(apd).Ok? && file.Some? ==>
            ParseAppender(apd) ==
            Ok(Some(AppenderDefine(1, Unknow, if fmt.Some? then TextOf(file) else "", TextOf(file)))))
      && (isStdOut && ParseAppender(apd).Ok? ==> ParseAppender(apd) == Ok(Some(AppenderDefine(2, Unknow, TextOf(fmt), ""))))
  {
    assert "FileAppender"[0] == 'F' && "StdOutAppender"[0] == 'S';
  }

  /** The items of the appenders member, when that is a sequence. */
  function ListedAppenders(n: Node): seq<Node> {
    var v := Member(n, "appenders");
    if v.Some? && v.value.Sequence? then v.value.items else []
  }

  /**
   A definition is read exactly from a map whose name is a text, whose level and
   formatter are texts where they are present, and none of whose listed appenders is an
   error; and then each field is read from the member of its name.
   */
  lemma DefineParsed(n: Node)
    ensures ParseDefine(n).Ok? <==>
      && n.Map? && Member(n, "name").Some? && AbsentOrText(Member(n, "name"))
      && AbsentOrText(Member(n, "level")) && AbsentOrText(Member(n, "formatter"))
      && forall a <- ListedAppenders(n) :: ParseAppender(a).Ok?
    ensures ParseDefine(n).Ok? ==>
      var d := ParseDefine(n).value;
      && d.name == TextOf(Member(n, "name")) && d.level == LevelFromString(TextOf(Member(n, "level")))
      && d.formatter == TextOf(Member(n, "formatter")) && ParseAppenders(ListedAppenders(n)) == Ok(d.appenders)
  {
    AppendersErrIff(ListedAppenders(n));
    assert LevelFromString("") == Unknow;
  }

  /** The loop over the appenders fails exactly when one of them is an error. */
  lemma {:induction false} AppendersErrIff(items: seq<Node>)
    ensures ParseAppenders(items).Err? <==> exists a <- items :: ParseAppender(a).Err?
    decreases |items|
  {
    if items != [] {
      var init, last := items[..|items| - 1], items[|items| - 1];
      AppendersErrIff(init);
      assert forall a :: a in items <==> a in init || a == last;
    }
  }

  /** The kept definitions are those of the entries that are not skipped, in order: at lists their positions. */
  ghost predicate AreKept(kept: seq<AppenderDefine>, items: seq<Node>, at: seq<nat>) {
    && |kept| == |at|
    && (forall i | 0 <= i < |at| :: at[i] < |items| && ParseAppender(items[at[i]]) == Ok(Some(kept[i])))
    && (forall i, j | 0 <= i < j < |at| :: at[i] < at[j])
    && (forall k | 0 <= k < |items| :: k in at || ParseAppender(items[k]) == Ok(None))
  }

  lemma AreKeptMore(kept: seq<AppenderDefine>, items: seq<Node>, at: seq<nat>, item: Node, a: Option<AppenderDefine>)
    requires AreKept(kept, items, at) && ParseAppender(item) == Ok(a)
    ensures a.None? ==> AreKept(kept, items + [item], at)
    ensures a.Some? ==> AreKept(kept + [a.value], items + [item], at + [|items|])
  {
    assert forall k | 0 <= k < |items| :: (items + [item])[k] == items[k];
    assert (at + [|items|])[|at|] == |items|;
    assert forall k :: k in at ==> k in at + [|items|];
  }

  /** Otherwise it keeps the entries that are not skipped, in order. */
  lemma {:induction false} AppendersKept(items: seq<Node>) returns (at: seq<nat>)
    requires ParseAppenders(items).Ok?
    ensures AreKept(ParseAppenders(items).value, items, at)
    decreases |items|
  {
    if items == [] {
      at := [];
    } else {
      var init, last := items[..|items| - 1], items[|items| - 1];
      var a := ParseAppender(last).value;
      at := AppendersKept(init);
      AreKeptMore(ParseAppenders(init).value, init, at, last, a);
      Unsnoc(items);
      if a.Some? {
        at := at + [|init|];
      } else {
        EmptyRight(ParseAppenders(init).value);
      }
    }
  }

  // ---- Printing ----

  function TextEntry(key: string, text: string, present: bool): seq<(string, Node)> {
    if present then [(key, Scalar(text))] else []
  }

  /** Lines 777-796; an empty node stays null. */
  function PrintAppender(a: AppenderDefine): Node {
    if AppenderEntries(a) == [] then Null else Map(AppenderEntries(a))
  }

  function AppenderEntries(a: AppenderDefine): seq<(string, Node)> {
    TextEntry("type", if a.kind == FILE then "FileAppender" else "StdOutAppender", a.kind == FILE || a.kind == STDOUT)
    + (TextEntry("file", a.file, a.kind == FILE)
       + (TextEntry("level", LevelToString(a.level), a.level != Unknow)
          + (TextEntry("formatter", a.formatter, a.formatter != "")
             + [])))
  }

  function PrintAppenders(apps: seq<AppenderDefine>): seq<Node> {
    seq(|apps|, i requires 0 <= i < |apps| => PrintAppender(apps[i]))
  }

  /** Lines 762-801. */
  function PrintDefine(d: LogDefine): Node {
    Map(TextEntry("name", d.name, true)
        + (TextEntry("level", LevelToString(d.level), d.level != Unknow)
           + (TextEntry("formatter", d.formatter, d.formatter != "")
              + AppendersEntry(d.appenders))))
  }

  function AppendersEntry(apps: seq<AppenderDefine>): seq<(string, Node)> {
    if apps == [] then [] else [("appenders", Sequence(PrintAppenders(apps)))]
  }

  // ---- Round trip ----

  /** What survives: no appender level, and for a file appender no formatter but the file name. */
  predicate Faithful(a: AppenderDefine) {
    && a.level == Unknow
    && ((a.kind == FILE && (a.formatter == "" || a.formatter == a.file)) || (a.kind == STDOUT && a.file == ""))
  }

  ghost predicate FaithfulDefine(d: LogDefine) {
    AllFaithful(d.appenders)
  }

  lemma LevelRoundTrip(l: Level)
    ensures LevelFromString(LevelToString(l)) == l
  {
  }

  lemma FindEntry(key: string, text: string, present: bool, rest: seq<(string, Node)>, k: string)
    ensures Find(TextEntry(key, text, present) + rest, k)
         == if present && key == k then Some(Scalar(text)) else Find(rest, k)
  {
    if present {
      assert (TextEntry(key, text, present) + rest)[1..] == rest;
    } else {
      assert TextEntry(key, text, present) + rest == rest;
    }
  }

  lemma KeysDiffer()
    ensures "type" != "file" && "type" != "level" && "type" != "formatter"
    ensures "file" != "level" && "file" != "formatter" && "level" != "formatter"
    ensures "name" != "level" && "name" != "formatter" && "name" != "appenders"
    ensures "appenders" != "level" && "appenders" != "formatter"
  {
    assert "type"[0] == 't' && "file"[0] == 'f' && "level"[0] == 'l' && "formatter"[0] == 'f';
    assert "file"[1] == 'i' && "formatter"[1] == 'o' && "name"[0] == 'n' && "appenders"[0] == 'a';
  }

  lemma FindInAppender(a: AppenderDefine, k: string)
    ensures Find(AppenderEntries(a), k) ==
      if (a.kind == FILE || a.kind == STDOUT) && k == "type" then
        Some(Scalar(if a.kind == FILE then "FileAppender" else "StdOutAppender"))
      else if a.kind == FILE && k == "file" then Some(Scalar(a.file))
      else if a.level != Unknow && k == "level" then Some(Scalar(LevelToString(a.level)))
      else if a.formatter != "" && k == "formatter" then Some(Scalar(a.formatter))
      else None
  {
    var e4 := TextEntry("formatter", a.formatter, a.formatter != "") + [];
    var e3 := TextEntry("level", LevelToString(a.level), a.level != Unknow) + e4;
    var e2 := TextEntry("file", a.file, a.kind == FILE) + e3;
    FindEntry("type", if a.kind == FILE then "FileAppender" else "StdOutAppender",
              a.kind == FILE || a.kind == STDOUT, e2, k);
    FindEntry("file", a.file, a.kind == FILE, e3, k);
    FindEntry("level", LevelToString(a.level), a.level != Unknow, e4, k);
    FindEntry("formatter", a.formatter, a.formatter != "", [], k);
  }

  /** What each member of a printed appender reads as. */
  lemma PrintedAppender(a: AppenderDefine)
    ensures Get(PrintAppender(a), "type") ==
      Ok(if a.kind == FILE then Some(Scalar("FileAppender"))
         else if a.kind == STDOUT then Some(Scalar("StdOutAppender")) else None)
    ensures Get(PrintAppender(a), "file") == Ok(if a.kind == FILE then Some(Scalar(a.file)) else None)
    ensures Get(PrintAppender(a), "formatter") == Ok(if a.formatter != "" then Some(Scalar(a.formatter)) else None)
  {
    KeysDiffer();
    FindInAppender(a, "type");
    FindInAppender(a, "file");
    FindInAppender(a, "formatter");
    assert AppenderEntries(a) == [] ==> Find([], "type") == Find([], "file") == Find([], "formatter") == None;
  }

  /** An appender survives exactly when it is faithful; otherwise it is changed or lost. */
  lemma AppenderRoundTrip(a: AppenderDefine)
    ensures ParseAppender(PrintAppender(a)).Ok?
    ensures ParseAppender(PrintAppender(a)) == Ok(Some(a)) <==> Faithful(a)
  {
    PrintedAppender(a);
  }

  lemma LastMatches(init: seq<AppenderDefine>, last: AppenderDefine, ri: seq<AppenderDefine>, rl: Option<AppenderDefine>)
    requires |ri| <= |init|
    ensures ri + (if rl.Some? then [rl.value] else []) == init + [last] <==> ri == init && rl == Some(last)
  {
    var r := ri + if rl.Some? then [rl.value] else [];
    if r == init + [last] {
      assert |ri| == |init| && r[|init|] == last;
      assert r[..|init|] == ri && (init + [last])[..|init|] == init;
    }
  }

  lemma ParseOfPrinted(init: seq<AppenderDefine>, last: AppenderDefine, ri: seq<AppenderDefine>, rl: Option<AppenderDefine>)
    requires ParseAppenders(PrintAppenders(init)) == Ok(ri) && ParseAppender(PrintAppender(last)) == Ok(rl)
    ensures ParseAppenders(PrintAppenders(init + [last])) == Ok(ri + if rl.Some? then [rl.value] else [])
  {
    var ps := PrintAppenders(init + [last]);
    assert ps[..|ps| - 1] == PrintAppenders(init);
    assert ps[|ps| - 1] == PrintAppender(last);
  }

  ghost predicate AllFaithful(apps: seq<AppenderDefine>) {
    forall a <- apps :: Faithful(a)
  }

  lemma AllFaithfulAppend(init: seq<AppenderDefine>, last: AppenderDefine)
    ensures AllFaithful(init + [last]) <==> AllFaithful(init) && Faithful(last)
  {
    assert forall a :: a in init + [last] <==> a in init || a == last;
  }

  lemma RoundTripStep(init: seq<AppenderDefine>, last: AppenderDefine, ri: seq<AppenderDefine>, rl: Option<AppenderDefine>)
    requires |ri| <= |init| && (ri == init <==> AllFaithful(init)) && (rl == Some(last) <==> Faithful(last))
    ensures ri + (if rl.Some? then [rl.value] else []) == init + [last] <==> AllFaithful(init + [last])
  {
    LastMatches(init, last, ri, rl);
    AllFaithfulAppend(init, last);
  }

  ghost predicate Survives(apps: seq<AppenderDefine>, r: Result<seq<AppenderDefine>>) {
    r.Ok? && |r.value| <= |apps| && (r.value == apps <==> AllFaithful(apps))
  }

  lemma {:induction false} AppendersRoundTrip(apps: seq<AppenderDefine>)
    ensures Survives(apps, ParseAppenders(PrintAppenders(apps)))
    decreases |apps|
  {
    if apps == [] {
      assert PrintAppenders(apps) == [];
    } else {
      var init, last := apps[..|apps| - 1], apps[|apps| - 1];
      assert apps == init + [last];
      AppendersRoundTrip(init);
      AppendedRoundTrip(init, last);
    }
  }

  lemma AppendedRoundTrip(init: seq<AppenderDefine>, last: AppenderDefine)
    requires Survives(init, ParseAppenders(PrintAppenders(init)))
    ensures Survives(init + [last], ParseAppenders(PrintAppenders(init + [last])))
  {
    AppenderRoundTrip(last);
    var ri, rl := ParseAppenders(PrintAppenders(init)).value, ParseAppender(PrintAppender(last)).value;
    ParseOfPrinted(init, last, ri, rl);
    RoundTripStep(init, last, ri, rl);
  }

  lemma FindInDefine(d: LogDefine, k: string)
    ensures Find(PrintDefine(d).entries, k) ==
      if k == "name" then Some(Scalar(d.name))
      else if d.level != Unknow && k == "level" then Some(Scalar(LevelToString(d.level)))
      else if d.formatter != "" && k == "formatter" then Some(Scalar(d.formatter))
      else if d.appenders != [] && k == "appenders" then Some(Sequence(PrintAppenders(d.appenders)))
      else None
  {
    var e4 := AppendersEntry(d.appenders);
    var e3 := TextEntry("formatter", d.formatter, d.formatter != "") + e4;
    var e2 := TextEntry("level", LevelToString(d.level), d.level != Unknow) + e3;
    FindEntry("name", d.name, true, e2, k);
    FindEntry("level", LevelToString(d.level), d.level != Unknow, e3, k);
    FindEntry("formatter", d.formatter, d.formatter != "", e4, k);
    assert e4 != [] ==> e4[1..] == [];
  }

  lemma PrintedDefine(d: LogDefine)
    ensures Get(PrintDefine(d), "name") == Ok(Some(Scalar(d.name)))
    ensures TextOr(PrintDefine(d), "level", "") == Ok(if d.level == Unknow then "" else LevelToString(d.level))
    ensures TextOr(PrintDefine(d), "formatter", "") == Ok(d.formatter)
    ensures AppenderItems(PrintDefine(d)) == Ok(PrintAppenders(d.appenders))
  {
    KeysDiffer();
    FindInDefine(d, "name");
    FindInDefine(d, "level");
    FindInDefine(d, "formatter");
    FindInDefine(d, "appenders");
    assert d.appenders == [] ==> PrintAppenders(d.appenders) == [];
  }

  /** A definition survives save and reload exactly when all its appenders are faithful. */
  lemma RoundTripIff(d: LogDefine)
    ensures ParseDefine(PrintDefine(d)) == Ok(d) <==> FaithfulDefine(d)
  {
    PrintedDefine(d);
    LevelRoundTrip(d.level);
    AppendersRoundTrip(d.appenders);
  }

  lemma {:induction false} ParsedAppendersFaithful(items: seq<Node>)
    ensures ParseAppenders(items).Ok? ==> forall a <- ParseAppenders(items).value :: Faithful(a)
    decreases |items|
  {
    if items != [] {
      ParsedAppendersFaithful(items[..|items| - 1]);
    }
  }

  /** Loaded configuration is a fixed point: parse, print, parse gives the same definition. */
  lemma LoadedIsFixedPoint(n: Node, d: LogDefine)
    requires ParseDefine(n) == Ok(d)
    ensures FaithfulDefine(d) && ParseDefine(PrintDefine(d)) == Ok(d)
  {
    match AppenderItems(n)
    case Ok(items) =>
      ParsedAppendersFaithful(items);
      RoundTripIff(d);
    case Err =>
  }

  // ---- Sets of definitions ----

  /** std::set ordered by name: at most one definition a name. */
  type LogSet = map<string, LogDefine>

  ghost predicate Keyed(m: LogSet) {
    forall name <- m :: m[name].name == name
  }

  /** set::insert: an element whose name is present already is dropped. */
  function Insert(m: LogSet, d: LogDefine): LogSet {
    if d.name in m then m else m[d.name := d]
  }

  function ParseItems(items: seq<Node>): Result<LogSet> {
    if items == [] then Ok(map[])
    else
      match (ParseItems(items[..|items| - 1]), ParseDefine(items[|items| - 1]))
      case (Ok(m), Ok(d)) => Ok(Insert(m, d))
      case _ => Err
  }

  /** A non-empty map has members that are not definitions; scalars and null have none. */
  function ParseSet(n: Node): Result<LogSet> {
    match n
    case Sequence(items) => ParseItems(items)
    case Map(entries) => if entries == [] then Ok(map[]) else Err
    case _ => Ok(map[])
  }

  /** The order in which a set is listed. */
  ghost predicate Lists(order: seq<string>, m: LogSet) {
    && (forall name :: name in order <==> name in m)
    && (forall i, j | 0 <= i < j < |order| :: order[i] != order[j])
  }

  function PrintNames(m: LogSet, order: seq<string>): seq<Node>
    requires forall name <- order :: name in m
  {
    seq(|order|, i requires 0 <= i < |order| => PrintDefine(m[order[i]]))
  }

  function PrintSet(m: LogSet, order: seq<string>): Node
    requires forall name <- order :: name in m
  {
    Sequence(PrintNames(m, order))
  }

  /** A sequence of items is read exactly when each of them is. */
  lemma {:induction false} ItemsErrIff(items: seq<Node>)
    ensures ParseItems(items).Err? <==> exists n <- items :: ParseDefine(n).Err?
    decreases |items|
  {
    if items != [] {
      var init, last := items[..|items| - 1], items[|items| - 1];
      ItemsErrIff(init);
      assert forall n :: n in items <==> n in init || n == last;
    }
  }

  /** A document is no set of definitions when it is a map with members, or lists an item that is no definition. */
  lemma SetErrIff(n: Node)
    ensures ParseSet(n).Err? <==>
      (n.Map? && n.entries != []) || (n.Sequence? && exists item <- n.items :: ParseDefine(item).Err?)
    ensures !n.Sequence? && ParseSet(n).Ok? ==> ParseSet(n) == Ok(map[])
  {
    if n.Sequence? {
      ItemsErrIff(n.items);
    }
  }

  /** First insert wins: a name belongs to the first item that carries it. */
  lemma {:induction false} FirstInsertWins(items: seq<Node>, m: LogSet, name: string)
    requires ParseItems(items) == Ok(m)
    ensures name in m <==> exists i :: 0 <= i < |items| && Names(items[i], name)
    ensures name in m ==> exists i :: 0 <= i < |items| && ParseDefine(items[i]) == Ok(m[name])
                            && m[name].name == name && forall j | 0 <= j < i :: !Names(items[j], name)
    decreases |items|
  {
    if items != [] {
      var init := items[..|items| - 1];
      var m0 := ParseItems(init).value;
      FirstInsertWins(init, m0, name);
      assert forall j | 0 <= j < |init| :: init[j] == items[j];
      if name !in m0 && name in m {
        assert ParseDefine(items[|init|]) == Ok(m[name]);
      }
    }
  }

  ghost predicate Names(n: Node, name: string) {
    ParseDefine(n).Ok? && ParseDefine(n).value.name == name
  }

  lemma {:induction false} ParsedSetFaithful(items: seq<Node>)
    ensures ParseItems(items).Ok? ==>
      Keyed(ParseItems(items).value) && forall d <- ParseItems(items).value.Values :: FaithfulDefine(d)
    decreases |items|
  {
    if items != [] && ParseItems(items).Ok? {
      var init, last := items[..|items| - 1], items[|items| - 1];
      ParsedSetFaithful(init);
      LoadedIsFixedPoint(last, ParseDefine(last).value);
    }
  }

  ghost predicate SameOn(r: LogSet, m: LogSet, names: seq<string>) {
    && (forall name :: name in r <==> name in names)
    && (forall name <- names :: name in m && name in r && r[name] == m[name])
  }

  lemma SameOnMore(m: LogSet, init: seq<string>, last: string, r: LogSet)
    requires SameOn(r, m, init) && last in m
    ensures SameOn(r[last := m[last]], m, init + [last])
  {
  }

  lemma {:induction false} PrintedNamesParse(m: LogSet, order: seq<string>) returns (r: LogSet)
    requires Keyed(m) && (forall name <- order :: name in m && FaithfulDefine(m[name]))
    requires forall i, j | 0 <= i < j < |order| :: order[i] != order[j]
    ensures ParseItems(PrintNames(m, order)) == Ok(r) && SameOn(r, m, order)
    decreases |order|
  {
    if order == [] {
      r := map[];
    } else {
      var init, last := order[..|order| - 1], order[|order| - 1];
      Unsnoc(order);
      var r0 := PrintedNamesParse(m, init);
      PrintedNamesStep(m, init, last, r0);
      SameOnMore(m, init, last, r0);
      r := r0[last := m[last]];
    }
  }

  lemma PrintedNamesStep(m: LogSet, init: seq<string>, last: string, r: LogSet)
    requires Keyed(m) && (forall name <- init :: name in m) && last in m && FaithfulDefine(m[last]) && last !in init
    requires ParseItems(PrintNames(m, init)) == Ok(r) && SameOn(r, m, init)
    ensures ParseItems(PrintNames(m, init + [last])) == Ok(r[last := m[last]])
  {
    var ps := PrintNames(m, init + [last]);
    assert ps[..|ps| - 1] == PrintNames(m, init);
    assert ps[|ps| - 1] == PrintDefine(m[last]);
    RoundTripIff(m[last]);
  }

  /** The fixed point lifts to sets, in whatever order a loaded set is listed. */
  lemma LoadedSetIsFixedPoint(n: Node, m: LogSet, order: seq<string>)
    requires ParseSet(n) == Ok(m) && Lists(order, m)
    ensures ParseSet(PrintSet(m, order)) == Ok(m)
  {
    if n.Sequence? {
      ParsedSetFaithful(n.items);
    }
    forall name <- order
      ensures FaithfulDefine(m[name])
    {
      assert m[name] in m.Values;
    }
    var r := PrintedNamesParse(m, order);
    assert r == m;
  }

  // ---- The loops ----

  /** The loop over appender entries, lines 709-750. */
  method LoadAppenders(items: seq<Node>) returns (r: Result<seq<AppenderDefine>>)
    ensures r == ParseAppenders(items)
  {
    var appenders := [];
    var i := 0;
    while i < |items|
      invariant 0 <= i <= |items| && ParseAppenders(items[..i]) == Ok(appenders)
    {
      assert items[..i + 1][..i] == items[..i];
      var a := ParseAppender(items[i]);
      if a.Err? {
        StaysErr(items, i + 1);
        return Err;
      }
      if a.value.Some? {
        appenders := appenders + [a.value.value];
      } else {
        assert appenders + [] == appenders;
      }
      i := i + 1;
    }
    assert items[..i] == items;
    return Ok(appenders);
  }

  lemma {:induction false} StaysErr(items: seq<Node>, k: nat)
    requires k <= |items| && ParseAppenders(items[..k]) == Err
    ensures ParseAppenders(items) == Err
    decreases |items|
  {
    if k == |items| {
      assert items[..k] == items;
    } else {
      assert items[..|items| - 1][..k] == items[..k];
      StaysErr(items[..|items| - 1], k);
    }
  }

  /** The set conversion of primo/config.h 160-174, on the items of a sequence. */
  method LoadSet(items: seq<Node>) returns (r: Result<LogSet>)
    ensures r == ParseItems(items)
  {
    var vec: LogSet := map[];
    var i := 0;
    while i < |items|
      invariant 0 <= i <= |items| && ParseItems(items[..i]) == Ok(vec)
    {
      assert items[..i + 1][..i] == items[..i];
      var d := ParseDefine(items[i]);
      if d.Err? {
        SetStaysErr(items, i + 1);
        return Err;
      }
      if d.value.name !in vec {
        vec := vec[d.value.name := d.value];
      }
      i := i + 1;
    }
    assert items[..i] == items;
    return Ok(vec);
  }

  lemma {:induction false} SetStaysErr(items: seq<Node>, k: nat)
    requires k <= |items| && ParseItems(items[..k]) == Err
    ensures ParseItems(items) == Err
    decreases |items|
  {
    if k == |items| {
      assert items[..k] == items;
    } else {
      assert items[..|items| - 1][..k] == items[..k];
      SetStaysErr(items[..|items| - 1], k);
    }
  }
}
