/**
 The logger table as a value, the effect of the configuration listener on it, and
 its agreement over whole runs with rebuilding the table from the history
 (primo/log/Logger.cpp 92-195 and 804-898, primo/log/Logger.h 311-330).
 */
module Reconcile {
  import opened Wrappers
  import opened Yaml
  import opened Flatten
  import opened Config
  import opened LogDefines
  import opened LogFormatters

  /** own is bHasFormatter; the formatter is named by its pattern. */
  datatype Appender = Appender(kind: int, file: string, level: Level, own: bool, formatter: Option<string>)

  datatype LoggerState = LoggerState(level: Level, pattern: string, appenders: seq<Appender>)

  type View = map<string, LoggerState>

  const ROOT := "root"

  const FRESH_LOGGER := LoggerState(Info, DEFAULT_PATTERN, [])

  /** The manager's own logger, writing to the console. */
  const INITIAL_TABLE: View :=
    map[ROOT := LoggerState(Info, DEFAULT_PATTERN, [Appender(STDOUT, "", Debug, false, Some(DEFAULT_PATTERN))])]

  function StateOf(view: View, name: string): LoggerState {
    if name in view then view[name] else FRESH_LOGGER
  }

  /** A formatter text that SetFormatter accepts. */
  ghost predicate Accepted(formatter: string) {
    formatter != "" && !BadPattern(formatter)
  }

  ghost function MakeAppender(a: AppenderDefine, pattern: string): Appender {
    Appender(a.kind, if a.kind == FILE then a.file else "", a.level, Accepted(a.formatter),
             Some(if Accepted(a.formatter) then a.formatter else pattern))
  }

  ghost function MakeAppenders(apps: seq<AppenderDefine>, pattern: string): seq<Appender> {
    seq(|apps|, i requires 0 <= i < |apps| => MakeAppender(apps[i], pattern))
  }

  /**
   The appenders are those declared, one for one and in order: with kind and level, a
   file appender with its file, and each with a formatter of its own exactly when the
   declared text is not empty and compiles, otherwise with the logger's.
   */
  ghost predicate AsDeclared(apps: seq<Appender>, declared: seq<AppenderDefine>, pattern: string) {
    && |apps| == |declared|
    && forall i | 0 <= i < |apps| :: var a, d := apps[i], declared[i];
         && a.kind == d.kind && a.level == d.level && (d.kind == 1 ==> a.file == d.file)
         && (a.own <==> d.formatter != "" && !BadPattern(d.formatter))
         && a.formatter == Some(if a.own then d.formatter else pattern)
  }

  lemma AppendersAsDeclared(declared: seq<AppenderDefine>, pattern: string)
    ensures AsDeclared(MakeAppenders(declared, pattern), declared, pattern)
  {
  }

  /** A new or changed definition: level, formatter if acceptable, and all appenders anew. */
  ghost function Configured(s: LoggerState, d: LogDefine): LoggerState {
    var p := if Accepted(d.formatter) then d.formatter else s.pattern;
    LoggerState(d.level, p, MakeAppenders(d.appenders, p))
  }

  function Removed(s: LoggerState): LoggerState {
    LoggerState(Unknow, s.pattern, [])
  }

  /** The names the listener looks up, and so creates when they are missing. */
  function Addressed(before: LogSet, now: LogSet): set<string> {
    (set n | n in now && !(n in before && before[n] == now[n])) + (set n | n in before && n !in now)
  }

  ghost function NextState(view: View, before: LogSet, now: LogSet, n: string): LoggerState {
    if n !in Addressed(before, now) then StateOf(view, n)
    else if n in now then Configured(StateOf(view, n), now[n])
    else Removed(StateOf(view, n))
  }

  /** What the listener makes of the table. */
  ghost function Reconciled(view: View, before: LogSet, now: LogSet): View {
    map n | n in view.Keys + Addressed(before, now) :: NextState(view, before, now, n)
  }

  // ---- Whole runs ----

  /** The value after a history of changes; the variable starts empty. */
  function Current(h: seq<LogSet>): LogSet {
    if h == [] then map[] else h[|h| - 1]
  }

  /** The table after the listener heard every change of the history, each with the value before it. */
  ghost function Replayed(view: View, h: seq<LogSet>): View {
    if h == [] then view
    else Reconciled(Replayed(view, h[..|h| - 1]), Current(h[..|h| - 1]), h[|h| - 1])
  }

  lemma ReplayedMore(view: View, h: seq<LogSet>, now: LogSet)
    ensures Replayed(view, h + [now]) == Reconciled(Replayed(view, h), Current(h), now)
    ensures Current(h + [now]) == now
  {
    assert (h + [now])[..|h|] == h;
  }

  /** The values given to SetValue that changed the variable. */
  function History(values: seq<LogSet>): seq<LogSet> {
    if values == [] then []
    else
      var h, now := History(values[..|values| - 1]), values[|values| - 1];
      if now == Current(h) then h else h + [now]
  }

  lemma HistoryNext(view: View, values: seq<LogSet>, i: nat)
    requires i < |values|
    ensures var h, now := History(values[..i]), values[i];
      && Current(History(values[..i + 1])) == now
      && Replayed(view, History(values[..i + 1]))
         == if now == Current(h) then Replayed(view, h) else Reconciled(Replayed(view, h), Current(h), now)
  {
    assert values[..i + 1][..i] == values[..i];
    ReplayedMore(view, History(values[..i]), values[i]);
  }

  predicate Mentioned(h: seq<LogSet>, n: string) {
    exists i :: 0 <= i < |h| && n in h[i]
  }

  /** The last acceptable formatter the history gives a name. */
  ghost function LastFormatter(h: seq<LogSet>, n: string, default: string): string {
    if h == [] then default
    else if n in h[|h| - 1] && Accepted(h[|h| - 1][n].formatter) then h[|h| - 1][n].formatter
    else LastFormatter(h[..|h| - 1], n, default)
  }

  /** The logger built from scratch: what the current value declares, else switched off, else untouched. */
  ghost function Rebuilt(view: View, h: seq<LogSet>, n: string): LoggerState {
    var s := StateOf(view, n);
    var p := LastFormatter(h, n, s.pattern);
    if n in Current(h) then LoggerState(Current(h)[n].level, p, MakeAppenders(Current(h)[n].appenders, p))
    else if Mentioned(h, n) then LoggerState(Unknow, p, [])
    else s
  }

  lemma {:induction false} UnmentionedKeepsFormatter(h: seq<LogSet>, n: string, default: string)
    requires !Mentioned(h, n)
    ensures LastFormatter(h, n, default) == default
    decreases |h|
  {
    if h != [] {
      var init := h[..|h| - 1];
      assert forall i | 0 <= i < |init| :: init[i] == h[i];
      UnmentionedKeepsFormatter(init, n, default);
    }
  }

  lemma MentionedSplit(h: seq<LogSet>, n: string)
    requires h != []
    ensures Mentioned(h, n) <==> Mentioned(h[..|h| - 1], n) || n in h[|h| - 1]
  {
    var init := h[..|h| - 1];
    assert forall i | 0 <= i < |init| :: init[i] == h[i];
  }

  lemma CurrentIsMentioned(h: seq<LogSet>, n: string)
    requires n in Current(h)
    ensures Mentioned(h, n)
  {
  }

  /** One more change, seen by a logger that agreed with the history so far. */
  lemma RebuiltStep(view: View, h: seq<LogSet>, n: string)
    requires h != []
    ensures var init := h[..|h| - 1];
      NextState(map[n := Rebuilt(view, init, n)], Current(init), h[|h| - 1], n) == Rebuilt(view, h, n)
  {
    var init, now := h[..|h| - 1], h[|h| - 1];
    MentionedSplit(h, n);
    if !Mentioned(init, n) {
      UnmentionedKeepsFormatter(init, n, StateOf(view, n).pattern);
    }
  }

  /**
   Incremental reconciliation agrees with rebuilding, over whole runs: after any
   history of changes the table holds exactly the loggers it held at first and
   those ever mentioned, each in the state rebuilt from the history.
   */
  lemma {:induction false} ReconcilingIsRebuilding(view: View, h: seq<LogSet>)
    ensures forall n :: n in Replayed(view, h) <==> n in view || Mentioned(h, n)
    ensures forall n <- Replayed(view, h) :: Replayed(view, h)[n] == Rebuilt(view, h, n)
    decreases |h|
  {
    if h == [] {
      forall n <- view
        ensures view[n] == Rebuilt(view, h, n)
      {
      }
    } else {
      var init := h[..|h| - 1];
      ReconcilingIsRebuilding(view, init);
      forall n
        ensures n in Replayed(view, h) <==> n in view || Mentioned(h, n)
        ensures n in Replayed(view, h) ==> Replayed(view, h)[n] == Rebuilt(view, h, n)
      {
        ReplayedStep(view, h, n);
      }
    }
  }

  lemma ReplayedStep(view: View, h: seq<LogSet>, n: string)
    requires h != []
    requires var v := Replayed(view, h[..|h| - 1]);
      && (n in v <==> n in view || Mentioned(h[..|h| - 1], n))
      && (n in v ==> v[n] == Rebuilt(view, h[..|h| - 1], n))
    ensures n in Replayed(view, h) <==> n in view || Mentioned(h, n)
    ensures n in Replayed(view, h) ==> Replayed(view, h)[n] == Rebuilt(view, h, n)
  {
    var init := h[..|h| - 1];
    var v := Replayed(view, init);
    MentionedSplit(h, n);
    RebuiltStep(view, h, n);
    if n !in v {
      UnmentionedKeepsFormatter(init, n, StateOf(view, n).pattern);
      assert Rebuilt(view, init, n) == FRESH_LOGGER by {
        if n in Current(init) {
          CurrentIsMentioned(init, n);
        }
      }
    }
    if n in Current(init) {
      CurrentIsMentioned(init, n);
    }
  }

  lemma {:induction false} HistoryMentions(values: seq<LogSet>, n: string)
    ensures Mentioned(History(values), n) <==> Mentioned(values, n)
    decreases |values|
  {
    if values != [] {
      var init, now := values[..|values| - 1], values[|values| - 1];
      HistoryMentions(init, n);
      MentionedSplit(values, n);
      var h := History(init);
      if now == Current(h) {
        if n in now {
          CurrentIsMentioned(h, n);
        }
      } else {
        assert (h + [now])[..|h|] == h;
        MentionedSplit(h + [now], n);
      }
    }
  }

  /** The definition of a name in a value gives an acceptable formatter. */
  ghost predicate GivesFormatter(v: LogSet, n: string) {
    n in v && v[n].formatter != "" && !BadPattern(v[n].formatter)
  }

  /** Value i gives the name an acceptable formatter, and no later one does. */
  ghost predicate LastGiver(values: seq<LogSet>, n: string, i: nat) {
    i < |values| && GivesFormatter(values[i], n) && forall j | i < j < |values| :: !GivesFormatter(values[j], n)
  }

  /** The last acceptable formatter among the values, or the default when there is none. */
  ghost predicate IsLastFormatter(values: seq<LogSet>, n: string, default: string, p: string) {
    || (exists i: nat :: LastGiver(values, n, i) && p == values[i][n].formatter)
    || (p == default && forall i | 0 <= i < |values| :: !GivesFormatter(values[i], n))
  }

  lemma GiverStays(values: seq<LogSet>, n: string, i: nat)
    requires values != [] && LastGiver(values[..|values| - 1], n, i) && !GivesFormatter(values[|values| - 1], n)
    ensures LastGiver(values, n, i) && values[..|values| - 1][i] == values[i]
  {
    assert forall j | 0 <= j < |values| - 1 :: values[..|values| - 1][j] == values[j];
  }

  lemma {:induction false} LastFormatterIs(values: seq<LogSet>, n: string, default: string)
    ensures IsLastFormatter(values, n, default, LastFormatter(values, n, default))
    decreases |values|
  {
    if values != [] {
      var k := |values| - 1;
      var init := values[..k];
      if GivesFormatter(values[k], n) {
        assert LastGiver(values, n, k);
      } else {
        LastFormatterIs(init, n, default);
        if i: nat :| LastGiver(init, n, i) && LastFormatter(init, n, default) == init[i][n].formatter {
          GiverStays(values, n, i);
        } else {
          assert forall i | 0 <= i < k :: values[i] == init[i];
        }
      }
    }
  }

  /** Calls that change nothing give no other formatter. */
  lemma {:induction false} HistoryFormatter(values: seq<LogSet>, n: string, default: string)
    ensures LastFormatter(History(values), n, default) == LastFormatter(values, n, default)
    decreases |values|
  {
    if values != [] {
      var init, now := values[..|values| - 1], values[|values| - 1];
      HistoryFormatter(init, n, default);
      var h := History(init);
      if now != Current(h) {
        assert (h + [now])[..|h|] == h;
      }
    }
  }

  /**
   After any sequence of SetValue calls: each logger named in the last value has
   exactly its declared level and appenders, each one named only before is switched
   off, and one that was never named is as it was.  A logger's own formatter is the last
   acceptable one that a value gave it, or the one it had.
   */
  lemma TableAfterCalls(view: View, values: seq<LogSet>, n: string)
    requires values != []
    ensures var t, last := Replayed(view, History(values)), values[|values| - 1];
      && (n in last ==>
            && n in t && t[n].level == last[n].level && AsDeclared(t[n].appenders, last[n].appenders, t[n].pattern))
      && (n in t ==> IsLastFormatter(values, n, StateOf(view, n).pattern, t[n].pattern))
      && (n !in last && Mentioned(values, n) ==> n in t && t[n].level == Unknow && t[n].appenders == [])
      && (!Mentioned(values, n) ==> (n in t <==> n in view) && (n in t ==> t[n] == view[n]))
  {
    HistoryNext(view, values, |values| - 1);
    assert values[..|values| - 1 + 1] == values;
    HistoryMentions(values, n);
    ReconcilingIsRebuilding(view, History(values));
    FormatterAfterCalls(view, values, n);
    if n in Current(History(values)) {
      CurrentIsMentioned(History(values), n);
      AppendersAsDeclared(values[|values| - 1][n].appenders, Replayed(view, History(values))[n].pattern);
    }
  }

  lemma FormatterAfterCalls(view: View, values: seq<LogSet>, n: string)
    requires n in Replayed(view, History(values)) ==>
      Replayed(view, History(values))[n] == Rebuilt(view, History(values), n)
    ensures var t := Replayed(view, History(values));
      n in t ==> IsLastFormatter(values, n, StateOf(view, n).pattern, t[n].pattern)
  {
    var default := StateOf(view, n).pattern;
    HistoryFormatter(values, n, default);
    LastFormatterIs(values, n, default);
    if !Mentioned(History(values), n) {
      UnmentionedKeepsFormatter(History(values), n, default);
      if n in Current(History(values)) {
        CurrentIsMentioned(History(values), n);
      }
    }
  }

  // ---- The notifications of the variable are such a history ----

  function Nows(notes: seq<Note<LogSet>>): seq<LogSet> {
    seq(|notes|, i requires 0 <= i < |notes| => notes[i].now)
  }

  /** A chain of notifications hands the listener each value together with the one before it. */
  lemma {:induction false} ChainIsHistory(notes: seq<Note<LogSet>>, w: LogSet)
    requires Chain(map[], notes, w)
    ensures Current(Nows(notes)) == w
    ensures forall i | 0 <= i < |notes| :: notes[i].before == Current(Nows(notes)[..i])
    decreases |notes|
  {
    if notes != [] {
      var init := notes[..|notes| - 1];
      ChainIsHistory(init, notes[|notes| - 1].before);
      assert Nows(notes)[..|init|] == Nows(init);
      forall i | 0 <= i < |init|
        ensures notes[i].before == Current(Nows(notes)[..i])
      {
        assert init[i] == notes[i] && Nows(notes)[..i] == Nows(init)[..i];
      }
    }
  }

  /**
   What FromString receives for a node, loaded as a document again: the text of a
   scalar is parsed by the given loader, any other node was emitted as a document.
   */
  function Reloaded(load: string -> Option<Node>, n: Node): Option<Node> {
    if n.Scalar? then load(n.text) else Some(n)
  }

  /** The conversion of the variable "logs", whatever the YAML loader makes of text. */
  function LogsConversion(load: string -> Option<Node>): Node -> Option<LogSet> {
    n =>
      match Reloaded(load, n)
      case None => None
      case Some(document) =>
        match ParseSet(document)
        case Ok(m) => Some(m)
        case Err => None
  }

  /**
   Loading documents, with any YAML loader: whatever members are emitted for the
   variable "logs", its notifications leave every logger named in the loaded value with
   exactly the declared level and appenders, every dropped one switched off, the others
   alone.
   */
  lemma LoadedLogsReconcile(load: string -> Option<Node>, view: View, nodes: seq<Member>, ls: set<nat>, n: string)
    ensures var loaded := Loaded(LogsConversion(load), "logs", nodes, map[]);
      var h := Nows(NotesOf(LogsConversion(load), "logs", nodes, map[], ls));
      var t := Replayed(view, h);
      && (n in loaded ==>
            && n in t && t[n].level == loaded[n].level && AsDeclared(t[n].appenders, loaded[n].appenders, t[n].pattern))
      && (n !in loaded && Mentioned(h, n) ==> n in t && t[n].level == Unknow && t[n].appenders == [])
      && (!Mentioned(h, n) ==> (n in t <==> n in view) && (n in t ==> t[n] == view[n]))
  {
    var notes := NotesOf(LogsConversion(load), "logs", nodes, map[], ls);
    NotesChain(LogsConversion(load), "logs", nodes, map[], ls);
    ChainIsHistory(notes, Loaded(LogsConversion(load), "logs", nodes, map[]));
    ReconcilingIsRebuilding(view, Nows(notes));
    if n in Current(Nows(notes)) {
      CurrentIsMentioned(Nows(notes), n);
      AppendersAsDeclared(Current(Nows(notes))[n].appenders, Replayed(view, Nows(notes))[n].pattern);
    }
  }

  /**
   A document is rejected, and the variable left alone, exactly when a scalar's text is
   no YAML, or the document is a map with members or lists an item that is no definition.
   */
  lemma LogsRejectedIff(load: string -> Option<Node>, n: Node)
    ensures LogsConversion(load)(n).None? <==>
      || (n.Scalar? && load(n.text).None?)
      || var document := if n.Scalar? then load(n.text).value else n;
         || (document.Map? && document.entries != [])
         || (document.Sequence? && exists item <- document.items :: ParseDefine(item).Err?)
  {
    if Reloaded(load, n).Some? {
      SetErrIff(Reloaded(load, n).value);
    }
  }

  /** A loaded set names only file and console appenders, each definition under its own name. */
  ghost predicate Usable(m: LogSet) {
    Keyed(m) && forall d <- m.Values :: forall a <- d.appenders :: a.kind == FILE || a.kind == STDOUT
  }

  lemma LoadedIsUsable(load: string -> Option<Node>, n: Node)
    requires LogsConversion(load)(n).Some?
    ensures Usable(LogsConversion(load)(n).value)
  {
    var document := Reloaded(load, n).value;
    if document.Sequence? {
      ParsedSetFaithful(document.items);
      forall d <- LogsConversion(load)(n).value.Values
        ensures forall a <- d.appenders :: a.kind == FILE || a.kind == STDOUT
      {
        assert FaithfulDefine(d);
      }
    }
  }

  // ---- Soundness of the formatters in the table ----

  /** Error-free formatters everywhere, shared with the logger where an appender has none of its own. */
  ghost predicate Sound(s: LoggerState) {
    && !BadPattern(s.pattern)
    && forall a <- s.appenders ::
         && a.formatter.Some? && !BadPattern(a.formatter.value)
         && (!a.own ==> a.formatter == Some(s.pattern))
  }

  lemma {:induction false} LastFormatterGood(h: seq<LogSet>, n: string, default: string)
    requires !BadPattern(default)
    ensures !BadPattern(LastFormatter(h, n, default))
    decreases |h|
  {
    if h != [] {
      LastFormatterGood(h[..|h| - 1], n, default);
    }
  }

  /** In listener-driven runs from a sound table every formatter is error-free and shared as intended. */
  lemma FormattersStaySound(view: View, h: seq<LogSet>)
    requires forall n <- view :: Sound(view[n])
    ensures forall n <- Replayed(view, h) :: Sound(Replayed(view, h)[n])
  {
    ReconcilingIsRebuilding(view, h);
    forall n <- Replayed(view, h)
      ensures Sound(Replayed(view, h)[n])
    {
      DefaultPatternIsGood();
      LastFormatterGood(h, n, StateOf(view, n).pattern);
    }
  }

  lemma InitialTableSound()
    ensures forall n <- INITIAL_TABLE :: Sound(INITIAL_TABLE[n])
  {
    DefaultPatternIsGood();
  }

  // ---- Routing ----

  predicate Passes(l: Level, threshold: Level) {
    l.Rank() >= threshold.Rank()
  }

  const LEVEL_ORDER := [Unknow, Debug, Info, Warn, Error, Fatal]

  /** An event passes a threshold exactly when its level is the same one or a later one in this order. */
  lemma PassesIff(l: Level, threshold: Level)
    ensures Passes(l, threshold) <==>
      exists i, j :: 0 <= j <= i < 6 && LEVEL_ORDER[i] == l && LEVEL_ORDER[j] == threshold
    ensures l in LEVEL_ORDER && forall i, j | 0 <= i < j < 6 :: LEVEL_ORDER[i] != LEVEL_ORDER[j]
  {
    assert LEVEL_ORDER[l.Rank()] == l && LEVEL_ORDER[threshold.Rank()] == threshold;
  }

  /** The appenders of one logger that take an event, in list order. */
  function Taking(name: string, apps: seq<Appender>, l: Level): seq<(string, nat)> {
    if apps == [] then []
    else
      var i := |apps| - 1;
      Taking(name, apps[..i], l) + if Passes(l, apps[i].level) then [(name, i)] else []
  }

  function TakenBy(name: string, s: LoggerState, l: Level): seq<(string, nat)> {
    if Passes(l, s.level) then Taking(name, s.appenders, l) else []
  }

  /** Where an event given to a logger ends up: its own appenders, or root's when it has none. */
  function Delivered(view: View, name: string, l: Level): seq<(string, nat)>
    requires name in view
  {
    var s := view[name];
    if !Passes(l, s.level) then []
    else if s.appenders != [] then Taking(name, s.appenders, l)
    else if name != ROOT && ROOT in view then TakenBy(ROOT, view[ROOT], l)
    else []
  }

  lemma {:induction false} TakingExact(name: string, apps: seq<Appender>, l: Level)
    ensures forall d :: d in Taking(name, apps, l) <==> d.0 == name && d.1 < |apps| && Passes(l, apps[d.1].level)
    ensures forall i, j | 0 <= i < j < |Taking(name, apps, l)| :: Taking(name, apps, l)[i].1 < Taking(name, apps, l)[j].1
    decreases |apps|
  {
    if apps != [] {
      TakingExact(name, apps[..|apps| - 1], l);
    }
  }

  /** The logger whose appenders an event given to the named one goes to. */
  function Carrier(view: View, name: string): string
    requires name in view
  {
    if view[name].appenders == [] && name != ROOT then ROOT else name
  }

  /**
   An event reaches an appender exactly when it passes the logger's level, root's if
   root stands in, and the appender's; each list occurrence once, in list order.
   */
  lemma DeliveryExact(view: View, name: string, l: Level)
    requires name in view && ROOT in view
    ensures var out, c := Delivered(view, name, l), Carrier(view, name);
      && (forall d :: d in out <==>
            && d.0 == c && d.1 < |view[c].appenders|
            && Passes(l, view[name].level) && Passes(l, view[c].level) && Passes(l, view[c].appenders[d.1].level))
      && (forall i, j | 0 <= i < j < |out| :: out[i].1 < out[j].1)
  {
    TakingExact(name, view[name].appenders, l);
    TakingExact(ROOT, view[ROOT].appenders, l);
  }

  /** After any history, a logger that was mentioned and is no longer delivers exactly where root would. */
  lemma RemovedDeliversAsRoot(view: View, h: seq<LogSet>, n: string, l: Level)
    requires ROOT in view && n != ROOT && Mentioned(h, n) && n !in Current(h)
    ensures var t := Replayed(view, h);
      n in t && ROOT in t && Delivered(t, n, l) == Delivered(t, ROOT, l)
  {
    ReconcilingIsRebuilding(view, h);
  }
}
