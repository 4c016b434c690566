/**
 Loggers, the logger manager and the configuration listener as the objects they
 are, proved against the value-level table of Reconcile.  Line numbers are those of
 primo/log/Logger.cpp.
 */
module LoggerTable {
  import opened Wrappers
  import opened Config
  import opened LogDefines
  import opened LogFormatters
  import opened Reconcile

  function Share(apps: seq<Appender>, pattern: string): seq<Appender> {
    seq(|apps|, i requires 0 <= i < |apps| => if apps[i].own then apps[i] else apps[i].(formatter := Some(pattern)))
  }

  /** Only formatters change, and only those of appenders that have none of their own. */
  predicate BorrowersFollow(before: seq<Appender>, after: seq<Appender>, pattern: string) {
    && |after| == |before|
    && forall i | 0 <= i < |before| ::
         after[i] == before[i].(formatter := if before[i].own then before[i].formatter else Some(pattern))
  }

  class Logger {
    const name: string
    const root: Logger?
    var level: Level
    var pattern: string
    var appenders: seq<Appender>

    constructor (name: string, root: Logger?)
      ensures this.name == name && this.root == root && State() == FRESH_LOGGER
    {
      this.name, this.root := name, root;
      level, pattern, appenders := Info, DEFAULT_PATTERN, [];
    }

    function State(): LoggerState
      reads this
    {
      LoggerState(level, pattern, appenders)
    }

    method SetLevel(l: Level)
      modifies this`level
      ensures level == l
    {
      level := l;
    }

    /** Lines 100-108: an appender without a formatter borrows the logger's. */
    method AddAppender(a: Appender)
      modifies this`appenders
      ensures appenders == old(appenders) + [if a.formatter.None? then a.(formatter := Some(pattern)) else a]
    {
      var added := a;
      if a.formatter.None? {
        added := a.(formatter := Some(pattern));
      }
      appenders := appenders + [added];
    }

    /** Lines 124-138: borrowed formatters follow the logger's. */
    method SetFormatterPtr(p: string)
      modifies this`pattern, this`appenders
      ensures pattern == p && appenders == Share(old(appenders), p)
      ensures BorrowersFollow(old(appenders), appenders, p)
    {
      pattern := p;
      var i := 0;
      while i < |appenders|
        invariant 0 <= i <= |appenders| == |old(appenders)| && pattern == p
        invariant appenders[..i] == Share(old(appenders), p)[..i]
        invariant appenders[i..] == old(appenders)[i..]
      {
        assert appenders[i] == appenders[i..][0] == old(appenders)[i];
        if !appenders[i].own {
          appenders := appenders[i := appenders[i].(formatter := Some(p))];
        }
        i := i + 1;
      }
      assert appenders == appenders[..i];
    }

    /** Lines 140-150: a text that does not compile changes nothing. */
    method SetFormatter(val: string)
      modifies this`pattern, this`appenders
      ensures BadPattern(val) ==> pattern == old(pattern) && appenders == old(appenders)
      ensures !BadPattern(val) ==> pattern == val && BorrowersFollow(old(appenders), appenders, val)
    {
      var newVal := new LogFormatter(val);
      if newVal.bError {
        return;
      }
      SetFormatterPtr(val);
    }

    method ClearAppenders()
      modifies this`appenders
      ensures appenders == []
    {
      appenders := [];
    }

    /** Lines 848-880: one appender object from its definition, ready to be added. */
    method BuildAppender(a: AppenderDefine) returns (ap: Appender)
      requires a.kind == FILE || a.kind == STDOUT
      ensures (if ap.formatter.None? then ap.(formatter := Some(pattern)) else ap) == MakeAppender(a, pattern)
    {
      if a.kind == FILE {
        ap := Appender(FILE, a.file, Debug, false, None);
      } else {
        ap := Appender(STDOUT, "", Debug, false, None);
      }
      ap := ap.(level := a.level);
      if a.formatter != "" {
        var fmt := new LogFormatter(a.formatter);
        if !fmt.bError {
          ap := ap.(own := true, formatter := Some(a.formatter));
        }
      }
    }

    /** Lines 837-882: what the listener does to a new or changed logger. */
    method Configure(d: LogDefine)
      requires forall a <- d.appenders :: a.kind == FILE || a.kind == STDOUT
      modifies this
      ensures State() == Configured(old(State()), d)
    {
      SetLevel(d.level);
      if d.formatter != "" {
        SetFormatter(d.formatter);
      }
      ClearAppenders();
      AddAppenders(d.appenders);
    }

    /** Lines 846-882. */
    method AddAppenders(declared: seq<AppenderDefine>)
      requires appenders == [] && forall a <- declared :: a.kind == FILE || a.kind == STDOUT
      modifies this`appenders
      ensures appenders == MakeAppenders(declared, pattern)
    {
      var i := 0;
      while i < |declared|
        invariant 0 <= i <= |declared| && appenders == MakeAppenders(declared[..i], pattern)
      {
        assert declared[..i + 1] == declared[..i] + [declared[i]];
        assert declared[i] in declared;
        var ap := BuildAppender(declared[i]);
        AddAppender(ap);
        i := i + 1;
      }
      assert declared[..i] == declared;
    }

    /** Lines 177-195: the appenders the event is handed to, in order; ends because root has no root. */
    method Log(l: Level) returns (out: seq<(string, nat)>)
      requires root != null ==> root.root == null
      ensures root == null ==> out == TakenBy(name, State(), l)
      ensures root != null ==>
        (out == if !Passes(l, level) then []
                else if appenders != [] then Taking(name, appenders, l)
                else TakenBy(root.name, root.State(), l))
      decreases if root == null then 0 else 1
    {
      out := [];
      if Passes(l, level) {
        if appenders != [] {
          var i := 0;
          while i < |appenders|
            invariant 0 <= i <= |appenders| && out == Taking(name, appenders[..i], l)
          {
            assert appenders[..i + 1][..i] == appenders[..i];
            if Passes(l, appenders[i].level) {
              out := out + [(name, i)];
            }
            i := i + 1;
          }
          assert appenders[..i] == appenders;
        } else if root != null {
          out := root.Log(l);
        }
      }
    }
  }

  class LoggerMgr {
    var loggers: map<string, Logger>
    const root: Logger

    ghost predicate Valid()
      reads this, loggers.Values
    {
      && ROOT in loggers && loggers[ROOT] == root && root.root == null
      && forall n <- loggers :: loggers[n].name == n && (n != ROOT ==> loggers[n].root == root)
    }

    ghost function Table(): View
      reads this, loggers.Values
    {
      map n | n in loggers :: loggers[n].State()
    }

    /** Only the root logger, writing to the console. */
    constructor ()
      ensures Valid() && fresh(root)
      ensures Table() == INITIAL_TABLE
    {
      var r := new Logger(ROOT, null);
      var console := Appender(STDOUT, "", Debug, false, None);
      r.AddAppender(console);
      assert r.appenders == [console.(formatter := Some(DEFAULT_PATTERN))];
      root := r;
      loggers := map[ROOT := r];
    }

    /** Lines 616-629: an existing logger or a fresh one that delegates to root. */
    method GetLogger(name: string) returns (l: Logger)
      requires Valid()
      modifies this
      ensures Valid() && name in loggers && l == loggers[name]
      ensures name in old(loggers) ==> loggers == old(loggers)
      ensures name !in old(loggers) ==> loggers == old(loggers)[name := l] && fresh(l) && l.State() == FRESH_LOGGER
      ensures Table() == old(Table())[name := StateOf(old(Table()), name)]
    {
      if name in loggers {
        return loggers[name];
      }
      l := new Logger(name, root);
      loggers := loggers[name := l];
    }

    method ConfigureAt(n: string, d: LogDefine)
      requires Valid() && n in loggers && forall a <- d.appenders :: a.kind == FILE || a.kind == STDOUT
      modifies loggers[n]
      ensures Valid() && Table() == old(Table())[n := Configured(old(loggers[n].State()), d)]
    {
      loggers[n].Configure(d);
    }

    method SwitchOffAt(n: string)
      requires Valid() && n in loggers
      modifies loggers[n]
      ensures Valid() && Table() == old(Table())[n := Removed(old(loggers[n].State()))]
    {
      loggers[n].SetLevel(Unknow);
      loggers[n].ClearAppenders();
    }

    /** An event given to the logger of a name goes where the table says. */
    method LogTo(name: string, l: Level) returns (out: seq<(string, nat)>)
      requires Valid()
      modifies this
      ensures Valid() && name in loggers && Table() == old(Table())[name := StateOf(old(Table()), name)]
      ensures out == Delivered(Table(), name, l)
    {
      var logger := GetLogger(name);
      out := logger.Log(l);
    }

    /** Lines 822-882 for one name: look the logger up and configure it. */
    method Reconfigure(n: string, d: LogDefine)
      requires Valid() && forall a <- d.appenders :: a.kind == FILE || a.kind == STDOUT
      modifies this, if n in loggers then {loggers[n]} else {}
      ensures Valid() && n in loggers
      ensures loggers == old(loggers) || (n !in old(loggers) && fresh(loggers[n]) && loggers == old(loggers)[n := loggers[n]])
      ensures Table() == old(Table())[n := Configured(StateOf(old(Table()), n), d)]
    {
      var l := GetLogger(n);
      assert Table()[n] == l.State();
      ConfigureAt(n, d);
    }

    /** Lines 891-893. */
    method SwitchOff(n: string)
      requires Valid()
      modifies this, if n in loggers then {loggers[n]} else {}
      ensures Valid() && n in loggers
      ensures loggers == old(loggers) || (n !in old(loggers) && fresh(loggers[n]) && loggers == old(loggers)[n := loggers[n]])
      ensures Table() == old(Table())[n := Removed(StateOf(old(Table()), n))]
    {
      var l := GetLogger(n);
      assert Table()[n] == l.State();
      SwitchOffAt(n);
    }

    /** Lines 818-882: one definition of the new value; an unchanged one is passed over. */
    method ApplyOne(before: LogSet, now: LogSet, n: string, ghost view: View, ghost done: set<string>)
      requires Valid() && Usable(now) && n in now && n !in done
      requires Table() == PartlyReconciled(view, before, now, done)
      modifies this, if n in loggers then {loggers[n]} else {}
      ensures Valid()
      ensures loggers == old(loggers) || (n in loggers && fresh(loggers[n]) && loggers == old(loggers)[n := loggers[n]])
      ensures Table() == PartlyReconciled(view, before, now, done + {n})
    {
      PartlyNext(view, before, now, done, n);
      if !(n in before && before[n] == now[n]) {
        assert now[n] in now.Values;
        Reconfigure(n, now[n]);
      }
    }

    /** Lines 887-894: one definition of the old value; gone from the new one, its logger is switched off. */
    method RetireOne(before: LogSet, now: LogSet, n: string, ghost view: View, ghost seen: set<string>)
      requires Valid() && n in before && n !in seen
      requires Table() == PartlyReconciled(view, before, now, now.Keys + seen)
      modifies this, if n in loggers then {loggers[n]} else {}
      ensures Valid()
      ensures loggers == old(loggers) || (n in loggers && fresh(loggers[n]) && loggers == old(loggers)[n := loggers[n]])
      ensures Table() == PartlyReconciled(view, before, now, now.Keys + (seen + {n}))
    {
      if n in now {
        assert now.Keys + (seen + {n}) == now.Keys + seen;
      } else {
        PartlyNext(view, before, now, now.Keys + seen, n);
        assert now.Keys + (seen + {n}) == now.Keys + seen + {n};
        SwitchOff(n);
      }
    }

    /** Lines 816-883. */
    method ApplyNew(before: LogSet, now: LogSet)
      requires Valid() && Usable(now)
      modifies this, loggers.Values
      ensures Valid() && forall m <- loggers :: loggers[m] in old(loggers.Values) || fresh(loggers[m])
      ensures Table() == PartlyReconciled(old(Table()), before, now, now.Keys)
    {
      ghost var view, objects, done := Table(), loggers.Values, {};
      var todo := now.Keys;
      while todo != {}
        invariant Valid() && todo !! done && todo + done == now.Keys
        invariant forall m <- loggers :: loggers[m] in objects || fresh(loggers[m])
        invariant Table() == PartlyReconciled(view, before, now, done)
      {
        var n :| n in todo;
        ApplyOne(before, now, n, view, done);
        todo, done := todo - {n}, done + {n};
      }
      assert done == now.Keys;
    }

    /** Lines 885-895. */
    method RetireOld(before: LogSet, now: LogSet, ghost view: View)
      requires Valid() && Table() == PartlyReconciled(view, before, now, now.Keys)
      modifies this, loggers.Values
      ensures Valid() && forall m <- loggers :: loggers[m] in old(loggers.Values) || fresh(loggers[m])
      ensures Table() == PartlyReconciled(view, before, now, now.Keys + before.Keys)
    {
      ghost var objects, seen := loggers.Values, {};
      var todo := before.Keys;
      assert now.Keys + seen == now.Keys;
      while todo != {}
        invariant Valid() && todo !! seen && todo + seen == before.Keys
        invariant forall m <- loggers :: loggers[m] in objects || fresh(loggers[m])
        invariant Table() == PartlyReconciled(view, before, now, now.Keys + seen)
      {
        var n :| n in todo;
        RetireOne(before, now, n, view, seen);
        todo, seen := todo - {n}, seen + {n};
      }
      assert seen == before.Keys;
    }

    /** The listener, lines 812-896: in whatever order the sets are walked, the table is reconciled. */
    method OnLogsChanged(before: LogSet, now: LogSet)
      requires Valid() && Usable(now)
      modifies this, loggers.Values
      ensures Valid() && forall m <- loggers :: loggers[m] in old(loggers.Values) || fresh(loggers[m])
      ensures Table() == Reconciled(old(Table()), before, now)
    {
      ghost var view := Table();
      ApplyNew(before, now);
      RetireOld(before, now, view);
      PartlyAll(view, before, now);
    }
  }

  /**
   Changing the variable.  The key is the one under which the listener of lines 812-896
   was registered: while it is registered the listener hears a change before it is
   written, and otherwise nothing reaches the manager.
   */
  method SetLogs(logs: CfgVar<LogSet>, key: nat, mgr: LoggerMgr, now: LogSet)
    requires mgr.Valid() && Usable(now)
    modifies logs, mgr, mgr.loggers.Values
    ensures mgr.Valid() && logs.val == now && logs.listeners == old(logs.listeners)
    ensures logs.notes == old(logs.notes) + if now == old(logs.val) then [] else [Note(old(logs.val), now, logs.listeners)]
    ensures forall m <- mgr.loggers :: mgr.loggers[m] in old(mgr.loggers.Values) || fresh(mgr.loggers[m])
    ensures mgr.Table() ==
      if now != old(logs.val) && key in logs.listeners then Reconciled(old(mgr.Table()), old(logs.val), now)
      else old(mgr.Table())
  {
    if logs.val != now && key in logs.listeners {
      mgr.OnLogsChanged(logs.val, now);
    }
    ghost var table := mgr.Table();
    logs.SetValue(now);
    assert mgr.Valid() && mgr.Table() == table;
  }

  /**
   Any sequence of calls: with the listener registered the manager replays the history
   of the values that changed something; without it the table stays as it was.
   */
  method SetLogsInTurn(logs: CfgVar<LogSet>, key: nat, mgr: LoggerMgr, values: seq<LogSet>)
    requires mgr.Valid() && logs.val == map[] && forall v <- values :: Usable(v)
    modifies logs, mgr, mgr.loggers.Values
    ensures mgr.Valid() && logs.val == Current(History(values)) && logs.listeners == old(logs.listeners)
    ensures mgr.Table() ==
      if key in logs.listeners then Replayed(old(mgr.Table()), History(values)) else old(mgr.Table())
  {
    ghost var objects, view := mgr.loggers.Values, mgr.Table();
    var i := 0;
    while i < |values|
      invariant 0 <= i <= |values| && mgr.Valid()
      invariant forall m <- mgr.loggers :: mgr.loggers[m] in objects || fresh(mgr.loggers[m])
      invariant logs.val == Current(History(values[..i])) && logs.listeners == old(logs.listeners)
      invariant mgr.Table() == if key in logs.listeners then Replayed(view, History(values[..i])) else view
    {
      HistoryNext(view, values, i);
      SetLogs(logs, key, mgr, values[i]);
      i := i + 1;
    }
    assert values[..i] == values;
  }

  /** The table when the listener has dealt with some of the names. */
  ghost function PartlyReconciled(view: View, before: LogSet, now: LogSet, done: set<string>): View {
    map n | n in view.Keys + Addressed(before, now) * done :: if n in done then NextState(view, before, now, n) else view[n]
  }

  lemma PartlyAll(view: View, before: LogSet, now: LogSet)
    ensures PartlyReconciled(view, before, now, now.Keys + before.Keys) == Reconciled(view, before, now)
  {
  }

  /** Dealing with one more name changes its row, or nothing when the name is not addressed. */
  lemma PartlyNext(view: View, before: LogSet, now: LogSet, done: set<string>, n: string)
    requires n !in done
    ensures var t := PartlyReconciled(view, before, now, done);
      && StateOf(t, n) == StateOf(view, n)
      && PartlyReconciled(view, before, now, done + {n})
         == if n in Addressed(before, now) then t[n := NextState(view, before, now, n)] else t
  {
  }
}
