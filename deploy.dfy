/** The Snowflake migration runner (scripts/deploy_to_snowflake.py).

    The database is seen through what the runner submits to it: every command
    goes into `history`, and the database answers whether it accepted it. The
    answer is a function `accepts` of the commands submitted before and of the
    command itself, so the model covers every pattern of failures. The table
    ETL_DEPLOY_LOG_NEW is `log`, the set of keys of applied scripts: only an
    accepted `InsertLog` adds to it.

    The specification functions (`Step`, `ExecAll`, `RunScripts`,
    `Deployment`) say what a run does to a `DbState`; the methods on a
    `Database` object do it step by step, as the script does, and are proved
    to agree with them. */
module Deploy {
  import opened SqlText
  import opened ScriptFiles

  /** What the runner submits. */
  datatype Command =
    | CreateLogTable          // CREATE TABLE IF NOT EXISTS ETL_DEPLOY_LOG_NEW (lines 8-13)
    | SelectLog               // SELECT SCRIPT_NAME FROM ETL_DEPLOY_LOG_NEW (line 14)
    | Statement(text: string) // one statement of a script (line 32)
    | InsertLog(key: string)  // INSERT INTO ETL_DEPLOY_LOG_NEW (SCRIPT_NAME) VALUES (key) (lines 35-37)

  /** Whether the database accepts a command after a given history. */
  type Acceptor = (seq<Command>, Command) -> bool

  datatype DbState = DbState(history: seq<Command>, log: set<string>)

  /** The state after some commands, and whether all of them were accepted. */
  datatype Exec = Exec(state: DbState, ok: bool)

  // ---------------------------------------------------------------------------
  // Executing commands

  /** One `cursor.execute`: the command is submitted; if it is an accepted
      log insert its key joins the log. */
  function Step(accepts: Acceptor, st: DbState, c: Command): Exec {
    var ok := accepts(st.history, c);
    Exec(DbState(st.history + [c], if ok && c.InsertLog? then st.log + {c.key} else st.log), ok)
  }

  /** Commands in order, stopping at the first one rejected: a rejected
      statement raises, and the exception ends the run (lines 39-41). */
  function ExecAll(accepts: Acceptor, st: DbState, cmds: seq<Command>): Exec
    decreases |cmds|
  {
    if cmds == [] then Exec(st, true)
    else
      var e := Step(accepts, st, cmds[0]);
      if !e.ok then e else ExecAll(accepts, e.state, cmds[1..])
  }

  /** The number of leading commands the database accepts one after another. */
  function Accepted(accepts: Acceptor, history: seq<Command>, cmds: seq<Command>): (n: nat)
    ensures n <= |cmds|
    decreases |cmds|
  {
    if cmds == [] || !accepts(history, cmds[0]) then 0
    else 1 + Accepted(accepts, history + [cmds[0]], cmds[1..])
  }

  /** What `ExecAll` submits: the accepted commands and, after them, the one
      rejected, if any; nothing later. It succeeds exactly when every command
      is accepted. */
  lemma {:induction false} ExecAllSubmits(accepts: Acceptor, st: DbState, cmds: seq<Command>)
    decreases |cmds|
    ensures var n := Accepted(accepts, st.history, cmds);
      var e := ExecAll(accepts, st, cmds);
      && (e.ok <==> n == |cmds|)
      && e.state.history == st.history + cmds[..if n == |cmds| then n else n + 1]
      && (forall k :: 0 <= k < n ==> accepts(st.history + cmds[..k], cmds[k]))
      && (n < |cmds| ==> !accepts(st.history + cmds[..n], cmds[n]))
  {
    if cmds != [] {
      var e := Step(accepts, st, cmds[0]);
      if e.ok {
        var tail := cmds[1..];
        ExecAllSubmits(accepts, e.state, tail);
        var n := Accepted(accepts, e.state.history, tail);
        assert e.state.history == st.history + [cmds[0]];
        forall k | 0 <= k <= |tail|
          ensures st.history + cmds[..k + 1] == e.state.history + tail[..k]
        {
          assert cmds[..k + 1] == [cmds[0]] + tail[..k];
        }
        forall k | 0 <= k < n + 1
          ensures accepts(st.history + cmds[..k], cmds[k])
        {
          if k == 0 {
            assert st.history + cmds[..0] == st.history;
          } else {
            assert st.history + cmds[..k] == e.state.history + tail[..k - 1];
            assert cmds[k] == tail[k - 1];
          }
        }
      } else {
        assert st.history + cmds[..0] == st.history;
      }
    }
  }

  /** Running `a + b` runs `a` and, if that succeeded, `b` from where it left off. */
  lemma {:induction false} ExecAllAppend(accepts: Acceptor, st: DbState, a: seq<Command>, b: seq<Command>)
    ensures var ea := ExecAll(accepts, st, a);
      ExecAll(accepts, st, a + b) == if ea.ok then ExecAll(accepts, ea.state, b) else ea
    decreases |a|
  {
    if a == [] {
      assert a + b == b;
    } else {
      assert (a + b)[0] == a[0];
      assert (a + b)[1..] == a[1..] + b;
      var e := Step(accepts, st, a[0]);
      if e.ok {
        ExecAllAppend(accepts, e.state, a[1..], b);
      }
    }
  }

  lemma ExecAllCons(accepts: Acceptor, st: DbState, c: Command, rest: seq<Command>)
    ensures var e := Step(accepts, st, c);
      ExecAll(accepts, st, [c] + rest) == if e.ok then ExecAll(accepts, e.state, rest) else e
  {
    assert ([c] + rest)[0] == c;
    assert ([c] + rest)[1..] == rest;
  }

  // ---------------------------------------------------------------------------
  // One script

  function AsCommands(stmts: seq<string>): (cmds: seq<Command>)
    ensures |cmds| == |stmts|
    ensures forall k :: 0 <= k < |cmds| ==> cmds[k] == Statement(stmts[k])
  {
    seq(|stmts|, k requires 0 <= k < |stmts| => Statement(stmts[k]))
  }

  /** The commands of one script: its statements in file order, then the log
      insert of its key (lines 26-37). The file is read in text mode. */
  function ScriptCommands(directory: string, file: ScriptFile): seq<Command> {
    AsCommands(Statements(TranslateNewlines(file.text))) + [InsertLog(Key(directory, file.name))]
  }

  /** The log gains the key of a script exactly when all its statements and
      its log insert were accepted; statements never touch the log. */
  lemma {:induction false} StatementsThenInsert(accepts: Acceptor, st: DbState, stmts: seq<string>, key: string)
    ensures var e := ExecAll(accepts, st, AsCommands(stmts) + [InsertLog(key)]);
      e.state.log == if e.ok then st.log + {key} else st.log
    decreases |stmts|
  {
    var cmds := AsCommands(stmts) + [InsertLog(key)];
    if stmts == [] {
      assert cmds == [InsertLog(key)];
      ExecAllCons(accepts, st, InsertLog(key), []);
    } else {
      assert cmds == [Statement(stmts[0])] + (AsCommands(stmts[1..]) + [InsertLog(key)]);
      ExecAllCons(accepts, st, Statement(stmts[0]), AsCommands(stmts[1..]) + [InsertLog(key)]);
      var e := Step(accepts, st, Statement(stmts[0]));
      if e.ok {
        StatementsThenInsert(accepts, e.state, stmts[1..], key);
      }
    }
  }

  /** The key of a script is logged only after the whole script succeeded. */
  lemma ScriptLogged(accepts: Acceptor, st: DbState, directory: string, file: ScriptFile)
    ensures var e := ExecAll(accepts, st, ScriptCommands(directory, file));
      e.state.log == if e.ok then st.log + {Key(directory, file.name)} else st.log
  {
    StatementsThenInsert(accepts, st, Statements(TranslateNewlines(file.text)), Key(directory, file.name));
  }

  // ---------------------------------------------------------------------------
  // One directory

  /** The outcome of `run_new_sql_scripts`: the state, whether it returned
      normally, and the keys of the scripts it started, in order. */
  datatype Run = Run(state: DbState, ok: bool, ran: seq<string>)

  /** The scripts of a run that completed: all started ones on success, all
      but the last, the failing one, otherwise. */
  function Completed(ran: seq<string>, ok: bool): seq<string> {
    if ok || ran == [] then ran else ran[..|ran| - 1]
  }

  /** The keys listed in `s`, as a set. */
  function Keys(s: seq<string>): set<string> {
    set k | k in s
  }

  lemma KeysOfCompletedAppend(a: seq<string>, b: seq<string>, ok: bool)
    requires ok || b != []
    ensures Keys(Completed(a + b, ok)) == Keys(a) + Keys(Completed(b, ok))
  {
    if !ok {
      assert (a + b)[..|a + b| - 1] == a + b[..|b| - 1];
    }
    var c := Completed(b, ok);
    assert Completed(a + b, ok) == a + c;
    assert forall k :: k in a + c <==> k in a || k in c;
  }

  /** Lines 19-41 over the files in the order given: skip a script whose key
      is in `applied`, run the next one, stop at the first failing one. */
  function RunScripts(accepts: Acceptor, st: DbState, directory: string, files: seq<ScriptFile>, applied: set<string>): Run
    decreases |files|
  {
    if files == [] then Run(st, true, [])
    else
      var key := Key(directory, files[0].name);
      if key in applied then RunScripts(accepts, st, directory, files[1..], applied)
      else
        var e := ExecAll(accepts, st, ScriptCommands(directory, files[0]));
        if !e.ok then Run(e.state, false, [key])
        else
          var r := RunScripts(accepts, e.state, directory, files[1..], applied);
          Run(r.state, r.ok, [key] + r.ran)
  }

  /** The keys of the files that are not yet applied, in order. */
  function PendingKeys(directory: string, files: seq<ScriptFile>, applied: set<string>): (keys: seq<string>)
    ensures forall k :: 0 <= k < |keys| ==> keys[k] !in applied
  {
    if files == [] then []
    else if Key(directory, files[0].name) in applied then PendingKeys(directory, files[1..], applied)
    else [Key(directory, files[0].name)] + PendingKeys(directory, files[1..], applied)
  }

  /** Everything a directory would submit if every command were accepted. */
  function Trace(directory: string, files: seq<ScriptFile>, applied: set<string>): seq<Command> {
    if files == [] then []
    else if Key(directory, files[0].name) in applied then Trace(directory, files[1..], applied)
    else ScriptCommands(directory, files[0]) + Trace(directory, files[1..], applied)
  }

  /** Running a directory is executing its trace: what is submitted is a
      prefix of the trace, cut just after the first rejected command. */
  lemma {:induction false} RunIsTrace(accepts: Acceptor, st: DbState, directory: string, files: seq<ScriptFile>, applied: set<string>)
    ensures var r := RunScripts(accepts, st, directory, files, applied);
      var e := ExecAll(accepts, st, Trace(directory, files, applied));
      r.state == e.state && r.ok == e.ok
    decreases |files|
  {
    if files != [] {
      var key := Key(directory, files[0].name);
      if key in applied {
        RunIsTrace(accepts, st, directory, files[1..], applied);
      } else {
        var cmds := ScriptCommands(directory, files[0]);
        ExecAllAppend(accepts, st, cmds, Trace(directory, files[1..], applied));
        var e := ExecAll(accepts, st, cmds);
        if e.ok {
          RunIsTrace(accepts, e.state, directory, files[1..], applied);
        }
      }
    }
  }

  /** The scripts started are the pending ones, in order, up to and including
      the first that fails; a run that fails has started at least that one. */
  lemma {:induction false} RanArePending(accepts: Acceptor, st: DbState, directory: string, files: seq<ScriptFile>, applied: set<string>)
    ensures var r := RunScripts(accepts, st, directory, files, applied);
      && r.ran <= PendingKeys(directory, files, applied)
      && (r.ok ==> r.ran == PendingKeys(directory, files, applied))
      && (!r.ok ==> r.ran != [])
    decreases |files|
  {
    if files != [] {
      var key := Key(directory, files[0].name);
      if key in applied {
        RanArePending(accepts, st, directory, files[1..], applied);
      } else {
        var e := ExecAll(accepts, st, ScriptCommands(directory, files[0]));
        if e.ok {
          RanArePending(accepts, e.state, directory, files[1..], applied);
        }
      }
    }
  }

  /** The log gains the keys of the scripts that completed: all started ones
      on success, all but the failing one otherwise. */
  lemma {:induction false} RunLogsCompleted(accepts: Acceptor, st: DbState, directory: string, files: seq<ScriptFile>, applied: set<string>)
    ensures var r := RunScripts(accepts, st, directory, files, applied);
      r.state.log == st.log + Keys(Completed(r.ran, r.ok))
    decreases |files|
  {
    if files != [] {
      var key := Key(directory, files[0].name);
      if key in applied {
        RunLogsCompleted(accepts, st, directory, files[1..], applied);
      } else {
        ScriptLogged(accepts, st, directory, files[0]);
        var e := ExecAll(accepts, st, ScriptCommands(directory, files[0]));
        if e.ok {
          RunLogsCompleted(accepts, e.state, directory, files[1..], applied);
          var r := RunScripts(accepts, e.state, directory, files[1..], applied);
          RanArePending(accepts, e.state, directory, files[1..], applied);
          KeysOfCompletedAppend([key], r.ran, r.ok);
          assert Keys([key]) == {key};
        } else {
          assert Completed([key], false) == [];
          assert Keys([]) == {};
        }
      }
    }
  }

  /** A directory whose scripts are all applied runs nothing and changes nothing. */
  lemma {:induction false} NothingPendingRunsNothing(accepts: Acceptor, st: DbState, directory: string, files: seq<ScriptFile>, applied: set<string>)
    requires forall k :: 0 <= k < |files| ==> Key(directory, files[k].name) in applied
    ensures RunScripts(accepts, st, directory, files, applied) == Run(st, true, [])
    decreases |files|
  {
    if files != [] {
      assert Key(directory, files[0].name) in applied;
      NothingPendingRunsNothing(accepts, st, directory, files[1..], applied);
    }
  }

  /** Every file is either applied already or among the pending keys. */
  lemma {:induction false} AppliedOrPending(directory: string, files: seq<ScriptFile>, applied: set<string>)
    ensures forall k :: 0 <= k < |files| ==>
      Key(directory, files[k].name) in applied || Key(directory, files[k].name) in PendingKeys(directory, files, applied)
    decreases |files|
  {
    if files != [] {
      AppliedOrPending(directory, files[1..], applied);
      forall k | 1 <= k < |files|
        ensures Key(directory, files[k].name) in applied || Key(directory, files[k].name) in PendingKeys(directory, files, applied)
      {
        assert files[k] == files[1..][k - 1];
      }
    }
  }

  // ---------------------------------------------------------------------------
  // The whole deployment

  /** The outcome of `main`, with the scripts started in each phase. */
  datatype Outcome = Outcome(state: DbState, ok: bool, ddlRan: seq<string>, dmlRan: seq<string>)

  const DdlDirectory: string := "snowDDL"
  const DmlDirectory: string := "snowDML"
  const BootstrapCommands: seq<Command> := [CreateLogTable, SelectLog]

  /** Lines 54-58: read the log once, then the DDL directory, then, if that
      succeeded, the DML directory with the same applied set. */
  function Deployment(accepts: Acceptor, st: DbState, ddl: seq<ScriptFile>, dml: seq<ScriptFile>): Outcome {
    var b := ExecAll(accepts, st, BootstrapCommands);
    if !b.ok then Outcome(b.state, false, [], [])
    else
      var applied := b.state.log;
      var d := RunScripts(accepts, b.state, DdlDirectory, SqlFiles(ddl), applied);
      if !d.ok then Outcome(d.state, false, d.ran, [])
      else
        var m := RunScripts(accepts, d.state, DmlDirectory, SqlFiles(dml), applied);
        Outcome(m.state, m.ok, d.ran, m.ran)
  }

  /** Reading the log changes nothing in it; what it returns is the log. */
  lemma BootstrapKeepsLog(accepts: Acceptor, st: DbState)
    ensures ExecAll(accepts, st, BootstrapCommands).state.log == st.log
  {
    var e := Step(accepts, st, CreateLogTable);
    assert BootstrapCommands[1..] == [SelectLog];
    if e.ok {
      assert [SelectLog][1..] == [];
    }
  }

  /** Every DDL script is handled before any DML script: the DML phase starts
      only after every pending DDL script has succeeded, and then the history
      is the DDL trace followed by a prefix of the DML trace. */
  lemma DdlBeforeDml(accepts: Acceptor, st: DbState, ddl: seq<ScriptFile>, dml: seq<ScriptFile>)
    ensures var o := Deployment(accepts, st, ddl, dml);
      var b := ExecAll(accepts, st, BootstrapCommands);
      var applied := b.state.log;
      var ddlTrace := Trace(DdlDirectory, SqlFiles(ddl), applied);
      var dmlTrace := Trace(DmlDirectory, SqlFiles(dml), applied);
      && o.ddlRan <= PendingKeys(DdlDirectory, SqlFiles(ddl), applied)
      && o.dmlRan <= PendingKeys(DmlDirectory, SqlFiles(dml), applied)
      && (o.dmlRan != [] ==> o.ddlRan == PendingKeys(DdlDirectory, SqlFiles(ddl), applied))
      && (b.ok && ExecAll(accepts, b.state, ddlTrace).ok ==>
        exists n :: 0 <= n <= |dmlTrace| && o.state.history == b.state.history + ddlTrace + dmlTrace[..n])
  {
    var b := ExecAll(accepts, st, BootstrapCommands);
    if b.ok {
      var applied := b.state.log;
      var files := SqlFiles(ddl);
      RanArePending(accepts, b.state, DdlDirectory, files, applied);
      var d := RunScripts(accepts, b.state, DdlDirectory, files, applied);
      if d.ok {
        RanArePending(accepts, d.state, DmlDirectory, SqlFiles(dml), applied);
      }
      DmlHistory(accepts, b.state, files, SqlFiles(dml), applied);
    }
  }

  /** Once the DDL trace has run through, the history is the DDL trace
      followed by a prefix of the DML trace. */
  lemma DmlHistory(accepts: Acceptor, s0: DbState, ddlFiles: seq<ScriptFile>, dmlFiles: seq<ScriptFile>, applied: set<string>)
    ensures var d := RunScripts(accepts, s0, DdlDirectory, ddlFiles, applied);
      var m := RunScripts(accepts, d.state, DmlDirectory, dmlFiles, applied);
      var ddlTrace := Trace(DdlDirectory, ddlFiles, applied);
      var dmlTrace := Trace(DmlDirectory, dmlFiles, applied);
      ExecAll(accepts, s0, ddlTrace).ok ==>
        d.ok && exists n :: 0 <= n <= |dmlTrace| && m.state.history == s0.history + ddlTrace + dmlTrace[..n]
  {
    RunIsTrace(accepts, s0, DdlDirectory, ddlFiles, applied);
    var d := RunScripts(accepts, s0, DdlDirectory, ddlFiles, applied);
    var ddlTrace := Trace(DdlDirectory, ddlFiles, applied);
    if ExecAll(accepts, s0, ddlTrace).ok {
      ExecAllSubmits(accepts, s0, ddlTrace);
      assert ddlTrace[..|ddlTrace|] == ddlTrace;
      var dmlTrace := Trace(DmlDirectory, dmlFiles, applied);
      RunIsTrace(accepts, d.state, DmlDirectory, dmlFiles, applied);
      ExecAllSubmits(accepts, d.state, dmlTrace);
      var n := Accepted(accepts, d.state.history, dmlTrace);
      var cut := if n == |dmlTrace| then n else n + 1;
      var m := RunScripts(accepts, d.state, DmlDirectory, dmlFiles, applied);
      assert m.state.history == s0.history + ddlTrace + dmlTrace[..cut];
    }
  }

  /** A failing DDL script stops the deployment: the run fails, no DML
      script starts, and what was submitted is a prefix of the DDL trace. */
  lemma DdlFailureStops(accepts: Acceptor, st: DbState, ddl: seq<ScriptFile>, dml: seq<ScriptFile>)
    requires ExecAll(accepts, st, BootstrapCommands).ok
    requires var b := ExecAll(accepts, st, BootstrapCommands);
      !RunScripts(accepts, b.state, DdlDirectory, SqlFiles(ddl), b.state.log).ok
    ensures var o := Deployment(accepts, st, ddl, dml);
      var b := ExecAll(accepts, st, BootstrapCommands);
      var ddlTrace := Trace(DdlDirectory, SqlFiles(ddl), b.state.log);
      && !o.ok && o.dmlRan == [] && o.ddlRan != []
      && exists n :: 0 < n <= |ddlTrace| && o.state.history == b.state.history + ddlTrace[..n]
  {
    var b := ExecAll(accepts, st, BootstrapCommands);
    var files := SqlFiles(ddl);
    var ddlTrace := Trace(DdlDirectory, files, b.state.log);
    RanArePending(accepts, b.state, DdlDirectory, files, b.state.log);
    RunIsTrace(accepts, b.state, DdlDirectory, files, b.state.log);
    ExecAllSubmits(accepts, b.state, ddlTrace);
    var n := Accepted(accepts, b.state.history, ddlTrace);
    assert 0 < n + 1 <= |ddlTrace|;
  }

  /** The log after a deployment holds the keys of the scripts that completed:
      all started ones on success, all but the failing one otherwise. */
  lemma DeploymentLog(accepts: Acceptor, st: DbState, ddl: seq<ScriptFile>, dml: seq<ScriptFile>)
    ensures var o := Deployment(accepts, st, ddl, dml);
      o.state.log == st.log + Keys(Completed(o.ddlRan + o.dmlRan, o.ok))
  {
    BootstrapKeepsLog(accepts, st);
    var b := ExecAll(accepts, st, BootstrapCommands);
    var o := Deployment(accepts, st, ddl, dml);
    if !b.ok {
      assert o.ddlRan + o.dmlRan == [];
      assert Keys([]) == {};
    } else {
      var applied := b.state.log;
      RunLogsCompleted(accepts, b.state, DdlDirectory, SqlFiles(ddl), applied);
      var d := RunScripts(accepts, b.state, DdlDirectory, SqlFiles(ddl), applied);
      if !d.ok {
        assert d.ran + [] == d.ran;
      } else {
        RunLogsCompleted(accepts, d.state, DmlDirectory, SqlFiles(dml), applied);
        var m := RunScripts(accepts, d.state, DmlDirectory, SqlFiles(dml), applied);
        RanArePending(accepts, d.state, DmlDirectory, SqlFiles(dml), applied);
        KeysOfCompletedAppend(d.ran, m.ran, m.ok);
        assert o == Outcome(m.state, m.ok, d.ran, m.ran);
      }
    }
  }

  lemma {:induction false} PendingKeysDistinct(directory: string, files: seq<ScriptFile>, applied: set<string>)
    requires DistinctNames(files)
    ensures var keys := PendingKeys(directory, files, applied);
      forall i, j :: 0 <= i < j < |keys| ==> keys[i] != keys[j]
    decreases |files|
  {
    if files != [] {
      var tail := files[1..];
      assert DistinctNames(tail) by {
        forall i, j | 0 <= i < j < |tail| ensures tail[i].name != tail[j].name {
          assert tail[i] == files[i + 1] && tail[j] == files[j + 1];
        }
      }
      PendingKeysDistinct(directory, tail, applied);
      PendingKeysFromFiles(directory, tail, applied);
      assert forall i, j :: 0 <= i < j < |PendingKeys(directory, tail, applied)| ==>
        PendingKeys(directory, tail, applied)[i] != PendingKeys(directory, tail, applied)[j];
      forall k | k in PendingKeys(directory, tail, applied)
        ensures k != Key(directory, files[0].name)
      {
        var i :| 0 <= i < |tail| && k == Key(directory, tail[i].name);
        assert tail[i] == files[i + 1];
        assert files[0].name != files[i + 1].name;
        KeyInjective(directory, tail[i].name, files[0].name);
      }
      var keys := PendingKeys(directory, files, applied);
      var rest := PendingKeys(directory, tail, applied);
      if Key(directory, files[0].name) !in applied {
        forall i, j | 0 <= i < j < |keys| ensures keys[i] != keys[j] {
          assert keys == [Key(directory, files[0].name)] + rest;
          assert keys[j] == rest[j - 1] && rest[j - 1] in rest;
          if i > 0 {
            assert keys[i] == rest[i - 1];
            assert rest[i - 1] != rest[j - 1];
          } else {
            assert rest[j - 1] != Key(directory, files[0].name);
          }
        }
      } else {
        assert keys == rest;
      }
    }
  }

  /** The keys of pending scripts come from files of the directory. */
  lemma {:induction false} PendingKeysFromFiles(directory: string, files: seq<ScriptFile>, applied: set<string>)
    ensures forall k :: k in PendingKeys(directory, files, applied) ==>
      exists i :: 0 <= i < |files| && k == Key(directory, files[i].name)
    decreases |files|
  {
    if files != [] {
      var tail := files[1..];
      PendingKeysFromFiles(directory, tail, applied);
      forall k | k in PendingKeys(directory, tail, applied)
        ensures exists i :: 0 <= i < |files| && k == Key(directory, files[i].name)
      {
        var i :| 0 <= i < |tail| && k == Key(directory, tail[i].name);
        assert tail[i] == files[i + 1];
      }
    }
  }

  /** Scripts start in the order of their file names (line 19): for files in
      name order, the pending keys are in order too. */
  lemma {:induction false} PendingKeysInOrder(directory: string, files: seq<ScriptFile>, applied: set<string>)
    requires forall i, j :: 0 <= i < j < |files| ==> LexLe(files[i].name, files[j].name)
    ensures InLexOrder(PendingKeys(directory, files, applied))
    decreases |files|
  {
    if files != [] {
      var tail := files[1..];
      assert forall i, j :: 0 <= i < j < |tail| ==> LexLe(tail[i].name, tail[j].name) by {
        forall i, j | 0 <= i < j < |tail| ensures LexLe(tail[i].name, tail[j].name) {
          assert tail[i] == files[i + 1] && tail[j] == files[j + 1];
        }
      }
      PendingKeysInOrder(directory, tail, applied);
      PendingKeysFromFiles(directory, tail, applied);
      var rest := PendingKeys(directory, tail, applied);
      var first := Key(directory, files[0].name);
      if first !in applied {
        var keys := PendingKeys(directory, files, applied);
        assert keys == [first] + rest;
        forall j | 0 <= j < |rest| ensures LexLe(first, rest[j]) {
          assert rest[j] in rest;
          var i :| 0 <= i < |tail| && rest[j] == Key(directory, tail[i].name);
          assert tail[i] == files[i + 1];
          KeyOrder(directory, files[0].name, tail[i].name);
        }
        forall i, j | 0 <= i < j < |keys| ensures LexLe(keys[i], keys[j]) {
          assert keys[j] == rest[j - 1];
          if i > 0 {
            assert keys[i] == rest[i - 1];
          }
        }
        assert InLexOrder(keys);
      }
    }
  }

  /** The scripts of a listing start in name order (line 19). */
  lemma ScriptsRunInNameOrder(accepts: Acceptor, st: DbState, directory: string, entries: seq<ScriptFile>, applied: set<string>)
    ensures InLexOrder(RunScripts(accepts, st, directory, SqlFiles(entries), applied).ran)
  {
    var files := SqlFiles(entries);
    var r := RunScripts(accepts, st, directory, files, applied);
    var keys := PendingKeys(directory, files, applied);
    RanArePending(accepts, st, directory, files, applied);
    PendingKeysInOrder(directory, files, applied);
    forall i, j | 0 <= i < j < |r.ran| ensures LexLe(r.ran[i], r.ran[j]) {
      assert r.ran[i] == keys[i] && r.ran[j] == keys[j];
    }
  }

  /** In a directory of distinct names, a failing script's key is not in the
      log afterwards, provided the log held no key outside `applied`. */
  lemma FailingScriptNotLogged(accepts: Acceptor, st: DbState, directory: string, files: seq<ScriptFile>, applied: set<string>)
    requires DistinctNames(files) && st.log <= applied
    ensures var r := RunScripts(accepts, st, directory, files, applied);
      !r.ok ==> r.ran != [] && r.ran[|r.ran| - 1] !in r.state.log
  {
    var r := RunScripts(accepts, st, directory, files, applied);
    RanArePending(accepts, st, directory, files, applied);
    RunLogsCompleted(accepts, st, directory, files, applied);
    if !r.ok {
      var keys := PendingKeys(directory, files, applied);
      PendingKeysDistinct(directory, files, applied);
      var last := |r.ran| - 1;
      assert r.ran[last] == keys[last];
      forall k | 0 <= k < last ensures r.ran[k] != r.ran[last] {
        assert r.ran[k] == keys[k];
      }
    }
  }

  /** A key of the DDL directory is never a key of the DML directory. */
  lemma DirectoriesApart(a: string, b: string)
    ensures Key(DdlDirectory, a) != Key(DmlDirectory, b)
  {
    assert Key(DdlDirectory, a)[..7] == DdlDirectory;
    assert Key(DmlDirectory, b)[..7] == DmlDirectory;
  }

  /** The keys started by a directory run are keys of that directory. */
  lemma RanFromDirectory(accepts: Acceptor, st: DbState, directory: string, files: seq<ScriptFile>, applied: set<string>, k: nat)
    requires k < |RunScripts(accepts, st, directory, files, applied).ran|
    ensures exists i :: 0 <= i < |files| && RunScripts(accepts, st, directory, files, applied).ran[k] == Key(directory, files[i].name)
  {
    var r := RunScripts(accepts, st, directory, files, applied);
    RanArePending(accepts, st, directory, files, applied);
    PendingKeysFromFiles(directory, files, applied);
    var keys := PendingKeys(directory, files, applied);
    assert r.ran[k] == keys[k] && keys[k] in keys;
  }

  ghost predicate DistinctKeys(s: seq<string>) {
    forall i, j :: 0 <= i < j < |s| ==> s[i] != s[j]
  }

  ghost predicate FreshKeys(s: seq<string>, applied: set<string>) {
    forall i :: 0 <= i < |s| ==> s[i] !in applied
  }

  ghost predicate KeysApart(a: seq<string>, b: seq<string>) {
    forall k, l :: 0 <= k < |a| && 0 <= l < |b| ==> a[k] != b[l]
  }

  /** The keys started by a directory run are distinct and were not applied. */
  lemma RanDistinctFresh(accepts: Acceptor, st: DbState, directory: string, entries: seq<ScriptFile>, applied: set<string>)
    requires DistinctNames(entries)
    ensures DistinctKeys(RunScripts(accepts, st, directory, SqlFiles(entries), applied).ran)
    ensures FreshKeys(RunScripts(accepts, st, directory, SqlFiles(entries), applied).ran, applied)
  {
    var files := SqlFiles(entries);
    var ran := RunScripts(accepts, st, directory, files, applied).ran;
    var keys := PendingKeys(directory, files, applied);
    SqlFilesDistinct(entries);
    RanArePending(accepts, st, directory, files, applied);
    PendingKeysDistinct(directory, files, applied);
    forall i, j | 0 <= i < j < |ran| ensures ran[i] != ran[j] {
      assert ran[i] == keys[i] && ran[j] == keys[j];
    }
    forall i | 0 <= i < |ran| ensures ran[i] !in applied {
      assert ran[i] == keys[i];
    }
  }

  /** Keys started in the DDL phase and keys started in the DML phase differ. */
  lemma PhasesApart(accepts: Acceptor, s1: DbState, s2: DbState, ddl: seq<ScriptFile>, dml: seq<ScriptFile>, applied: set<string>)
    ensures KeysApart(RunScripts(accepts, s1, DdlDirectory, SqlFiles(ddl), applied).ran,
                      RunScripts(accepts, s2, DmlDirectory, SqlFiles(dml), applied).ran)
  {
    var d := RunScripts(accepts, s1, DdlDirectory, SqlFiles(ddl), applied);
    var m := RunScripts(accepts, s2, DmlDirectory, SqlFiles(dml), applied);
    forall k, l | 0 <= k < |d.ran| && 0 <= l < |m.ran| ensures d.ran[k] != m.ran[l] {
      RanFromDirectory(accepts, s1, DdlDirectory, SqlFiles(ddl), applied, k);
      RanFromDirectory(accepts, s2, DmlDirectory, SqlFiles(dml), applied, l);
      var i :| 0 <= i < |SqlFiles(ddl)| && d.ran[k] == Key(DdlDirectory, SqlFiles(ddl)[i].name);
      var j :| 0 <= j < |SqlFiles(dml)| && m.ran[l] == Key(DmlDirectory, SqlFiles(dml)[j].name);
      DirectoriesApart(SqlFiles(ddl)[i].name, SqlFiles(dml)[j].name);
    }
  }

  /** Two lists of distinct fresh keys with no key in common concatenate to one. */
  lemma ConcatDistinctFresh(a: seq<string>, b: seq<string>, applied: set<string>)
    requires DistinctKeys(a) && FreshKeys(a, applied)
    requires DistinctKeys(b) && FreshKeys(b, applied)
    requires KeysApart(a, b)
    ensures DistinctKeys(a + b) && FreshKeys(a + b, applied)
  {
    var c := a + b;
    forall i, j | 0 <= i < j < |c| ensures c[i] != c[j] {
      if j < |a| {
        assert c[i] == a[i] && c[j] == a[j];
      } else if i < |a| {
        assert c[i] == a[i] && c[j] == b[j - |a|];
      } else {
        assert c[i] == b[i - |a|] && c[j] == b[j - |a|];
      }
    }
    forall i | 0 <= i < |c| ensures c[i] !in applied {
      if i < |a| {
        assert c[i] == a[i];
      } else {
        assert c[i] == b[i - |a|];
      }
    }
  }

  /** The last of distinct fresh started keys is logged neither before nor
      by the scripts that completed before it. */
  lemma LastNotLogged(log: set<string>, ran: seq<string>)
    requires ran != [] && DistinctKeys(ran) && FreshKeys(ran, log)
    ensures ran[|ran| - 1] !in log + Keys(Completed(ran, false))
  {
    var last := ran[|ran| - 1];
    assert last !in log;
    forall k | k in Completed(ran, false) ensures k != last {
      var i :| 0 <= i < |ran| - 1 && ran[i] == k;
    }
  }

  /** A failed deployment does not log the script that failed, in either
      phase, for listings of distinct names. */
  lemma DeploymentFailureNotLogged(accepts: Acceptor, st: DbState, ddl: seq<ScriptFile>, dml: seq<ScriptFile>)
    requires DistinctNames(ddl) && DistinctNames(dml)
    ensures var o := Deployment(accepts, st, ddl, dml);
      var ran := o.ddlRan + o.dmlRan;
      !o.ok && ran != [] ==> ran[|ran| - 1] !in o.state.log
  {
    var o := Deployment(accepts, st, ddl, dml);
    var ran := o.ddlRan + o.dmlRan;
    DeploymentLog(accepts, st, ddl, dml);
    BootstrapKeepsLog(accepts, st);
    var b := ExecAll(accepts, st, BootstrapCommands);
    if !o.ok && ran != [] {
      var applied := b.state.log;
      assert applied == st.log;
      var d := RunScripts(accepts, b.state, DdlDirectory, SqlFiles(ddl), applied);
      RanDistinctFresh(accepts, b.state, DdlDirectory, ddl, applied);
      if !d.ok {
        assert o == Outcome(d.state, false, d.ran, []);
        assert ran == d.ran;
      } else {
        var m := RunScripts(accepts, d.state, DmlDirectory, SqlFiles(dml), applied);
        assert o == Outcome(m.state, m.ok, d.ran, m.ran);
        RanDistinctFresh(accepts, d.state, DmlDirectory, dml, applied);
        PhasesApart(accepts, b.state, d.state, ddl, dml, applied);
        ConcatDistinctFresh(d.ran, m.ran, applied);
      }
      LastNotLogged(st.log, ran);
    }
  }

  /** Running again with the updated log executes no script: after a
      successful deployment, a second one only reads the log, starts nothing,
      and leaves the log as it was. */
  lemma RerunExecutesNothing(accepts: Acceptor, st: DbState, ddl: seq<ScriptFile>, dml: seq<ScriptFile>)
    requires Deployment(accepts, st, ddl, dml).ok
    ensures var first := Deployment(accepts, st, ddl, dml);
      var second := Deployment(accepts, first.state, ddl, dml);
      && second.ddlRan == [] && second.dmlRan == []
      && second.state.log == first.state.log
      && second.state == ExecAll(accepts, first.state, BootstrapCommands).state
  {
    var first := Deployment(accepts, st, ddl, dml);
    DeploymentCoversAll(accepts, st, ddl, dml);
    BootstrapKeepsLog(accepts, first.state);
    var b := ExecAll(accepts, first.state, BootstrapCommands);
    if b.ok {
      NothingPendingRunsNothing(accepts, b.state, DdlDirectory, SqlFiles(ddl), b.state.log);
      NothingPendingRunsNothing(accepts, b.state, DmlDirectory, SqlFiles(dml), b.state.log);
    }
  }

  /** After a successful deployment the log holds the key of every script file. */
  lemma DeploymentCoversAll(accepts: Acceptor, st: DbState, ddl: seq<ScriptFile>, dml: seq<ScriptFile>)
    requires Deployment(accepts, st, ddl, dml).ok
    ensures var log := Deployment(accepts, st, ddl, dml).state.log;
      && (forall k :: 0 <= k < |SqlFiles(ddl)| ==> Key(DdlDirectory, SqlFiles(ddl)[k].name) in log)
      && (forall k :: 0 <= k < |SqlFiles(dml)| ==> Key(DmlDirectory, SqlFiles(dml)[k].name) in log)
  {
    BootstrapKeepsLog(accepts, st);
    var b := ExecAll(accepts, st, BootstrapCommands);
    var applied := b.state.log;
    var d := RunScripts(accepts, b.state, DdlDirectory, SqlFiles(ddl), applied);
    var m := RunScripts(accepts, d.state, DmlDirectory, SqlFiles(dml), applied);
    RanArePending(accepts, b.state, DdlDirectory, SqlFiles(ddl), applied);
    RanArePending(accepts, d.state, DmlDirectory, SqlFiles(dml), applied);
    RunLogsCompleted(accepts, b.state, DdlDirectory, SqlFiles(ddl), applied);
    RunLogsCompleted(accepts, d.state, DmlDirectory, SqlFiles(dml), applied);
    AppliedOrPending(DdlDirectory, SqlFiles(ddl), applied);
    AppliedOrPending(DmlDirectory, SqlFiles(dml), applied);
  }

  // ---------------------------------------------------------------------------
  // The runner, step by step

  /** The connection: the commands submitted over it so far and the rows of
      ETL_DEPLOY_LOG_NEW. */
  class Database {
    var history: seq<Command>
    var log: set<string>
    const accepts: Acceptor

    constructor (accepts: Acceptor, log: set<string>)
      ensures this.accepts == accepts && history == [] && this.log == log
    {
      this.accepts := accepts;
      this.history := [];
      this.log := log;
    }

    function State(): DbState
      reads this
    {
      DbState(history, log)
    }

    /** `conn.cursor().execute(command)`: `ok` is false where it raises. */
    method Submit(c: Command) returns (ok: bool)
      modifies this
      ensures Exec(State(), ok) == Step(accepts, old(State()), c)
    {
      ok := accepts(history, c);
      if ok && c.InsertLog? {
        log := log + {c.key};
      }
      history := history + [c];
    }
  }

  /** `get_applied_scripts` (lines 5-15): make sure the log table exists, then
      read it. */
  method GetAppliedScripts(db: Database) returns (ok: bool, applied: set<string>)
    modifies db
    ensures Exec(db.State(), ok) == ExecAll(db.accepts, old(db.State()), BootstrapCommands)
    ensures ok ==> applied == db.log
  {
    ExecAllCons(db.accepts, db.State(), CreateLogTable, [SelectLog]);
    ok := db.Submit(CreateLogTable);
    if !ok {
      return false, {};
    }
    ExecAllCons(db.accepts, db.State(), SelectLog, []);
    ok := db.Submit(SelectLog);
    applied := if ok then db.log else {};
  }

  lemma StripAllFrom(pieces: seq<string>, k: nat)
    requires k < |pieces|
    ensures StripAll(pieces[k..]) == [Strip(pieces[k])] + StripAll(pieces[k + 1..])
  {
    assert pieces[k..][0] == pieces[k] && pieces[k..][1..] == pieces[k + 1..];
  }

  lemma NonEmptyCons(x: string, xs: seq<string>)
    ensures NonEmpty([x] + xs) == (if x != [] then [x] else []) + NonEmpty(xs)
  {
    assert ([x] + xs)[0] == x && ([x] + xs)[1..] == xs;
  }

  lemma AsCommandsAppend(a: seq<string>, b: seq<string>)
    ensures AsCommands(a + b) == AsCommands(a) + AsCommands(b)
  {
    assert AsCommands(a + b) == AsCommands(a) + AsCommands(b);
  }

  /** The commands still due once the first `k` pieces of a script are done. */
  lemma RemainingCommands(pieces: seq<string>, k: nat, insert: Command)
    requires k < |pieces|
    ensures var s := Strip(pieces[k]);
      AsCommands(NonEmpty(StripAll(pieces[k..]))) + [insert]
      == (if s != [] then [Statement(s)] else []) + (AsCommands(NonEmpty(StripAll(pieces[k + 1..]))) + [insert])
  {
    var s := Strip(pieces[k]);
    var rest := StripAll(pieces[k + 1..]);
    StripAllFrom(pieces, k);
    NonEmptyCons(s, rest);
    var head := if s != [] then [s] else [];
    AsCommandsAppend(head, NonEmpty(rest));
    assert AsCommands(head) == if s != [] then [Statement(s)] else [];
  }

  /** One script (lines 25-41): each stripped, non-empty piece in turn, then
      the log insert; the first failure ends it. */
  method RunScript(db: Database, directory: string, file: ScriptFile) returns (ok: bool)
    modifies db
    ensures Exec(db.State(), ok) == ExecAll(db.accepts, old(db.State()), ScriptCommands(directory, file))
  {
    var text := TranslateNewlines(file.text);
    var pieces := Split(text, ';');
    ghost var st0 := db.State();
    var insert := InsertLog(Key(directory, file.name));
    assert pieces[0..] == pieces;
    for k := 0 to |pieces|
      invariant ExecAll(db.accepts, st0, ScriptCommands(directory, file))
        == ExecAll(db.accepts, db.State(), AsCommands(NonEmpty(StripAll(pieces[k..]))) + [insert])
    {
      RemainingCommands(pieces, k, insert);
      var stmt := Strip(pieces[k]);
      if stmt != [] {
        ExecAllCons(db.accepts, db.State(), Statement(stmt), AsCommands(NonEmpty(StripAll(pieces[k + 1..]))) + [insert]);
        ok := db.Submit(Statement(stmt));
        if !ok {
          return;
        }
      }
    }
    assert AsCommands(NonEmpty(StripAll(pieces[|pieces|..]))) == [];
    ExecAllCons(db.accepts, db.State(), insert, []);
    ok := db.Submit(insert);
  }

  /** `run_new_sql_scripts` (lines 17-41): the `*.sql` files in sorted order;
      skip the applied ones, run the others, stop at the first failure. */
  method RunNewSqlScripts(db: Database, directory: string, entries: seq<ScriptFile>, applied: set<string>) returns (ok: bool)
    modifies db
    ensures var r := RunScripts(db.accepts, old(db.State()), directory, SqlFiles(entries), applied);
      db.State() == r.state && ok == r.ok
  {
    ghost var st0 := db.State();
    var files := SqlFiles(entries);
    ok := true;
    assert files[0..] == files;
    for i := 0 to |files|
      invariant ok
      invariant var r0 := RunScripts(db.accepts, st0, directory, files, applied);
        var ri := RunScripts(db.accepts, db.State(), directory, files[i..], applied);
        r0.state == ri.state && r0.ok == ri.ok
    {
      assert files[i..][0] == files[i] && files[i..][1..] == files[i + 1..];
      var key := Key(directory, files[i].name);
      if key in applied {
        continue;
      }
      ok := RunScript(db, directory, files[i]);
      if !ok {
        return;
      }
    }
  }

  /** `main` (lines 54-58): read the applied set once, run the DDL directory,
      then the DML directory; the first failure ends the deployment. */
  method RunDeployment(db: Database, ddl: seq<ScriptFile>, dml: seq<ScriptFile>) returns (ok: bool)
    modifies db
    ensures var o := Deployment(db.accepts, old(db.State()), ddl, dml);
      db.State() == o.state && ok == o.ok
  {
    var applied;
    ok, applied := GetAppliedScripts(db);
    if !ok {
      return;
    }
    ok := RunNewSqlScripts(db, DdlDirectory, ddl, applied);
    if !ok {
      return;
    }
    ok := RunNewSqlScripts(db, DmlDirectory, dml, applied);
  }
}
