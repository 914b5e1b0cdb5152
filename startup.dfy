/** The bootstrap sequence of Elasticsearch.main as a specification: what the
    process writes to its streams, which steps it runs and when it exits,
    given what each collaborator does. Every side effect is an event in one
    trace; standard-stream output, System.exit, file writes and thread starts
    appear only as events. */
module Startup {
  import opened JavaLang
  import SecurityOverrides
  import ShutdownMonitor

  // ---------------------------------------------------------------------
  // Phase 1: the steps that must happen before logging exists

  datatype Step =
    | SecurityProperties   // initSecurityProperties()
    | SecurityManager      // install the grant-everything security manager
    | ErrorListener        // LogConfigurator.registerErrorListener()
    | BootstrapInfoInit    // BootstrapInfo.init()
    | ReadServerArgs       // decode ServerArgs from stdin, leaving it open
    | MinimalEnvironment   // Environment from node settings and config dir
    | Console              // BootstrapInfo.setConsole(ConsoleLoader.loadConsole(env))
    | NodeName             // LogConfigurator.setNodeName(...)
    | Logging              // LogConfigurator.configure(env, !quiet)

  /** The order in which initPhase1 runs its steps; logging comes last. */
  const Phase1Steps: seq<Step> :=
    [SecurityProperties, SecurityManager, ErrorListener, BootstrapInfoInit,
     ReadServerArgs, MinimalEnvironment, Console, NodeName, Logging]

  /** Why phase 1 failed: a rejected security override (with its message) or
      an exception from one of the collaborator steps. */
  datatype Cause = BadOverride(message: string) | StepThrew(step: Step)

  // ---------------------------------------------------------------------
  // Observable events

  datatype Event =
    | Ran(step: Step)                                 // a phase-1 step returned normally
    | StackTrace(cause: Cause)                        // t.printStackTrace(err)
    | Flush                                           // err.flush()
    | Exit(code: int)                                 // System.exit(code)
    | RegisterPidCleanup(path: string)                // shutdown hook deleting the pid file
    | CreateParentDirs(path: string)                  // Files.createDirectories(path.getParent())
    | WritePidFile(path: string, content: string)     // Files.writeString(path, pid)
    | StartNode(foreground: bool, pidFile: Option<string>)  // the arguments of Bootstrap.init were built and it was entered
    | ReadyMarker                                     // err.println(SERVER_READY_MARKER)
    | CloseOut                                        // out.close()
    | CloseErr                                        // err.close()
    | StartMonitor                                    // startCliMonitorThread(System.in)
    | UserExceptionMarker                             // err.print(USER_EXCEPTION_MARKER)
    | Line(text: string)                              // err.println(text)
    | LogFatal(failure: Phase2Failure)                // logger.error("fatal exception ...", t)

  // ---------------------------------------------------------------------
  // What the collaborators do: inputs of the model

  /** The fields of the decoded server arguments that the bootstrap reads
      itself; settings, config dir and keystore password only travel on. */
  datatype ServerArgs = ServerArgs(daemonize: bool, pidFile: Option<string>)

  /** The Throwable that the last catch clause of main logs: the
      IOException of initPidFile, or whatever else Bootstrap.init threw. */
  datatype Phase2Failure = PidFileIo | NodeCrashed

  /** The file-system answers met by initPidFile. */
  datatype PidIo = PidIo(parentExists: bool, createFails: bool, writeFails: bool)

  /** What Bootstrap.init does: return, or throw one of the three kinds of
      exception the catch ladder tells apart. */
  datatype NodeOutcome =
    | Started
    | ValidationFailed(message: Option<string>)           // NodeValidationException
    | UserError(exitCode: int, message: Option<string>)   // UserException
    | Crashed                                             // any other Throwable

  datatype Collaborators = Collaborators(
    failing: set<Step>,  // the collaborator steps of phase 1 that throw
    args: ServerArgs,    // what ReadServerArgs decodes
    pidIo: PidIo,
    pid: nat,            // ProcessHandle.current().pid()
    node: NodeOutcome)

  // ---------------------------------------------------------------------
  // Phase 1 as a trace

  /** The exception a step throws, if any. The security-properties step is
      decided by the overrides; the others by the collaborators. */
  function Throws(s: Step, securityFailure: Option<string>, failing: set<Step>): Option<Cause>
  {
    if s == SecurityProperties then
      match securityFailure
      case None => None
      case Some(m) => Some(BadOverride(m))
    else if s in failing then Some(StepThrew(s))
    else None
  }

  /** sendGenericException followed by exit(1). */
  function GenericExceptionExit(c: Cause): seq<Event>
  {
    [StackTrace(c), Flush, Exit(1)]
  }

  function RanAll(steps: seq<Step>): seq<Event>
  {
    seq(|steps|, i requires 0 <= i < |steps| => Ran(steps[i]))
  }

  /** Runs the steps in order; the first exception is reported and ends the
      process, so no later step runs. */
  function RunSteps(steps: seq<Step>, securityFailure: Option<string>, failing: set<Step>): seq<Event>
    decreases |steps|
  {
    if steps == [] then []
    else
      match Throws(steps[0], securityFailure, failing)
      case Some(c) => GenericExceptionExit(c)
      case None => [Ran(steps[0])] + RunSteps(steps[1..], securityFailure, failing)
  }

  /** The position of the first step that throws, or |steps|. */
  function FirstThrow(steps: seq<Step>, securityFailure: Option<string>, failing: set<Step>): (k: nat)
    ensures k <= |steps|
    ensures forall j :: 0 <= j < k ==> Throws(steps[j], securityFailure, failing).None?
    ensures k < |steps| ==> Throws(steps[k], securityFailure, failing).Some?
    decreases |steps|
  {
    if steps == [] || Throws(steps[0], securityFailure, failing).Some? then 0
    else 1 + FirstThrow(steps[1..], securityFailure, failing)
  }

  function Phase1Events(securityFailure: Option<string>, failing: set<Step>): seq<Event>
  {
    RunSteps(Phase1Steps, securityFailure, failing)
  }

  /** Phase 1 completes when no override is rejected and no collaborator
      step throws. */
  predicate Phase1Completes(securityFailure: Option<string>, failing: set<Step>)
  {
    securityFailure.None? && failing <= {SecurityProperties}
  }

  // ---------------------------------------------------------------------
  // Phase 2 as a trace

  /** initPidFile throws an IOException. */
  predicate PidFileFails(pidFile: Option<string>, io: PidIo)
  {
    pidFile.Some? && ((!io.parentExists && io.createFails) || io.writeFails)
  }

  /** initPidFile: nothing for a null path; otherwise the cleanup hook first,
      then the parent directories if missing, then the decimal pid. */
  function PidFileEvents(pidFile: Option<string>, pid: nat, io: PidIo): seq<Event>
  {
    match pidFile
    case None => []
    case Some(path) =>
      [RegisterPidCleanup(path)]
      + (if io.parentExists || io.createFails then [] else [CreateParentDirs(path)])
      + (if PidFileFails(pidFile, io) then [] else [WritePidFile(path, NatToString(pid))])
  }

  const LogsHintPrefix: string := "ERROR: Elasticsearch did not exit normally - check the logs at "

  /** The log file named by the hint, read from the system properties; an
      unset property reads as "null", as Java's string concatenation does. */
  function LogFile(system: map<string, string>): string
  {
    StringOf(Lookup(system, "es.logs.base_path"))
    + StringOf(Lookup(system, "file.separator"))
    + StringOf(Lookup(system, "es.logs.cluster_name"))
    + ".log"
  }

  /** printLogsSuggestion: the fixed hint followed by the log file path. */
  function LogsSuggestion(system: map<string, string>): string
  {
    LogsHintPrefix + LogFile(system)
  }

  /** The hint starts with the fixed text, goes on with the log file path
      and ends in ".log"; an unset property shows as "null". */
  lemma LogsSuggestionNamesLogFile(system: map<string, string>)
    ensures var line := LogsSuggestion(system);
      && |line| >= |LogsHintPrefix| + 4
      && line[..|LogsHintPrefix|] == LogsHintPrefix
      && line[|LogsHintPrefix|..] == LogFile(system)
      && line[|line| - 4..] == ".log"
    ensures "es.logs.base_path" !in system ==>
      LogsSuggestion(system)[|LogsHintPrefix|..|LogsHintPrefix| + 4] == "null"
  {
  }

  /** The hint reads no system property but the three logging ones. */
  lemma LogsSuggestionReadsLoggingProperties(system1: map<string, string>, system2: map<string, string>)
    requires Lookup(system1, "es.logs.base_path") == Lookup(system2, "es.logs.base_path")
    requires Lookup(system1, "file.separator") == Lookup(system2, "file.separator")
    requires Lookup(system1, "es.logs.cluster_name") == Lookup(system2, "es.logs.cluster_name")
    ensures LogsSuggestion(system1) == LogsSuggestion(system2)
  {
  }

  /** gracefullyExit(err, code). */
  function GracefulExit(system: map<string, string>, code: int): seq<Event>
  {
    [Line(LogsSuggestion(system)), Flush, Exit(code)]
  }

  /** exitWithUserException(err, code, e). */
  function UserExceptionExit(system: map<string, string>, code: int, message: Option<string>): seq<Event>
  {
    [UserExceptionMarker, Line(StringOf(message))] + GracefulExit(system, code)
  }

  /** exitWithUnknownException(err, t). */
  function UnknownExceptionExit(system: map<string, string>, failure: Phase2Failure): seq<Event>
  {
    [LogFatal(failure)] + GracefulExit(system, 1)
  }

  /** After Bootstrap.init: the ready marker and the stream hand-off, or the
      catch ladder. */
  function NodeEvents(system: map<string, string>, configExitCode: int, daemonize: bool, node: NodeOutcome): seq<Event>
  {
    match node
    case Started => [ReadyMarker] + (if daemonize then [CloseOut, CloseErr] else [StartMonitor])
    case ValidationFailed(m) => UserExceptionExit(system, configExitCode, m)
    case UserError(code, m) => UserExceptionExit(system, code, m)
    case Crashed => UnknownExceptionExit(system, NodeCrashed)
  }

  /** What phase 2 does before its outcome is known: initPidFile and, when
      that returned, the call of Bootstrap.init (attached to the terminal
      unless daemonized). */
  function Launch(c: Collaborators): seq<Event>
  {
    PidFileEvents(c.args.pidFile, c.pid, c.pidIo)
    + (if PidFileFails(c.args.pidFile, c.pidIo) then [] else [StartNode(!c.args.daemonize, c.args.pidFile)])
  }

  /** How phase 2 ends: the catch ladder's report for an IOException from
      initPidFile, otherwise what follows Bootstrap.init. */
  function Phase2Outcome(system: map<string, string>, configExitCode: int, c: Collaborators): seq<Event>
  {
    if PidFileFails(c.args.pidFile, c.pidIo) then UnknownExceptionExit(system, PidFileIo)
    else NodeEvents(system, configExitCode, c.args.daemonize, c.node)
  }

  /** The try block of main and its catch ladder. */
  function Phase2Events(system: map<string, string>, configExitCode: int, c: Collaborators): seq<Event>
  {
    Launch(c) + Phase2Outcome(system, configExitCode, c)
  }

  /** main, given whether initSecurityProperties threw (and with what
      message): phase 1, then phase 2 if phase 1 completed; a failed
      phase 1 has already exited. */
  function MainEvents(system: map<string, string>, securityFailure: Option<string>,
                      configExitCode: int, c: Collaborators): seq<Event>
  {
    if Phase1Completes(securityFailure, c.failing)
    then Phase1Events(securityFailure, c.failing) + Phase2Events(system, configExitCode, c)
    else Phase1Events(securityFailure, c.failing)
  }

  /** Whether and how initSecurityProperties throws. */
  function SecurityFailure(system: map<string, string>, security: map<string, string>): Option<string>
  {
    SecurityOverrides.InitSecurityProperties(system, security).failure
  }

  /** The whole of main, from the given system and security properties. */
  function StartupTrace(system: map<string, string>, security: map<string, string>,
                        configExitCode: int, c: Collaborators): seq<Event>
  {
    MainEvents(system, SecurityFailure(system, security), configExitCode, c)
  }

  // ---------------------------------------------------------------------
  // Reference definitions for the properties

  /** Phase 1 completes, the pid file is written and Bootstrap.init returns. */
  predicate StartsUp(securityFailure: Option<string>, c: Collaborators)
  {
    && Phase1Completes(securityFailure, c.failing)
    && !PidFileFails(c.args.pidFile, c.pidIo)
    && c.node.Started?
  }

  /** The exit code main ends with, by the catch ladder, or None when main
      returns normally and the process lives on. */
  function ExpectedExit(securityFailure: Option<string>, configExitCode: int, c: Collaborators): Option<int>
  {
    if !Phase1Completes(securityFailure, c.failing) then Some(1)
    else if PidFileFails(c.args.pidFile, c.pidIo) then Some(1)
    else
      match c.node
      case Started => None
      case ValidationFailed(_) => Some(configExitCode)
      case UserError(code, _) => Some(code)
      case Crashed => Some(1)
  }

  /** System.exit does not return: nothing follows an exit. */
  predicate ExitIsTerminal(t: seq<Event>)
  {
    forall i :: 0 <= i < |t| && t[i].Exit? ==> i == |t| - 1
  }

  predicate NoExit(t: seq<Event>)
  {
    forall i :: 0 <= i < |t| ==> !t[i].Exit?
  }

  /** Everything the process does: main, then, when main left the monitor
      running, the monitor's exit once its read is over. */
  function Lifetime(t: seq<Event>, read: ShutdownMonitor.ReadResult, shutdownMarker: nat): seq<Event>
  {
    if |t| > 0 && t[|t| - 1] == StartMonitor
    then t + [Exit(ShutdownMonitor.MonitorExitCode(read, shutdownMarker))]
    else t
  }

  // ---------------------------------------------------------------------
  // Lemmas: phase 1

  /** A run of the steps is the steps before the first thrower, each
      reported as run, followed by the report of the exception if any. */
  lemma {:induction false} RunStepsShape(steps: seq<Step>, securityFailure: Option<string>, failing: set<Step>)
    ensures var k := FirstThrow(steps, securityFailure, failing);
      RunSteps(steps, securityFailure, failing)
      == RanAll(steps[..k])
         + (if k < |steps| then GenericExceptionExit(Throws(steps[k], securityFailure, failing).value) else [])
    decreases |steps|
  {
    if steps != [] && Throws(steps[0], securityFailure, failing).None? {
      RunStepsShape(steps[1..], securityFailure, failing);
      var k := FirstThrow(steps, securityFailure, failing);
      assert steps[..k][1..] == steps[1..][..k - 1];
      RanAllCons(steps[..k]);
    }
  }

  lemma RanAllCons(steps: seq<Step>)
    requires |steps| > 0
    ensures RanAll(steps) == [Ran(steps[0])] + RanAll(steps[1..])
  {
  }

  /** No step is listed twice. */
  predicate Distinct(steps: seq<Step>)
  {
    forall i, j :: 0 <= i < j < |steps| ==> steps[i] != steps[j]
  }

  /** The position of each step in Phase1Steps. */
  function StepIndex(s: Step): (i: nat)
    ensures i < |Phase1Steps| && Phase1Steps[i] == s
  {
    match s
    case SecurityProperties => 0
    case SecurityManager => 1
    case ErrorListener => 2
    case BootstrapInfoInit => 3
    case ReadServerArgs => 4
    case MinimalEnvironment => 5
    case Console => 6
    case NodeName => 7
    case Logging => 8
  }

  lemma Phase1StepsDistinct()
    ensures Distinct(Phase1Steps)
  {
    forall i | 0 <= i < |Phase1Steps|
      ensures StepIndex(Phase1Steps[i]) == i
    {
    }
  }

  /** A run of distinct steps reports the steps before the first thrower in
      their order, and none after it. */
  lemma RunStepsOrder(steps: seq<Step>, securityFailure: Option<string>, failing: set<Step>)
    requires Distinct(steps)
    ensures var e := RunSteps(steps, securityFailure, failing);
      var k := FirstThrow(steps, securityFailure, failing);
      && (forall i :: 0 <= i < |e| && e[i].Ran? ==> i < k && e[i] == Ran(steps[i]))
      && (forall j :: k <= j < |steps| ==> Ran(steps[j]) !in e)
  {
    RunStepsShape(steps, securityFailure, failing);
  }

  /** The steps of phase 1 run in the fixed order and none runs after the
      first one that throws. */
  lemma Phase1Order(securityFailure: Option<string>, failing: set<Step>)
    ensures var e := Phase1Events(securityFailure, failing);
      var k := FirstThrow(Phase1Steps, securityFailure, failing);
      && (forall i :: 0 <= i < |e| && e[i].Ran? ==> i < k && e[i] == Ran(Phase1Steps[i]))
      && (forall j :: k <= j < |Phase1Steps| ==> Ran(Phase1Steps[j]) !in e)
  {
    Phase1StepsDistinct();
    RunStepsOrder(Phase1Steps, securityFailure, failing);
  }

  /** Phase 1 completes exactly when the run of its steps gets past the
      last one. */
  lemma Phase1CompletesIffNoThrow(securityFailure: Option<string>, failing: set<Step>)
    ensures Phase1Completes(securityFailure, failing)
            <==> FirstThrow(Phase1Steps, securityFailure, failing) == |Phase1Steps|
  {
    var k := FirstThrow(Phase1Steps, securityFailure, failing);
    if k == |Phase1Steps| {
      assert Throws(Phase1Steps[0], securityFailure, failing).None?;
      forall s | s in failing
        ensures s == SecurityProperties
      {
        assert Throws(Phase1Steps[StepIndex(s)], securityFailure, failing).None?;
      }
    }
  }

  /** When none of the collaborator steps throws, only the security step
      can stop phase 1. */
  lemma OnlySecurityStepLeft(failing: set<Step>)
    requires forall j :: 1 <= j < |Phase1Steps| ==> Phase1Steps[j] !in failing
    ensures failing <= {SecurityProperties}
  {
    forall s | s in failing
      ensures s == SecurityProperties
    {
      assert Phase1Steps[StepIndex(s)] == s;
    }
  }

  /** When phase 1 completes, every step has run, in order. */
  lemma Phase1Completed(securityFailure: Option<string>, failing: set<Step>)
    requires Phase1Completes(securityFailure, failing)
    ensures Phase1Events(securityFailure, failing) == RanAll(Phase1Steps)
  {
    Phase1CompletesIffNoThrow(securityFailure, failing);
    RunStepsShape(Phase1Steps, securityFailure, failing);
    assert Phase1Steps[..|Phase1Steps|] == Phase1Steps;
  }

  /** When phase 1 fails, the steps before the thrower have run and the
      exception of the thrower is reported last. */
  lemma Phase1Failed(securityFailure: Option<string>, failing: set<Step>)
    requires !Phase1Completes(securityFailure, failing)
    ensures var k := FirstThrow(Phase1Steps, securityFailure, failing);
      && k < |Phase1Steps|
      && Phase1Events(securityFailure, failing)
         == RanAll(Phase1Steps[..k]) + GenericExceptionExit(Throws(Phase1Steps[k], securityFailure, failing).value)
  {
    Phase1CompletesIffNoThrow(securityFailure, failing);
    RunStepsShape(Phase1Steps, securityFailure, failing);
  }

  /** Logging configuration runs exactly when phase 1 completes, and then
      as its last step. */
  lemma LoggingLast(securityFailure: Option<string>, failing: set<Step>)
    ensures var e := Phase1Events(securityFailure, failing);
      && (Ran(Logging) in e <==> Phase1Completes(securityFailure, failing))
      && (Phase1Completes(securityFailure, failing) ==> |e| > 0 && e[|e| - 1] == Ran(Logging))
  {
    if Phase1Completes(securityFailure, failing) {
      Phase1Completed(securityFailure, failing);
      var e := Phase1Events(securityFailure, failing);
      assert e[8] == Ran(Logging);
    } else {
      Phase1Order(securityFailure, failing);
      Phase1Failed(securityFailure, failing);
      assert Ran(Phase1Steps[8]) !in Phase1Events(securityFailure, failing);
    }
  }

  /** The events that only prepare the node: steps that ran, the pid-file
      effects and the call of Bootstrap.init. None of them is output or an
      exit. */
  predicate Preparatory(ev: Event)
  {
    ev.Ran? || ev.RegisterPidCleanup? || ev.CreateParentDirs? || ev.WritePidFile? || ev.StartNode?
  }

  predicate AllPreparatory(e: seq<Event>)
  {
    forall i :: 0 <= i < |e| ==> Preparatory(e[i])
  }

  /** What main does before the outcome of phase 2 is known. */
  function Prologue(securityFailure: Option<string>, c: Collaborators): seq<Event>
  {
    Phase1Events(securityFailure, c.failing) + Launch(c)
  }

  /** Once phase 1 completes, the prologue only prepares: it prints nothing
      on out or err and does not exit. */
  lemma PrologueQuiet(securityFailure: Option<string>, c: Collaborators)
    requires Phase1Completes(securityFailure, c.failing)
    ensures AllPreparatory(Prologue(securityFailure, c))
  {
    Phase1Completed(securityFailure, c.failing);
  }

  lemma AppendAssociative<T>(a: seq<T>, b: seq<T>, c: seq<T>)
    ensures a + (b + c) == (a + b) + c
  {
  }

  /** Once phase 1 completes, main is the prologue followed by the outcome
      of phase 2. */
  lemma MainAfterPhase1(system: map<string, string>, securityFailure: Option<string>,
                        configExitCode: int, c: Collaborators)
    requires Phase1Completes(securityFailure, c.failing)
    ensures MainEvents(system, securityFailure, configExitCode, c)
            == Prologue(securityFailure, c) + Phase2Outcome(system, configExitCode, c)
  {
    AppendAssociative(Phase1Events(securityFailure, c.failing), Launch(c), Phase2Outcome(system, configExitCode, c));
  }

  // ---------------------------------------------------------------------
  // Each ending of main, after a trace that only prepared

  /** The output events of a trace that only prepared are none. */
  lemma NoOutputInPreparation(before: seq<Event>)
    requires AllPreparatory(before)
    ensures NoExit(before)
    ensures ReadyMarker !in before && UserExceptionMarker !in before
    ensures forall i :: 0 <= i < |before| ==> !before[i].LogFatal?
    ensures StartMonitor !in before && CloseOut !in before && CloseErr !in before
  {
  }

  /** A trace that never exits, followed by one that exits at most at its
      end, exits at most at its end. */
  lemma TerminalAfterQuiet(a: seq<Event>, b: seq<Event>)
    requires NoExit(a) && ExitIsTerminal(b)
    ensures ExitIsTerminal(a + b)
  {
    forall i | 0 <= i < |a + b| && (a + b)[i].Exit?
      ensures i == |a + b| - 1
    {
      assert i >= |a| && b[i - |a|].Exit?;
    }
  }

  /** A failed phase 1: the steps that ran, then the generic report. */
  lemma FailureAfterSteps(ran: seq<Event>, cause: Cause)
    requires AllPreparatory(ran)
    ensures var t := ran + GenericExceptionExit(cause);
      && ExitIsTerminal(t) && !NoExit(t)
      && |t| > 0 && t[|t| - 1] == Exit(1)
      && ReadyMarker !in t
  {
    NoOutputInPreparation(ran);
    TerminalAfterQuiet(ran, GenericExceptionExit(cause));
    var t := ran + GenericExceptionExit(cause);
    assert t[|t| - 1].Exit?;
  }

  /** A started node: the ready marker, then the stream hand-off. */
  lemma HandOffAfterPreparation(before: seq<Event>, daemonize: bool)
    requires AllPreparatory(before)
    ensures var t := before + ([ReadyMarker] + (if daemonize then [CloseOut, CloseErr] else [StartMonitor]));
      && ExitIsTerminal(t) && NoExit(t)
      && |t| > |before| && t[..|before|] == before
      && ReadyMarker !in t[..|before|] && t[|before|] == ReadyMarker && ReadyMarker !in t[|before| + 1..]
      && (daemonize ==> |t| >= 3 && t[|t| - 3..] == [ReadyMarker, CloseOut, CloseErr] && StartMonitor !in t)
      && (!daemonize ==> |t| >= 2 && t[|t| - 2..] == [ReadyMarker, StartMonitor] && CloseOut !in t && CloseErr !in t)
  {
    var rest := [ReadyMarker] + (if daemonize then [CloseOut, CloseErr] else [StartMonitor]);
    NoOutputInPreparation(before);
    TerminalAfterQuiet(before, rest);
    var t := before + rest;
    forall i | 0 <= i < |t|
      ensures !t[i].Exit?
    {
      if i >= |before| {
        assert t[i] == rest[i - |before|];
      }
    }
    assert t[..|before|] == before;
    assert t[|t| - |rest|..] == rest;
  }

  /** A user failure: the marker, the message, the hint, a flush and the
      exit with the failure's code. */
  lemma UserReportAfterPreparation(before: seq<Event>, system: map<string, string>, code: int, message: Option<string>)
    requires AllPreparatory(before)
    ensures var t := before + UserExceptionExit(system, code, message);
      && ExitIsTerminal(t) && !NoExit(t)
      && |t| >= 5
      && t[|t| - 5..] == [UserExceptionMarker, Line(StringOf(message)), Line(LogsSuggestion(system)), Flush, Exit(code)]
      && UserExceptionMarker !in t[..|t| - 5]
      && ReadyMarker !in t
  {
    var rest := [UserExceptionMarker, Line(StringOf(message)), Line(LogsSuggestion(system)), Flush, Exit(code)];
    assert UserExceptionExit(system, code, message) == rest;
    NoOutputInPreparation(before);
    TerminalAfterQuiet(before, rest);
    var t := before + rest;
    assert t[|t| - 5..] == rest;
    assert t[|t| - 1].Exit?;
  }

  /** Any other failure: the fatal log entry, the hint, a flush and exit(1). */
  lemma UnknownReportAfterPreparation(before: seq<Event>, system: map<string, string>, failure: Phase2Failure)
    requires AllPreparatory(before)
    ensures var t := before + UnknownExceptionExit(system, failure);
      && ExitIsTerminal(t) && !NoExit(t)
      && |t| >= 4
      && t[|t| - 4..] == [LogFatal(failure), Line(LogsSuggestion(system)), Flush, Exit(1)]
      && UserExceptionMarker !in t
      && ReadyMarker !in t
  {
    var rest := [LogFatal(failure), Line(LogsSuggestion(system)), Flush, Exit(1)];
    assert UnknownExceptionExit(system, failure) == rest;
    NoOutputInPreparation(before);
    TerminalAfterQuiet(before, rest);
    var t := before + rest;
    assert t[|t| - 4..] == rest;
    assert t[|t| - 1].Exit?;
  }

  // ---------------------------------------------------------------------
  // Lemmas: the whole of main

  /** A malformed security override ends the process at once with a stack
      trace naming the override and exit code 1; logging is never
      configured. */
  lemma MalformedOverrideFailsFirst(system: map<string, string>, securityFailure: Option<string>,
                                    configExitCode: int, c: Collaborators)
    requires securityFailure.Some?
    ensures MainEvents(system, securityFailure, configExitCode, c)
            == [StackTrace(BadOverride(securityFailure.value)), Flush, Exit(1)]
  {
    RunStepsShape(Phase1Steps, securityFailure, c.failing);
    assert FirstThrow(Phase1Steps, securityFailure, c.failing) == 0;
    assert Phase1Steps[..0] == [];
  }

  /** A malformed security override ends main with the stack trace of the
      first rejected override, naming it and its value, then a flush and
      exit(1): logging is never configured. */
  lemma MalformedOverrideEndsMain(system: map<string, string>, security: map<string, string>,
                                  configExitCode: int, c: Collaborators, property: string)
    requires property in SecurityOverrides.OverridableProperties && SecurityOverrides.Rejected(system, property)
    ensures var t := StartupTrace(system, security, configExitCode, c);
      var k := SecurityOverrides.FirstRejected(system, SecurityOverrides.OverridableProperties);
      var p := SecurityOverrides.OverridableProperties[k];
      var o := SecurityOverrides.OverrideName(p);
      && k < |SecurityOverrides.OverridableProperties|
      && t == [StackTrace(BadOverride(SecurityOverrides.ParseFailure(o, system[o]))), Flush, Exit(1)]
      && Ran(Logging) !in t
  {
    SecurityOverrides.FailsIffSomeOverrideRejected(system, security);
    SecurityOverrides.RejectedOverrideAborts(system, security);
    MalformedOverrideFailsFirst(system, SecurityFailure(system, security), configExitCode, c);
  }

  /** A phase-1 failure writes only the steps that ran, a stack trace, a
      flush and exit(1): no marker, no hint, and phase 2 never starts. */
  lemma Phase1FailureReported(system: map<string, string>, securityFailure: Option<string>,
                              configExitCode: int, c: Collaborators)
    requires !Phase1Completes(securityFailure, c.failing)
    ensures var t := MainEvents(system, securityFailure, configExitCode, c);
      var k := FirstThrow(Phase1Steps, securityFailure, c.failing);
      && k < |Phase1Steps|
      && t == RanAll(Phase1Steps[..k])
              + GenericExceptionExit(Throws(Phase1Steps[k], securityFailure, c.failing).value)
      && (forall i :: 0 <= i < |t| - 3 ==> t[i].Ran?)
  {
    Phase1Failed(securityFailure, c.failing);
  }

  /** The ready marker is written once when the node starts and never on
      any failure path; it comes right after the call of Bootstrap.init,
      which in turn comes after phase 1 and the pid file. */
  lemma ReadyMarkerOnlyOnSuccess(system: map<string, string>, securityFailure: Option<string>,
                                 configExitCode: int, c: Collaborators)
    ensures !StartsUp(securityFailure, c) ==>
      ReadyMarker !in MainEvents(system, securityFailure, configExitCode, c)
    ensures StartsUp(securityFailure, c) ==>
      var t := MainEvents(system, securityFailure, configExitCode, c);
      var before := Prologue(securityFailure, c);
      && |before| > 0 && |t| > |before| && t[..|before|] == before
      && t[|before| - 1] == StartNode(!c.args.daemonize, c.args.pidFile)
      && ReadyMarker !in t[..|before|] && t[|before|] == ReadyMarker && ReadyMarker !in t[|before| + 1..]
  {
    if !Phase1Completes(securityFailure, c.failing) {
      EndingAfterFailedPhase1(system, securityFailure, configExitCode, c);
    } else if StartsUp(securityFailure, c) {
      EndingAfterStart(system, securityFailure, configExitCode, c);
    } else {
      EndingAfterPhase2Failure(system, securityFailure, configExitCode, c);
    }
  }

  /** How main ends, whichever way it goes: it exits at most once, as its
      last event, with the code the catch ladder assigns, and it returns
      without exiting exactly when the node started. */
  lemma EndingsOfMain(system: map<string, string>, securityFailure: Option<string>,
                             configExitCode: int, c: Collaborators)
    ensures var t := MainEvents(system, securityFailure, configExitCode, c);
      var expected := ExpectedExit(securityFailure, configExitCode, c);
      && ExitIsTerminal(t)
      && (expected.None? <==> NoExit(t))
      && (expected.Some? ==> |t| > 0 && t[|t| - 1] == Exit(expected.value))
      && (expected.None? <==> StartsUp(securityFailure, c))
  {
    if !Phase1Completes(securityFailure, c.failing) {
      EndingAfterFailedPhase1(system, securityFailure, configExitCode, c);
    } else if StartsUp(securityFailure, c) {
      EndingAfterStart(system, securityFailure, configExitCode, c);
    } else {
      EndingAfterPhase2Failure(system, securityFailure, configExitCode, c);
    }
  }

  lemma EndingAfterFailedPhase1(system: map<string, string>, securityFailure: Option<string>,
                             configExitCode: int, c: Collaborators)
    requires !Phase1Completes(securityFailure, c.failing)
    ensures var t := MainEvents(system, securityFailure, configExitCode, c);
      && ExitIsTerminal(t) && !NoExit(t)
      && ExpectedExit(securityFailure, configExitCode, c).Some?
      && |t| > 0 && t[|t| - 1] == Exit(ExpectedExit(securityFailure, configExitCode, c).value)
      && ReadyMarker !in t
  {
    Phase1Failed(securityFailure, c.failing);
    var k := FirstThrow(Phase1Steps, securityFailure, c.failing);
    FailureAfterSteps(RanAll(Phase1Steps[..k]), Throws(Phase1Steps[k], securityFailure, c.failing).value);
  }

  lemma EndingAfterPhase2Failure(system: map<string, string>, securityFailure: Option<string>,
                             configExitCode: int, c: Collaborators)
    requires Phase1Completes(securityFailure, c.failing)
    requires PidFileFails(c.args.pidFile, c.pidIo) || !c.node.Started?
    ensures var t := MainEvents(system, securityFailure, configExitCode, c);
      && ExitIsTerminal(t) && !NoExit(t)
      && ExpectedExit(securityFailure, configExitCode, c).Some?
      && |t| > 0 && t[|t| - 1] == Exit(ExpectedExit(securityFailure, configExitCode, c).value)
      && ReadyMarker !in t
  {
    PrologueQuiet(securityFailure, c);
    MainAfterPhase1(system, securityFailure, configExitCode, c);
    var before := Prologue(securityFailure, c);
    if PidFileFails(c.args.pidFile, c.pidIo) {
      UnknownReportAfterPreparation(before, system, PidFileIo);
    } else {
      match c.node
      case ValidationFailed(m) =>
        UserReportAfterPreparation(before, system, configExitCode, m);
      case UserError(code, m) =>
        UserReportAfterPreparation(before, system, code, m);
      case Crashed =>
        UnknownReportAfterPreparation(before, system, NodeCrashed);
    }
  }

  lemma EndingAfterStart(system: map<string, string>, securityFailure: Option<string>,
                             configExitCode: int, c: Collaborators)
    requires StartsUp(securityFailure, c)
    ensures var t := MainEvents(system, securityFailure, configExitCode, c);
      var before := Prologue(securityFailure, c);
      && ExitIsTerminal(t) && NoExit(t)
      && |before| > 0 && |t| > |before| && t[..|before|] == before
      && t[|before| - 1] == StartNode(!c.args.daemonize, c.args.pidFile)
      && ReadyMarker !in t[..|before|] && t[|before|] == ReadyMarker && ReadyMarker !in t[|before| + 1..]
  {
    PrologueQuiet(securityFailure, c);
    MainAfterPhase1(system, securityFailure, configExitCode, c);
    HandOffAfterPreparation(Prologue(securityFailure, c), c.args.daemonize);
  }

  /** On success a daemonized node closes out and then err and starts no
      monitor, an attached node starts the monitor and closes nothing. */
  lemma SuccessHandsOffStreams(system: map<string, string>, securityFailure: Option<string>,
                               configExitCode: int, c: Collaborators)
    requires StartsUp(securityFailure, c)
    ensures var t := MainEvents(system, securityFailure, configExitCode, c);
      && (c.args.daemonize ==>
            |t| >= 3 && t[|t| - 3..] == [ReadyMarker, CloseOut, CloseErr] && StartMonitor !in t)
      && (!c.args.daemonize ==>
            |t| >= 2 && t[|t| - 2..] == [ReadyMarker, StartMonitor] && CloseOut !in t && CloseErr !in t)
  {
    PrologueQuiet(securityFailure, c);
    MainAfterPhase1(system, securityFailure, configExitCode, c);
    HandOffAfterPreparation(Prologue(securityFailure, c), c.args.daemonize);
  }

  /** A NodeValidationException or UserException writes the user-exception
      marker, the exception's message, the hint and a flush, then exits
      with ExitCodes.CONFIG or the exception's own code; the ready marker is
      never written. */
  lemma UserFailureReported(system: map<string, string>, securityFailure: Option<string>,
                            configExitCode: int, c: Collaborators)
    requires Phase1Completes(securityFailure, c.failing)
    requires !PidFileFails(c.args.pidFile, c.pidIo)
    requires c.node.ValidationFailed? || c.node.UserError?
    ensures var t := MainEvents(system, securityFailure, configExitCode, c);
      var code := if c.node.ValidationFailed? then configExitCode else c.node.exitCode;
      && |t| >= 5
      && t[|t| - 5..] == [UserExceptionMarker, Line(StringOf(c.node.message)),
                          Line(LogsSuggestion(system)), Flush, Exit(code)]
      && UserExceptionMarker !in t[..|t| - 5]
      && ReadyMarker !in t
  {
    PrologueQuiet(securityFailure, c);
    MainAfterPhase1(system, securityFailure, configExitCode, c);
    var code := if c.node.ValidationFailed? then configExitCode else c.node.exitCode;
    UserReportAfterPreparation(Prologue(securityFailure, c), system, code, c.node.message);
  }

  /** Any other failure in phase 2, an IOException from initPidFile
      included, is logged without a marker, naming which it was, then the
      hint, a flush and exit(1). */
  lemma UnknownFailureReported(system: map<string, string>, securityFailure: Option<string>,
                               configExitCode: int, c: Collaborators)
    requires Phase1Completes(securityFailure, c.failing)
    requires PidFileFails(c.args.pidFile, c.pidIo) || c.node.Crashed?
    ensures var t := MainEvents(system, securityFailure, configExitCode, c);
      var failure := if PidFileFails(c.args.pidFile, c.pidIo) then PidFileIo else NodeCrashed;
      && |t| >= 4
      && t[|t| - 4..] == [LogFatal(failure), Line(LogsSuggestion(system)), Flush, Exit(1)]
      && UserExceptionMarker !in t
      && ReadyMarker !in t
  {
    PrologueQuiet(securityFailure, c);
    MainAfterPhase1(system, securityFailure, configExitCode, c);
    var failure := if PidFileFails(c.args.pidFile, c.pidIo) then PidFileIo else NodeCrashed;
    UnknownReportAfterPreparation(Prologue(securityFailure, c), system, failure);
  }

  /** Once an attached node is up, the monitor alone decides how the process
      ends: its exit is the only one, and it is 0 exactly when the byte read
      is the shutdown marker. */
  lemma AttachedNodeEndsByMonitor(system: map<string, string>, securityFailure: Option<string>,
                                  configExitCode: int, c: Collaborators,
                                  read: ShutdownMonitor.ReadResult, shutdownMarker: nat)
    requires StartsUp(securityFailure, c) && !c.args.daemonize
    ensures var life := Lifetime(MainEvents(system, securityFailure, configExitCode, c), read, shutdownMarker);
      && ExitIsTerminal(life)
      && |life| > 0 && life[|life| - 1].Exit?
      && (life[|life| - 1] == Exit(0) <==> read.Returned? && read.value == shutdownMarker)
  {
    EndingAfterStart(system, securityFailure, configExitCode, c);
    SuccessHandsOffStreams(system, securityFailure, configExitCode, c);
  }

  /** The pid file: nothing for a null path; otherwise the cleanup hook
      comes first, and on success the last effect writes the decimal pid,
      which reads back as the pid. */
  lemma PidFileHookFirst(pidFile: Option<string>, pid: nat, io: PidIo)
    ensures pidFile.None? ==> PidFileEvents(pidFile, pid, io) == []
    ensures pidFile.Some? ==>
      var e := PidFileEvents(pidFile, pid, io);
      && e[0] == RegisterPidCleanup(pidFile.value)
      && (forall i :: 0 < i < |e| ==> !e[i].RegisterPidCleanup?)
      && (!PidFileFails(pidFile, io) <==> e[|e| - 1].WritePidFile?)
      && (e[|e| - 1].WritePidFile? ==>
            && e[|e| - 1].path == pidFile.value
            && CanonicalDigits(e[|e| - 1].content)
            && DigitsValue(e[|e| - 1].content) == pid)
  {
    DigitsValueOfNatToString(pid);
  }
}
