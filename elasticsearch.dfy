/** The class Elasticsearch itself: its static methods, run against the
    global state they touch. That state is one JVM: its system properties
    (read only), its security properties (updated in place), and the trace
    of everything observable it does — lines on err, closing the streams,
    the shutdown hook, the pid file, starting the node and the monitor
    thread, and System.exit. Each method is proved against the
    specification functions of Startup and SecurityOverrides. */
module Elasticsearch {
  import opened JavaLang
  import opened Startup
  import SecurityOverrides
  import ShutdownMonitor

  class Jvm {
    /** System.getProperty. */
    const system: map<string, string>
    /** ExitCodes.CONFIG. */
    const configExitCode: int
    /** java.security.Security's properties. */
    var security: map<string, string>
    /** Everything observable done so far, in order. */
    var trace: seq<Event>

    constructor(system: map<string, string>, security: map<string, string>, configExitCode: int)
      ensures this.system == system && this.configExitCode == configExitCode
      ensures this.security == security && trace == []
    {
      this.system := system;
      this.configExitCode := configExitCode;
      this.security := security;
      trace := [];
    }

    // -------------------------------------------------------------------
    // initSecurityProperties

    /** Overrides the DNS-cache security properties from "es."-prefixed
        system properties, normalising each value, then turns on property
        expansion; a value that does not parse ends the method with the
        message of its IllegalArgumentException, leaving what was set so far. */
    method InitSecurityProperties() returns (failure: Option<string>)
      modifies this
      ensures SecurityOverrides.Outcome(security, failure)
              == SecurityOverrides.InitSecurityProperties(system, old(security))
      ensures trace == old(trace)
    {
      var names := SecurityOverrides.OverridableProperties;
      for i := 0 to |names|
        invariant SecurityOverrides.ApplyOverrides(system, security, names[i..])
                  == SecurityOverrides.ApplyOverrides(system, old(security), names)
        invariant trace == old(trace)
      {
        var property := names[i];
        var overrideProperty := SecurityOverrides.OverrideName(property);
        assert names[i..][1..] == names[i + 1..];
        if overrideProperty in system {
          var overrideValue := system[overrideProperty];
          match ParseInt(overrideValue)
          case None =>
            failure := Some(SecurityOverrides.ParseFailure(overrideProperty, overrideValue));
            return;
          case Some(v) =>
            security := security[property := IntToString(v)];
        }
      }
      security := security[SecurityOverrides.ExpandProperties := "true"];
      failure := None;
    }

    // -------------------------------------------------------------------
    // Writing to err and exiting

    /** System.exit: recorded, and the caller returns at once. */
    method SystemExit(code: int)
      modifies this
      ensures trace == old(trace) + [Exit(code)]
      ensures security == old(security)
    {
      trace := trace + [Exit(code)];
    }

    /** sendGenericException: the stack trace of the cause, then a flush. */
    method SendGenericException(cause: Cause)
      modifies this
      ensures trace == old(trace) + [StackTrace(cause), Flush]
      ensures security == old(security)
    {
      trace := trace + [StackTrace(cause)];
      trace := trace + [Flush];
    }

    /** printLogsSuggestion: the hint built from the logging properties. */
    method PrintLogsSuggestion()
      modifies this
      ensures trace == old(trace) + [Line(LogsSuggestion(system))]
      ensures security == old(security)
    {
      var basePath := Lookup(system, "es.logs.base_path");
      var separator := Lookup(system, "file.separator");
      var clusterName := Lookup(system, "es.logs.cluster_name");
      var line := LogsHintPrefix + StringOf(basePath) + StringOf(separator) + StringOf(clusterName) + ".log";
      AppendAssociative(LogsHintPrefix, StringOf(basePath), StringOf(separator));
      AppendAssociative(LogsHintPrefix, StringOf(basePath) + StringOf(separator), StringOf(clusterName));
      AppendAssociative(LogsHintPrefix, StringOf(basePath) + StringOf(separator) + StringOf(clusterName), ".log");
      trace := trace + [Line(line)];
    }

    /** gracefullyExit: the hint, a flush, then exit with the code. */
    method GracefullyExit(code: int)
      modifies this
      ensures trace == old(trace) + GracefulExit(system, code)
      ensures security == old(security)
    {
      PrintLogsSuggestion();
      trace := trace + [Flush];
      SystemExit(code);
    }

    /** exitWithUserException: the marker and the message, then a graceful
        exit with the given code. */
    method ExitWithUserException(code: int, message: Option<string>)
      modifies this
      ensures trace == old(trace) + UserExceptionExit(system, code, message)
      ensures security == old(security)
    {
      trace := trace + [UserExceptionMarker];
      trace := trace + [Line(StringOf(message))];
      GracefullyExit(code);
    }

    /** exitWithUnknownException: the fatal log entry, then a graceful exit
        with code 1. */
    method ExitWithUnknownException(failure: Phase2Failure)
      modifies this
      ensures trace == old(trace) + UnknownExceptionExit(system, failure)
      ensures security == old(security)
    {
      trace := trace + [LogFatal(failure)];
      GracefullyExit(1);
    }

    // -------------------------------------------------------------------
    // initPhase1

    /** Where phase 1 stands after its first k steps, as the run `goal` it
        is to produce sees it: with no exception yet, the trace followed by
        the run of the remaining steps is the goal, and every step so far
        succeeded; once one was thrown, the trace followed by its report is
        the goal, and phase 1 does not complete. */
    ghost predicate OnTrack(thrown: Option<Cause>, k: nat, securityFailure: Option<string>,
                            failing: set<Step>, goal: seq<Event>)
      reads this
    {
      && k <= |Phase1Steps|
      && (thrown.None? ==>
            && trace + RunSteps(Phase1Steps[k..], securityFailure, failing) == goal
            && (k > 0 ==> securityFailure.None?)
            && forall j :: 1 <= j < k ==> Phase1Steps[j] !in failing)
      && (thrown.Some? ==>
            && trace + GenericExceptionExit(thrown.value) == goal
            && !Phase1Completes(securityFailure, failing))
    }

    /** The first statement of the try block: initSecurityProperties, whose
        IllegalArgumentException is the first way phase 1 can fail. */
    method SecurityStep(failing: set<Step>, ghost goal: seq<Event>) returns (thrown: Option<Cause>)
      requires trace + Phase1Events(SecurityFailure(system, security), failing) == goal
      modifies this
      ensures thrown == Throws(SecurityProperties, SecurityFailure(system, old(security)), failing)
      ensures OnTrack(thrown, 1, SecurityFailure(system, old(security)), failing, goal)
      ensures security == SecurityOverrides.InitSecurityProperties(system, old(security)).props
    {
      ghost var sf := SecurityFailure(system, security);
      assert Phase1Steps[0] == SecurityProperties;
      var failure := InitSecurityProperties();
      if failure.Some? {
        thrown := Some(BadOverride(failure.value));
      } else {
        AppendAssociative(trace, [Ran(SecurityProperties)], RunSteps(Phase1Steps[1..], sf, failing));
        trace := trace + [Ran(SecurityProperties)];
        thrown := None;
      }
    }

    /** One later statement of the try block: a collaborator step that
        throws or runs and is recorded. Once an exception has been thrown the
        rest of the block is skipped, so the step does nothing. */
    method CallStep(step: Step, thrown: Option<Cause>, failing: set<Step>,
                    ghost securityFailure: Option<string>, ghost k: nat, ghost goal: seq<Event>)
      returns (next: Option<Cause>)
      requires 1 <= k < |Phase1Steps| && Phase1Steps[k] == step
      requires OnTrack(thrown, k, securityFailure, failing, goal)
      modifies this
      ensures next == if thrown.Some? then thrown else Throws(step, securityFailure, failing)
      ensures OnTrack(next, k + 1, securityFailure, failing, goal)
      ensures security == old(security)
    {
      if thrown.Some? {
        return thrown;
      }
      assert Phase1Steps[k..][1..] == Phase1Steps[k + 1..];
      if step in failing {
        next := Some(StepThrew(step));
      } else {
        AppendAssociative(trace, [Ran(step)], RunSteps(Phase1Steps[k + 1..], securityFailure, failing));
        trace := trace + [Ran(step)];
        next := None;
      }
    }

    /** The static initialisation that opens the try block of initPhase1:
        the security properties, the permissive security manager, the
        logging error listener and BootstrapInfo. */
    method StaticInitialisation(failing: set<Step>, ghost goal: seq<Event>) returns (thrown: Option<Cause>)
      requires trace + Phase1Events(SecurityFailure(system, security), failing) == goal
      modifies this
      ensures OnTrack(thrown, 4, SecurityFailure(system, old(security)), failing, goal)
      ensures security == SecurityOverrides.InitSecurityProperties(system, old(security)).props
    {
      ghost var sf := SecurityFailure(system, security);
      thrown := SecurityStep(failing, goal);
      thrown := CallStep(SecurityManager, thrown, failing, sf, 1, goal);
      thrown := CallStep(ErrorListener, thrown, failing, sf, 2, goal);
      thrown := CallStep(BootstrapInfoInit, thrown, failing, sf, 3, goal);
    }

    /** The middle of the try block: the server arguments read from the CLI
        process, the minimal environment built from them, and the console. */
    method ReadArguments(thrown: Option<Cause>, failing: set<Step>,
                         ghost securityFailure: Option<string>, ghost goal: seq<Event>)
      returns (next: Option<Cause>)
      requires OnTrack(thrown, 4, securityFailure, failing, goal)
      modifies this
      ensures OnTrack(next, 7, securityFailure, failing, goal)
      ensures security == old(security)
    {
      next := CallStep(ReadServerArgs, thrown, failing, securityFailure, 4, goal);
      next := CallStep(MinimalEnvironment, next, failing, securityFailure, 5, goal);
      next := CallStep(Console, next, failing, securityFailure, 6, goal);
    }

    /** The end of the try block, which must stay last: the node name for
        the logs, then the logging configuration. */
    method ConfigureLogging(thrown: Option<Cause>, failing: set<Step>,
                            ghost securityFailure: Option<string>, ghost goal: seq<Event>)
      returns (next: Option<Cause>)
      requires OnTrack(thrown, 7, securityFailure, failing, goal)
      modifies this
      ensures OnTrack(next, |Phase1Steps|, securityFailure, failing, goal)
      ensures security == old(security)
    {
      next := CallStep(NodeName, thrown, failing, securityFailure, 7, goal);
      next := CallStep(Logging, next, failing, securityFailure, 8, goal);
    }

    /** initPhase1: the try block in its three parts; its first exception is reported with its
        stack trace and ends the process with exit(1). Returns whether phase 1
        completed. */
    method InitPhase1(failing: set<Step>) returns (completed: bool)
      modifies this
      ensures trace == old(trace) + Phase1Events(SecurityFailure(system, old(security)), failing)
      ensures completed == Phase1Completes(SecurityFailure(system, old(security)), failing)
      ensures security == SecurityOverrides.InitSecurityProperties(system, old(security)).props
    {
      ghost var goal := trace + Phase1Events(SecurityFailure(system, security), failing);
      ghost var sf := SecurityFailure(system, security);
      var thrown := StaticInitialisation(failing, goal);
      thrown := ReadArguments(thrown, failing, sf, goal);
      thrown := ConfigureLogging(thrown, failing, sf, goal);
      if thrown.Some? {
        ghost var beforeReport := trace;
        SendGenericException(thrown.value);
        SystemExit(1);
        assert trace == beforeReport + GenericExceptionExit(thrown.value);
        completed := false;
      } else {
        assert Phase1Steps[|Phase1Steps|..] == [];
        OnlySecurityStepLeft(failing);
        completed := true;
      }
    }

    // -------------------------------------------------------------------
    // Phase 2

    /** initPidFile: nothing for a null path; otherwise the cleanup hook,
        the parent directories when missing, and the decimal pid. Returns
        whether an IOException ended it. */
    method InitPidFile(pidFile: Option<string>, pid: nat, io: PidIo) returns (ioFailed: bool)
      modifies this
      ensures trace == old(trace) + PidFileEvents(pidFile, pid, io)
      ensures ioFailed == PidFileFails(pidFile, io)
      ensures security == old(security)
    {
      if pidFile.None? {
        return false;
      }
      var path := pidFile.value;
      trace := trace + [RegisterPidCleanup(path)];
      if !io.parentExists {
        if io.createFails {
          return true;
        }
        trace := trace + [CreateParentDirs(path)];
      }
      if io.writeFails {
        return true;
      }
      trace := trace + [WritePidFile(path, NatToString(pid))];
      return false;
    }

    /** startCliMonitorThread: the thread is started; what it does is
        RunCliMonitor. */
    method StartCliMonitorThread()
      modifies this
      ensures trace == old(trace) + [StartMonitor]
      ensures security == old(security)
    {
      trace := trace + [StartMonitor];
    }

    /** The body of the monitor thread: one read of stdin, -1 when it
        throws, then exit 0 on the shutdown marker and 1 otherwise. */
    method RunCliMonitor(read: ShutdownMonitor.ReadResult, shutdownMarker: nat)
      modifies this
      ensures trace == old(trace) + [Exit(ShutdownMonitor.MonitorExitCode(read, shutdownMarker))]
      ensures security == old(security)
    {
      var msg := -1;
      if read.Returned? {
        msg := read.value;
      }
      if msg == shutdownMarker {
        SystemExit(0);
      } else {
        SystemExit(1);
      }
    }

    /** The node's fate once Bootstrap.init has been entered: on return the
        ready marker, then either the streams are closed (daemonized) or the
        monitor thread is started; on an exception the catch ladder —
        NodeValidationException exits with ExitCodes.CONFIG, UserException
        with its own code, anything else as an unknown exception. */
    method NodeOutcomeHandling(daemonize: bool, node: NodeOutcome)
      modifies this
      ensures trace == old(trace) + NodeEvents(system, configExitCode, daemonize, node)
      ensures security == old(security)
    {
      match node
      case Started =>
        trace := trace + [ReadyMarker];
        if daemonize {
          trace := trace + [CloseOut];
          trace := trace + [CloseErr];
        } else {
          StartCliMonitorThread();
        }
      case ValidationFailed(m) =>
        ExitWithUserException(configExitCode, m);
      case UserError(code, m) =>
        ExitWithUserException(code, m);
      case Crashed =>
        ExitWithUnknownException(NodeCrashed);
    }

    /** The try block of main after phase 1: initPidFile, whose IOException
        is caught as an unknown exception, then Bootstrap.init. */
    method Phase2(c: Collaborators)
      modifies this
      ensures trace == old(trace) + Phase2Events(system, configExitCode, c)
      ensures security == old(security)
    {
      var pidFailed := InitPidFile(c.args.pidFile, c.pid, c.pidIo);
      ghost var launched := trace;
      if pidFailed {
        ExitWithUnknownException(PidFileIo);
      } else {
        trace := trace + [StartNode(!c.args.daemonize, c.args.pidFile)];
        launched := trace;
        NodeOutcomeHandling(c.args.daemonize, c.node);
      }
      assert launched == old(trace) + Launch(c);
      AppendAssociative(old(trace), Launch(c), Phase2Outcome(system, configExitCode, c));
    }

    /** main: phase 1, and phase 2 when phase 1 did not exit. */
    method Start(c: Collaborators)
      modifies this
      ensures trace == old(trace) + StartupTrace(system, old(security), configExitCode, c)
      ensures security == SecurityOverrides.InitSecurityProperties(system, old(security)).props
    {
      ghost var sf := SecurityFailure(system, security);
      var completed := InitPhase1(c.failing);
      if completed {
        Phase2(c);
        AppendAssociative(old(trace), Phase1Events(sf, c.failing), Phase2Events(system, configExitCode, c));
      }
    }
  }
}
