# Elasticsearch bootstrap, modelled in Dafny

This project models the entry point of the Elasticsearch server process:
the class `org.elasticsearch.bootstrap.Elasticsearch`. Its `main` runs
phase 1 (security-property overrides, the permissive security manager,
reading the server arguments from the CLI process, logging set-up). It
then writes the pid file and calls `Bootstrap.init`. Finally it writes the
ready marker and hands its streams off, or it reports the failure and exits
with the code the catch ladder assigns.

Every side effect is modelled as an event in one trace. Side effects are
lines and markers on stderr, flushes, closing the streams, the pid-file
shutdown hook and writes, starting the node, starting the monitor thread,
and `System.exit`. What the collaborators do is an input (`Startup.Collaborators`):

- which phase-1 steps throw;
- the decoded server arguments;
- the file-system answers;
- the pid;
- how `Bootstrap.init` ends.

Modules:

- `JavaLang`: nullable strings and their string conversion, and the
  decimal parse/print pair `Integer.valueOf` / `Integer.toString` over
  ASCII digits and the 32-bit signed range.
- `ShutdownMonitor`: the exit-code rule of the stdin monitor thread.
- `SecurityOverrides`: `initSecurityProperties` as specification
  functions, with lemmas about the override loop.
- `Startup`: the events, the phase-1 steps and the whole of `main` as
  specification functions, with lemmas about ordering, exits and output.
- `Elasticsearch`: the class `Jvm`. It holds the system properties, the
  security properties (updated in place) and the trace. Its methods
  mirror the static methods of the Java class and their parts: the pieces
  of the try block of `initPhase1`, the two halves of `main` and the body
  of the monitor thread. The methods for whole operations are proved to
  append exactly what the `Startup` or `SecurityOverrides` specification
  says; the pieces of the try block are proved to keep the trace on course
  for that specification.

Some values are defined outside this class: `ExitCodes.CONFIG`, the
shutdown marker, the ready marker and the user-exception marker. The exit
code and the shutdown marker are parameters. The two markers are events.

## Model

| member | source | states |
|---|---|---|
| JavaLang.NatToString | server/src/main/java/org/elasticsearch/bootstrap/Elasticsearch.java:229 | The decimal text of the pid has canonical digits, and starts with '0' only for 0 |
| JavaLang.DigitsValueOfNatToString | server/src/main/java/org/elasticsearch/bootstrap/Elasticsearch.java:229 | Reading the printed pid back as digits gives the pid |
| JavaLang.ParseIntToString | server/src/main/java/org/elasticsearch/bootstrap/Elasticsearch.java:239 | Integer.valueOf reads back every 32-bit value that Integer.toString prints, and the printed text is canonical |
| JavaLang.PrintParsedCanonical | server/src/main/java/org/elasticsearch/bootstrap/Elasticsearch.java:239 | A canonical text that parses prints back to itself, so canonical texts and 32-bit values correspond one to one |
| JavaLang.CanonicalizeIdempotent | server/src/main/java/org/elasticsearch/bootstrap/Elasticsearch.java:239 | The valueOf/toString round trip gives a canonical text with the same value, and applying it again changes nothing |
| JavaLang.CanonicalizeSignAndZeros | server/src/main/java/org/elasticsearch/bootstrap/Elasticsearch.java:239 | "+05" is normalised to "5" and "-0" to "0" |
| JavaLang.ParseIntRejectsMalformed | server/src/main/java/org/elasticsearch/bootstrap/Elasticsearch.java:239-240 | The empty text, a lone sign, "1e3" and " 1" raise NumberFormatException |
| JavaLang.ParseIntBounds | server/src/main/java/org/elasticsearch/bootstrap/Elasticsearch.java:239-240 | 2147483648 is out of range; -2147483648 is accepted |
| ShutdownMonitor.Received | server/src/main/java/org/elasticsearch/bootstrap/Elasticsearch.java:189-193 | msg is the value read() returned, or -1 when read() throws |
| ShutdownMonitor.MonitorExitCode | server/src/main/java/org/elasticsearch/bootstrap/Elasticsearch.java:195-200 | The monitor exits 0 exactly when read() returned the shutdown marker, and 1 on end of stream, any other byte or an IOException |
| Elasticsearch.Jvm.RunCliMonitor | server/src/main/java/org/elasticsearch/bootstrap/Elasticsearch.java:188-202 | The monitor body appends exactly one exit, with the code of MonitorExitCode |
| Elasticsearch.Jvm.StartCliMonitorThread | server/src/main/java/org/elasticsearch/bootstrap/Elasticsearch.java:187-203 | Starting the monitor appends only the thread start |
| SecurityOverrides.FirstRejected | server/src/main/java/org/elasticsearch/bootstrap/Elasticsearch.java:233-242 | The position of the first override that is set but does not parse: none before it is rejected |
| SecurityOverrides.ApplyOverridesStopsAtFirstRejected | server/src/main/java/org/elasticsearch/bootstrap/Elasticsearch.java:233-244 | The loop fails exactly at the first rejected override, with the message naming it and its value, having applied only the overrides before it |
| SecurityOverrides.ApplyOverridesUntouched | server/src/main/java/org/elasticsearch/bootstrap/Elasticsearch.java:233-244 | A property not visited, or whose override is unset, keeps its value or its absence |
| SecurityOverrides.ApplyOverridesCanonical | server/src/main/java/org/elasticsearch/bootstrap/Elasticsearch.java:236-239 | After a completed loop every visited property with an override holds the normalised override |
| SecurityOverrides.AbsentOverrideUntouched | server/src/main/java/org/elasticsearch/bootstrap/Elasticsearch.java:235-236 | Every security property other than policy.expandProperties and the set overrides keeps its value or its absence |
| SecurityOverrides.ValidOverridesNormalised | server/src/main/java/org/elasticsearch/bootstrap/Elasticsearch.java:239-247 | On normal completion each set override is stored in canonical form with the same value, normalising it again is a no-op, and policy.expandProperties is "true" |
| SecurityOverrides.FailsIffSomeOverrideRejected | server/src/main/java/org/elasticsearch/bootstrap/Elasticsearch.java:236-242 | The method throws exactly when some set override does not parse |
| SecurityOverrides.RejectedOverrideAborts | server/src/main/java/org/elasticsearch/bootstrap/Elasticsearch.java:240-247 | A rejected override throws "failed to parse [es.<prop>] with value [<v>]"; later properties and policy.expandProperties are left as they were |
| SecurityOverrides.PlusZeroFiveStoredAsFive | server/src/main/java/org/elasticsearch/bootstrap/Elasticsearch.java:239 | An override "+05" of the positive cache TTL is stored as "5" |
| Elasticsearch.Jvm.InitSecurityProperties | server/src/main/java/org/elasticsearch/bootstrap/Elasticsearch.java:232-248 | The for loop leaves the security properties and the failure exactly as SecurityOverrides.InitSecurityProperties specifies, and writes nothing |
| Startup.FirstThrow | server/src/main/java/org/elasticsearch/bootstrap/Elasticsearch.java:121-152 | The position of the first phase-1 step that throws: every step before it returns normally |
| Startup.RunStepsShape | server/src/main/java/org/elasticsearch/bootstrap/Elasticsearch.java:121-157 | A run of the steps is the steps before the first thrower, then the report of its exception |
| Startup.RunStepsOrder | server/src/main/java/org/elasticsearch/bootstrap/Elasticsearch.java:121-152 | Distinct steps run in their listed order, and none at or after the first thrower runs |
| Startup.Phase1Order | server/src/main/java/org/elasticsearch/bootstrap/Elasticsearch.java:123-152 | The phase-1 steps run in the fixed order, and no step runs after the first one that throws |
| Startup.Phase1CompletesIffNoThrow | server/src/main/java/org/elasticsearch/bootstrap/Elasticsearch.java:121-160 | Phase 1 completes exactly when no step throws |
| Startup.Phase1Completed | server/src/main/java/org/elasticsearch/bootstrap/Elasticsearch.java:121-152 | A completed phase 1 runs every step, in order, and nothing else |
| Startup.Phase1Failed | server/src/main/java/org/elasticsearch/bootstrap/Elasticsearch.java:153-157 | A failed phase 1 runs the steps before the thrower, then a stack trace, a flush and exit(1) |
| Startup.LoggingLast | server/src/main/java/org/elasticsearch/bootstrap/Elasticsearch.java:149-152 | Logging is configured exactly when phase 1 completes, and is then its last step |
| Startup.MalformedOverrideFailsFirst | server/src/main/java/org/elasticsearch/bootstrap/Elasticsearch.java:122-157 | A rejected security override makes main print only its stack trace, flush and exit(1) |
| Startup.MalformedOverrideEndsMain | server/src/main/java/org/elasticsearch/bootstrap/Elasticsearch.java:122-157 | A set override that does not parse ends main after exactly three events: the stack trace of the first rejected override, whose message names it and its value, a flush and exit(1); logging is never configured |
| Startup.Phase1FailureReported | server/src/main/java/org/elasticsearch/bootstrap/Elasticsearch.java:153-157 | After a phase-1 failure main writes only the steps that ran, a stack trace, a flush and exit(1): no marker, no hint, no phase 2 |
| Startup.PrologueQuiet | server/src/main/java/org/elasticsearch/bootstrap/Elasticsearch.java:45-55 | Once phase 1 completes, what comes before the outcome of phase 2 prints nothing on out or err and does not exit |
| Startup.MainAfterPhase1 | server/src/main/java/org/elasticsearch/bootstrap/Elasticsearch.java:45-70 | Once phase 1 completes, main is the prologue followed by the outcome of phase 2 |
| Startup.FailureAfterSteps | server/src/main/java/org/elasticsearch/bootstrap/Elasticsearch.java:153-157 | The generic report after steps that only prepared ends in exit(1), its only exit, with no ready marker |
| Startup.HandOffAfterPreparation | server/src/main/java/org/elasticsearch/bootstrap/Elasticsearch.java:57-62 | The ready marker then the stream hand-off: one marker, no exit, closing out and err or starting the monitor |
| Startup.UserReportAfterPreparation | server/src/main/java/org/elasticsearch/bootstrap/Elasticsearch.java:73-77 | A user-exception report ends with marker, message, hint, flush and exit(code), its only exit and only marker |
| Startup.UnknownReportAfterPreparation | server/src/main/java/org/elasticsearch/bootstrap/Elasticsearch.java:79-83 | An unknown-exception report ends with the fatal log entry naming the failure, hint, flush and exit(1), with no marker |
| Startup.ReadyMarkerOnlyOnSuccess | server/src/main/java/org/elasticsearch/bootstrap/Elasticsearch.java:47-70 | The ready marker is never written on a failure path; on success it is written once, right after Bootstrap.init returns, which comes after phase 1 and the pid file |
| Startup.EndingsOfMain | server/src/main/java/org/elasticsearch/bootstrap/Elasticsearch.java:41-71 | main exits at most once, as its last event, with the code the catch ladder assigns (ExpectedExit); it returns without exiting exactly when the node started |
| Startup.EndingAfterFailedPhase1 | server/src/main/java/org/elasticsearch/bootstrap/Elasticsearch.java:153-157 | A failed phase 1 ends main with exit(1) as its only and last event of that kind, and no ready marker |
| Startup.EndingAfterPhase2Failure | server/src/main/java/org/elasticsearch/bootstrap/Elasticsearch.java:47-70 | A failure in phase 2 ends main with the expected exit code as its only exit, and no ready marker |
| Startup.EndingAfterStart | server/src/main/java/org/elasticsearch/bootstrap/Elasticsearch.java:47-62 | A started node does not exit, and the ready marker follows the call of Bootstrap.init, once |
| Startup.SuccessHandsOffStreams | server/src/main/java/org/elasticsearch/bootstrap/Elasticsearch.java:56-62 | On success a daemonized node closes out then err and starts no monitor; an attached node starts the monitor and closes nothing |
| Startup.UserFailureReported | server/src/main/java/org/elasticsearch/bootstrap/Elasticsearch.java:64-67 | NodeValidationException and UserException end with marker, message, hint, flush and exit with ExitCodes.CONFIG or the exception's code; no ready marker |
| Startup.UnknownFailureReported | server/src/main/java/org/elasticsearch/bootstrap/Elasticsearch.java:68-69 | Any other throwable in phase 2, an IOException from initPidFile included, ends with the fatal log entry naming the pid-file IOException or the node's throwable, hint, flush and exit(1), with no marker |
| Startup.AttachedNodeEndsByMonitor | server/src/main/java/org/elasticsearch/bootstrap/Elasticsearch.java:187-202 | Once an attached node is up, the monitor's exit is the process's only exit, and it is 0 exactly on the shutdown marker |
| Startup.PidFileHookFirst | server/src/main/java/org/elasticsearch/bootstrap/Elasticsearch.java:210-230 | A null path does nothing; otherwise the cleanup hook comes first and only once, and on success the last effect writes the decimal pid, which reads back as the pid |
| Startup.LogsSuggestionNamesLogFile | server/src/main/java/org/elasticsearch/bootstrap/Elasticsearch.java:167-177 | The hint is the fixed text followed by base path, separator, cluster name and ".log"; an unset base path shows as "null" |
| Startup.LogsSuggestionReadsLoggingProperties | server/src/main/java/org/elasticsearch/bootstrap/Elasticsearch.java:168-175 | The hint depends on es.logs.base_path, file.separator and es.logs.cluster_name alone |
| Elasticsearch.Jvm.SystemExit | server/src/main/java/org/elasticsearch/bootstrap/Elasticsearch.java:108-111 | Appends the exit with its code |
| Elasticsearch.Jvm.SendGenericException | server/src/main/java/org/elasticsearch/bootstrap/Elasticsearch.java:86-89 | Appends the stack trace of the cause, then a flush |
| Elasticsearch.Jvm.PrintLogsSuggestion | server/src/main/java/org/elasticsearch/bootstrap/Elasticsearch.java:167-177 | Appends one line, the hint LogsSuggestion built from the system properties |
| Elasticsearch.Jvm.GracefullyExit | server/src/main/java/org/elasticsearch/bootstrap/Elasticsearch.java:91-95 | Appends the hint, a flush and the exit with the given code |
| Elasticsearch.Jvm.ExitWithUserException | server/src/main/java/org/elasticsearch/bootstrap/Elasticsearch.java:73-77 | Appends the user-exception marker, the message ("null" when absent) and the graceful exit |
| Elasticsearch.Jvm.ExitWithUnknownException | server/src/main/java/org/elasticsearch/bootstrap/Elasticsearch.java:79-83 | Appends the fatal log entry naming the failure, and the graceful exit with code 1 |
| Elasticsearch.Jvm.SecurityStep | server/src/main/java/org/elasticsearch/bootstrap/Elasticsearch.java:123 | initSecurityProperties as the first statement of the try block: it throws exactly as the overrides decide, and otherwise is recorded as run |
| Elasticsearch.Jvm.CallStep | server/src/main/java/org/elasticsearch/bootstrap/Elasticsearch.java:130-152 | A collaborator step is skipped once an exception was thrown; otherwise it throws as its collaborator does, or is recorded as run |
| Elasticsearch.Jvm.StaticInitialisation | server/src/main/java/org/elasticsearch/bootstrap/Elasticsearch.java:122-138 | The first four steps keep the trace on course for Phase1Events and set the security properties as specified |
| Elasticsearch.Jvm.ReadArguments | server/src/main/java/org/elasticsearch/bootstrap/Elasticsearch.java:140-147 | Reading the arguments, the environment and the console keep the trace on course for Phase1Events |
| Elasticsearch.Jvm.ConfigureLogging | server/src/main/java/org/elasticsearch/bootstrap/Elasticsearch.java:149-152 | The node name and the logging configuration, last, complete the run of Phase1Events |
| Elasticsearch.Jvm.InitPhase1 | server/src/main/java/org/elasticsearch/bootstrap/Elasticsearch.java:120-161 | Appends exactly Phase1Events, returns whether phase 1 completed, and leaves the security properties as initSecurityProperties sets them |
| Elasticsearch.Jvm.InitPidFile | server/src/main/java/org/elasticsearch/bootstrap/Elasticsearch.java:210-230 | Appends exactly PidFileEvents and reports an IOException exactly when PidFileFails |
| Elasticsearch.Jvm.NodeOutcomeHandling | server/src/main/java/org/elasticsearch/bootstrap/Elasticsearch.java:57-70 | Appends exactly NodeEvents: the hand-off after Bootstrap.init returns, or the catch ladder's report |
| Elasticsearch.Jvm.Phase2 | server/src/main/java/org/elasticsearch/bootstrap/Elasticsearch.java:47-70 | Appends exactly Phase2Events: initPidFile, Bootstrap.init, and the outcome |
| Elasticsearch.Jvm.Start | server/src/main/java/org/elasticsearch/bootstrap/Elasticsearch.java:41-71 | Appends exactly StartupTrace, the whole of main, and sets the security properties as specified |

## Left out

- The standard streams, `PrintStream` and `System.exit` are not modelled as I/O. Each appears as an event in the trace. The model stops following a run at its exit event.
- The monitor thread and its concurrency with the running node are left out. Only its exit-code rule is modelled. `Startup.Lifetime` appends that exit after a trace that ends by starting the monitor. Starting the monitor thread is taken never to throw. In Java a Throwable from `Thread.start()` would follow the ready marker with the unknown-exception report and exit(1); `ReadyMarkerOnlyOnSuccess` relies on this assumption.
- Real file-system effects are not modelled. Registering the cleanup hook, creating the parent directories and writing the file are events. Running the hook, which deletes the file at exit, is not modelled. The pid is a given natural number rather than `ProcessHandle.pid()`.
- Code outside this class is not part of this model. This covers the security manager installation, `LogConfigurator`, `BootstrapInfo`, `ConsoleLoader`, `Environment`, `Bootstrap.init` and `Node`. Each is a step that returns or throws, as the inputs say. A throw while building the `Environment` argument of `Bootstrap.init` is folded into `Crashed` after the `StartNode` event. In Java, `Bootstrap.init` is never entered in that case, but err and the exit code are the same.
- `ServerArgs` decoding from stdin is left out. The decoded daemonize flag and pid-file path are inputs. The quiet flag is left out, because it only reaches `LogConfigurator.configure`, which is not part of this model.
- The concrete values of `ExitCodes.CONFIG`, the ready, user-exception and shutdown markers are not defined in this class. The exit code and the shutdown marker are parameters; the two printed markers are events. The shutdown marker is taken to be non-negative (a char). If it were -1, end of stream would give exit 0.
- `Integer.valueOf` also accepts non-ASCII Unicode digits. The model accepts ASCII digits only.
- Java assertions are treated as disabled. With assertions enabled, a null `es.logs.base_path` or a relative pid-file path would raise an `AssertionError`. The model prints "null" for an unset property. A relative pid-file path with no parent (such as `es.pid`) makes `Files.exists(null)` throw a NullPointerException after the hook is registered, which `catch (Throwable)` reports. The model can express that run only as a missing parent whose creation fails, and so reports it as the `PidFileIo` failure.
- Exceptions are reduced to what the code reads from them. That is the message and exit code of a user exception, the message of a rejected override, and the step that threw. Stack traces name their cause. The fatal log entry names whether it logs the IOException of `initPidFile` or what `Bootstrap.init` threw.
- The properties that `LogConfigurator` sets (`es.logs.*`) are read from the fixed system-property map given to `Jvm`, as they would stand when the hint is printed.
- The model covers one run of `main`: the system properties and the collaborators' answers are fixed for that run.
