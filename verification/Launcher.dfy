/**
 * LauncherManager (internal/launcher/domain/launcher_manager.go): the
 * table of supervised processes, the start/stop/restart commands that
 * change it, the command loop, and the restart policy applied to processes
 * that exit with an error. A process in the table is represented by its
 * lifecycle state (the Process module) and how it was launched. Binary
 * lookup, port allocation, starting and signalling processes are outcomes
 * looked up by service id in an `Env`; the service repository's status
 * records are state of the manager.
 */
module Launcher {
  import opened Wrappers
  import P = Process
  import S = Strs

  const OnFailure := "on-failure"

  datatype Service = Service(id: string, restartPolicy: string)

  /** The action codes of models.CommandAction. */
  const ActionStop := 1
  const ActionStart := 2
  const ActionRestart := 3

  datatype Command = Command(id: string, service: string, action: int)

  /** What the service repository records about a service. */
  datatype ServiceRecord = RunningAt(ip: string, port: string) | FailedWith(message: string) | StoppedManually

  datatype LaunchError =
    | AlreadyRunning(id: string)
    | BinaryNotFound(id: string)
    | NoFreePort(id: string)
    | StartFailed(id: string)
    | NoProcess(id: string)
    | NotRunning(id: string)
    | StopFailed(id: string)
    | ServiceNotFound(id: string)
    | UnknownAction(action: int, service: string)

  /** One entry of processList. */
  datatype ProcEntry = ProcEntry(state: P.ProcessState, executable: string, args: seq<string>)

  /**
   * The outcomes of the calls the manager makes, per service id: the service
   * record, the binary, a free address, whether the process starts, whether
   * SIGTERM can be delivered to it.
   */
  datatype Env = Env(
    findService: string -> Option<Service>,
    binary: string -> Option<string>,
    freePort: string -> Option<(string, nat)>,
    starts: string -> bool,
    signals: string -> bool)

  /** path.Join: the non-empty elements joined by "/", then cleaned; "" when all are empty. */
  function PathJoin(elems: seq<string>, clean: string -> string): string {
    var parts := S.NonEmpty(elems);
    if parts == [] then "" else clean(S.JoinWith(parts, "/"))
  }

  /**
   * buildArgs: the directory flags of a PocketBase instance, all under
   * dataDir/serviceID; `clean` is path.Clean.
   */
  function BuildArgs(dataDir: string, serviceId: string, clean: string -> string): (args: seq<string>)
    ensures |args| == 8
    ensures args[0] == "--dir" && args[2] == "--hooksDir" && args[4] == "--publicDir" && args[6] == "--migrationsDir"
  {
    var base := PathJoin([dataDir, serviceId], clean);
    ["--dir", PathJoin([base, "pb_data"], clean),
     "--hooksDir", PathJoin([base, "hooks"], clean),
     "--publicDir", PathJoin([base, "public"], clean),
     "--migrationsDir", PathJoin([base, "migrations"], clean)]
  }

  /** With a non-empty data directory and id, each directory is the cleaned "<base>/<name>". */
  lemma ArgsUnderServiceDir(dataDir: string, serviceId: string, clean: string -> string)
    requires dataDir != "" && serviceId != ""
    requires clean(dataDir + "/" + serviceId) != ""
    ensures var base := clean(dataDir + "/" + serviceId);
            var args := BuildArgs(dataDir, serviceId, clean);
            && args[1] == clean(base + "/" + "pb_data")
            && args[3] == clean(base + "/" + "hooks")
            && args[5] == clean(base + "/" + "public")
            && args[7] == clean(base + "/" + "migrations")
  {
    var base := clean(dataDir + "/" + serviceId);
    JoinTwo(dataDir, serviceId, clean);
    JoinTwo(base, "pb_data", clean);
    JoinTwo(base, "hooks", clean);
    JoinTwo(base, "public", clean);
    JoinTwo(base, "migrations", clean);
  }

  lemma JoinTwo(a: string, b: string, clean: string -> string)
    requires a != "" && b != ""
    ensures PathJoin([a, b], clean) == clean(a + "/" + b)
  {
    assert [a, b][1..] == [b];
    assert [b][1..] == [];
    S.NonEmptyOfNonEmpty([a, b]);
    assert S.JoinWith([a, b], "/") == a + "/" + S.JoinWith([b], "/");
  }

  /** fmt.Sprint of a port number. */
  function Decimal(n: nat): (s: string)
    ensures s != ""
    ensures forall c :: c in s ==> '0' <= c <= '9'
  {
    if n < 10 then [(('0' as int) + n) as char]
    else Decimal(n / 10) + [(('0' as int) + n % 10) as char]
  }

  /** The arguments of `serve`: the directory flags, then --http ip:port. */
  function ServeArgs(dataDir: string, serviceId: string, ip: string, port: nat, clean: string -> string): (args: seq<string>)
    ensures |args| == 11 && args[0] == "serve" && args[9] == "--http"
    ensures args[1..9] == BuildArgs(dataDir, serviceId, clean)
  {
    ["serve"] + BuildArgs(dataDir, serviceId, clean) + ["--http", ip + ":" + Decimal(port)]
  }

  /** The restart policy: a failed process is restarted only under "on-failure". */
  function RestartFor(err: P.ProcessErrorMessage, marked: bool, findService: string -> Option<Service>): (r: Option<string>)
    ensures r.Some? <==> marked && findService(err.id).Some? && findService(err.id).value.restartPolicy == OnFailure
    ensures r.Some? ==> r.value == findService(err.id).value.id
  {
    if !marked then None
    else match findService(err.id)
      case None => None
      case Some(s) => if s.restartPolicy != OnFailure then None else Some(s.id)
  }

  /** The services whose restart is published for a series of exit errors, in order. */
  function Restarts(errs: seq<P.ProcessErrorMessage>, marked: string -> bool, findService: string -> Option<Service>): (ids: seq<string>)
    ensures |ids| <= |errs|
  {
    if errs == [] then []
    else
      var r := RestartFor(errs[0], marked(errs[0].id), findService);
      (if r.Some? then [r.value] else []) + Restarts(errs[1..], marked, findService)
  }

  /** Every restarted id is that of an on-failure service some error was about. */
  lemma {:induction false} RestartsAreOnFailure(errs: seq<P.ProcessErrorMessage>, marked: string -> bool,
                                                findService: string -> Option<Service>)
    ensures forall id :: id in Restarts(errs, marked, findService) ==>
              exists s: Service :: s.id == id && s.restartPolicy == OnFailure
                && exists e: P.ProcessErrorMessage :: e in errs && findService(e.id) == Some(s)
  {
    if errs != [] {
      RestartsAreOnFailure(errs[1..], marked, findService);
      assert forall e :: e in errs[1..] ==> e in errs;
    }
  }

  /** Restarts seen from position `i`: the restart of error `i`, then those of the rest. */
  lemma RestartsStep(errs: seq<P.ProcessErrorMessage>, i: nat, marked: string -> bool, findService: string -> Option<Service>)
    requires i < |errs|
    ensures var r := RestartFor(errs[i], marked(errs[i].id), findService);
      Restarts(errs[i..], marked, findService) == (if r.Some? then [r.value] else []) + Restarts(errs[i + 1..], marked, findService)
  {
    assert errs[i..][1..] == errs[i + 1..];
  }

  /** The ids of the errors whose service record was written. */
  function MarkedIds(errs: seq<P.ProcessErrorMessage>, marked: string -> bool): set<string> {
    if errs == [] then {}
    else
      var last := errs[|errs| - 1];
      MarkedIds(errs[..|errs| - 1], marked) + (if marked(last.id) then {last.id} else {})
  }

  /** An id is marked exactly when some error about it had its record written. */
  lemma {:induction false} MarkedIdsMembers(errs: seq<P.ProcessErrorMessage>, marked: string -> bool, id: string)
    ensures id in MarkedIds(errs, marked) <==> exists e :: e in errs && e.id == id && marked(id)
  {
    if errs != [] {
      var init := errs[..|errs| - 1];
      MarkedIdsMembers(init, marked, id);
      assert errs == init + [errs[|errs| - 1]];
    }
  }

  /** One more error adds its id when its record was written. */
  lemma MarkedIdsStep(errs: seq<P.ProcessErrorMessage>, i: nat, marked: string -> bool)
    requires i < |errs|
    ensures MarkedIds(errs[..i + 1], marked) == MarkedIds(errs[..i], marked) + (if marked(errs[i].id) then {errs[i].id} else {})
  {
    assert errs[..i + 1][..i] == errs[..i];
  }

  /** The record a failed start leaves. */
  function StartFailure(): string {
    "failed to start process"
  }

  /** The part of the manager's state that commands change: the process table and the service records. */
  datatype Table = Table(processList: map<string, ProcEntry>, records: map<string, ServiceRecord>)

  /** No entry of the table is caught mid-start. */
  predicate NoneStarting(processList: map<string, ProcEntry>) {
    forall id :: id in processList ==> processList[id].state != P.Starting
  }

  predicate Running(t: Table, id: string) {
    id in t.processList && t.processList[id].state == P.Running
  }

  /** The table entry of a freshly started service. */
  function Launched(dataDir: string, clean: string -> string, service: Service, env: Env): ProcEntry
    requires env.binary(service.id).Some? && env.freePort(service.id).Some?
  {
    var addr := env.freePort(service.id).value;
    ProcEntry(P.Next(P.Stopped, P.StartSucceeded), env.binary(service.id).value,
              ServeArgs(dataDir, service.id, addr.0, addr.1, clean))
  }

  /** The record of a freshly started service: the address it listens on. */
  function RunningRecord(service: Service, env: Env): ServiceRecord
    requires env.freePort(service.id).Some?
  {
    RunningAt(env.freePort(service.id).value.0, Decimal(env.freePort(service.id).value.1))
  }

  /**
   * startService: refuses a service whose process is running; otherwise
   * finds the binary and a free address, starts a new process and records
   * it, or records the start failure.
   */
  function StartOutcome(dataDir: string, clean: string -> string, t: Table, service: Service, env: Env)
    : (r: (Option<LaunchError>, Table))
    ensures Running(t, service.id) ==> r == (Some(AlreadyRunning(service.id)), t)
    ensures r.0.None? <==> !Running(t, service.id) && env.binary(service.id).Some?
                           && env.freePort(service.id).Some? && env.starts(service.id)
    ensures r.0.None? ==>
      r.1 == Table(t.processList[service.id := Launched(dataDir, clean, service, env)],
                   t.records[service.id := RunningRecord(service, env)])
    ensures r.0 == Some(StartFailed(service.id)) ==> r.1 == t.(records := t.records[service.id := FailedWith(StartFailure())])
    ensures r.0.Some? && r.0 != Some(StartFailed(service.id)) ==> r.1 == t
    ensures NoneStarting(t.processList) ==> NoneStarting(r.1.processList)
  {
    if Running(t, service.id) then (Some(AlreadyRunning(service.id)), t)
    else if env.binary(service.id).None? then (Some(BinaryNotFound(service.id)), t)
    else if env.freePort(service.id).None? then (Some(NoFreePort(service.id)), t)
    else if !env.starts(service.id) then
      (Some(StartFailed(service.id)), t.(records := t.records[service.id := FailedWith(StartFailure())]))
    else
      (None, Table(t.processList[service.id := Launched(dataDir, clean, service, env)],
                   t.records[service.id := RunningRecord(service, env)]))
  }

  /**
   * stopService: needs a running process; a failed signal leaves it
   * running, a delivered one removes it from the table.
   */
  function StopOutcome(t: Table, id: string, env: Env): (r: (Option<LaunchError>, Table))
    ensures id !in t.processList ==> r.0 == Some(NoProcess(id))
    ensures id in t.processList && !Running(t, id) ==> r.0 == Some(NotRunning(id))
    ensures Running(t, id) && !env.signals(id) ==> r.0 == Some(StopFailed(id))
    ensures r.0.None? <==> Running(t, id) && env.signals(id)
    ensures r.0.None? ==> r.1 == Table(t.processList - {id}, t.records[id := StoppedManually])
    ensures r.0.Some? ==> r.1 == t
    ensures NoneStarting(t.processList) ==> NoneStarting(r.1.processList)
  {
    if id !in t.processList then (Some(NoProcess(id)), t)
    else if t.processList[id].state != P.Running then (Some(NotRunning(id)), t)
    else if !env.signals(id) then (Some(StopFailed(id)), t)
    else (None, Table(t.processList - {id}, t.records[id := StoppedManually]))
  }

  /**
   * restartService: stops the service if it is running, then starts it. A
   * successful restart leaves the table as a start from the old one would;
   * a start that fails after a successful stop leaves the service out of
   * the table with the record the failed start wrote over "stopped".
   */
  function RestartOutcome(dataDir: string, clean: string -> string, t: Table, service: Service, env: Env)
    : (r: (Option<LaunchError>, Table))
    ensures Running(t, service.id) && !env.signals(service.id) ==> r == (Some(StopFailed(service.id)), t)
    ensures !Running(t, service.id) ==> r == StartOutcome(dataDir, clean, t, service, env)
    ensures r.0.None? <==> (Running(t, service.id) ==> env.signals(service.id))
                           && env.binary(service.id).Some? && env.freePort(service.id).Some? && env.starts(service.id)
    ensures r.0.None? ==>
      r.1 == Table(t.processList[service.id := Launched(dataDir, clean, service, env)],
                   t.records[service.id := RunningRecord(service, env)])
    ensures Running(t, service.id) && env.signals(service.id) && r.0.Some? ==>
      r.1 == Table(t.processList - {service.id},
                   t.records[service.id := if r.0 == Some(StartFailed(service.id)) then FailedWith(StartFailure())
                                           else StoppedManually])
    ensures NoneStarting(t.processList) ==> NoneStarting(r.1.processList)
  {
    if Running(t, service.id) then
      var stopped := StopOutcome(t, service.id, env);
      if stopped.0.Some? then stopped else StartAfterStop(dataDir, clean, t, service, env)
    else StartOutcome(dataDir, clean, t, service, env)
  }

  /** The start half of a restart, from the table a successful stop left. */
  function StartAfterStop(dataDir: string, clean: string -> string, t: Table, service: Service, env: Env)
    : (r: (Option<LaunchError>, Table))
    requires Running(t, service.id) && env.signals(service.id)
    ensures r.0.None? <==> env.binary(service.id).Some? && env.freePort(service.id).Some? && env.starts(service.id)
    ensures r.0.None? ==>
      r.1 == Table(t.processList[service.id := Launched(dataDir, clean, service, env)],
                   t.records[service.id := RunningRecord(service, env)])
    ensures r.0.Some? ==>
      r.1 == Table(t.processList - {service.id},
                   t.records[service.id := if r.0 == Some(StartFailed(service.id)) then FailedWith(StartFailure())
                                           else StoppedManually])
  {
    var id := service.id;
    var stopped := Table(t.processList - {id}, t.records[id := StoppedManually]);
    assert !Running(stopped, id);
    if env.binary(id).Some? && env.freePort(id).Some? then
      RemoveThenSet(t.processList, id, Launched(dataDir, clean, service, env));
      SetTwice(t.records, id, StoppedManually, FailedWith(StartFailure()));
      StartOutcome(dataDir, clean, stopped, service, env)
    else StartOutcome(dataDir, clean, stopped, service, env)
  }

  lemma RemoveThenSet<K, V>(m: map<K, V>, k: K, v: V)
    ensures (m - {k})[k := v] == m[k := v]
  {
  }

  lemma SetTwice<K, V>(m: map<K, V>, k: K, v: V, w: V)
    ensures m[k := v][k := w] == m[k := w]
  {
  }

  /**
   * evaluateCommand: an unknown service or action code is refused and
   * changes nothing; code 1 stops, 2 starts and 3 restarts the service.
   */
  function EvaluateOutcome(dataDir: string, clean: string -> string, t: Table, cmd: Command, env: Env)
    : (r: (Option<LaunchError>, Table))
    ensures env.findService(cmd.service).None? ==> r == (Some(ServiceNotFound(cmd.service)), t)
    ensures env.findService(cmd.service).Some? && cmd.action !in {ActionStop, ActionStart, ActionRestart} ==>
              r == (Some(UnknownAction(cmd.action, cmd.service)), t)
    ensures env.findService(cmd.service).Some? && cmd.action == ActionStop ==>
              var id := env.findService(cmd.service).value.id;
              (r.0.None? <==> Running(t, id) && env.signals(id))
              && (r.0.None? ==> r.1 == Table(t.processList - {id}, t.records[id := StoppedManually]))
              && (r.0.Some? ==> r.1 == t)
    ensures env.findService(cmd.service).Some? && cmd.action == ActionStart ==>
              var s := env.findService(cmd.service).value;
              (r.0.None? <==> !Running(t, s.id) && env.binary(s.id).Some? && env.freePort(s.id).Some? && env.starts(s.id))
              && (r.0.None? ==> Running(r.1, s.id) && s.id in r.1.records && r.1.records[s.id] == RunningRecord(s, env))
    ensures env.findService(cmd.service).Some? && cmd.action == ActionRestart ==>
              var s := env.findService(cmd.service).value;
              (r.0.None? <==> (Running(t, s.id) ==> env.signals(s.id))
                              && env.binary(s.id).Some? && env.freePort(s.id).Some? && env.starts(s.id))
              && (r.0.None? ==> Running(r.1, s.id) && s.id in r.1.records && r.1.records[s.id] == RunningRecord(s, env))
    ensures NoneStarting(t.processList) ==> NoneStarting(r.1.processList)
  {
    match env.findService(cmd.service)
    case None => (Some(ServiceNotFound(cmd.service)), t)
    case Some(s) =>
      if cmd.action == ActionStart then StartOutcome(dataDir, clean, t, s, env)
      else if cmd.action == ActionStop then StopOutcome(t, s.id, env)
      else if cmd.action == ActionRestart then RestartOutcome(dataDir, clean, t, s, env)
      else (Some(UnknownAction(cmd.action, cmd.service)), t)
  }

  /**
   * The command loop over a list of commands: each is evaluated in the
   * table the commands before it left, and marked with its id and whether
   * its evaluation succeeded.
   */
  function RunCommands(dataDir: string, clean: string -> string, t: Table, cs: seq<Command>, env: Env)
    : (r: (seq<(string, bool)>, Table))
    ensures |r.0| == |cs|
    ensures NoneStarting(t.processList) ==> NoneStarting(r.1.processList)
  {
    if cs == [] then ([], t)
    else
      var before := RunCommands(dataDir, clean, t, cs[..|cs| - 1], env);
      var last := EvaluateOutcome(dataDir, clean, before.1, cs[|cs| - 1], env);
      (before.0 + [(cs[|cs| - 1].id, last.0.None?)], last.1)
  }

  /** One more command: its mark is appended and its evaluation moves the table on. */
  lemma RunCommandsStep(dataDir: string, clean: string -> string, t: Table, cs: seq<Command>, i: nat, env: Env)
    requires i < |cs|
    ensures var before := RunCommands(dataDir, clean, t, cs[..i], env);
            var e := EvaluateOutcome(dataDir, clean, before.1, cs[i], env);
            RunCommands(dataDir, clean, t, cs[..i + 1], env) == (before.0 + [(cs[i].id, e.0.None?)], e.1)
  {
    assert cs[..i + 1][..i] == cs[..i];
  }

  /**
   * Mark `k` is command `k`'s id, and it is true exactly when evaluating
   * that command, in the table the commands before it left, succeeded.
   */
  lemma {:induction false} RunMarksAreOutcomes(dataDir: string, clean: string -> string, t: Table, cs: seq<Command>,
                                               env: Env, k: nat)
    requires k < |cs|
    ensures RunCommands(dataDir, clean, t, cs, env).0[k]
         == (cs[k].id, EvaluateOutcome(dataDir, clean, RunCommands(dataDir, clean, t, cs[..k], env).1, cs[k], env).0.None?)
  {
    var n := |cs| - 1;
    var init := cs[..n];
    assert init[..k] == cs[..k] by { assert k <= n; }
    if k < n {
      RunMarksAreOutcomes(dataDir, clean, t, init, env, k);
    }
  }

  /** A command refused for its service or action is marked as an error, whatever ran before it. */
  lemma RunRejectedMarkedFalse(dataDir: string, clean: string -> string, t: Table, cs: seq<Command>, env: Env, k: nat)
    requires k < |cs| && Rejected(cs[k], env)
    ensures RunCommands(dataDir, clean, t, cs, env).0[k] == (cs[k].id, false)
  {
    RunMarksAreOutcomes(dataDir, clean, t, cs, env, k);
  }

  /**
   * The records handleServiceErrors leaves: for each error in turn whose
   * write succeeds, the service is marked failed with that error.
   */
  function MarkFailures(records: map<string, ServiceRecord>, errs: seq<P.ProcessErrorMessage>, marked: string -> bool)
    : (r: map<string, ServiceRecord>)
    ensures r.Keys == records.Keys + MarkedIds(errs, marked)
  {
    if errs == [] then records
    else
      var last := errs[|errs| - 1];
      var before := MarkFailures(records, errs[..|errs| - 1], marked);
      if marked(last.id) then before[last.id := FailedWith(last.error)] else before
  }

  /** The message of the last error about `id`, if any. */
  function LastErrorOf(errs: seq<P.ProcessErrorMessage>, id: string): (r: Option<string>)
    ensures r.None? <==> forall e :: e in errs ==> e.id != id
  {
    if errs == [] then None
    else if errs[|errs| - 1].id == id then Some(errs[|errs| - 1].error)
    else
      assert forall e :: e in errs ==> e in errs[..|errs| - 1] || e == errs[|errs| - 1];
      LastErrorOf(errs[..|errs| - 1], id)
  }

  /** The message LastErrorOf gives is that of the last error about `id`. */
  lemma {:induction false} LastErrorOfIsLast(errs: seq<P.ProcessErrorMessage>, id: string, k: nat)
    requires k < |errs| && errs[k].id == id
    requires forall j :: k < j < |errs| ==> errs[j].id != id
    ensures LastErrorOf(errs, id) == Some(errs[k].error)
  {
    var n := |errs| - 1;
    if k < n {
      LastErrorOfIsLast(errs[..n], id, k);
    }
  }

  /**
   * After handleServiceErrors, a service whose record write succeeds holds
   * the last error about it; every other record is as before.
   */
  lemma {:induction false} MarkFailuresAt(records: map<string, ServiceRecord>, errs: seq<P.ProcessErrorMessage>,
                                          marked: string -> bool, id: string)
    ensures var m := MarkFailures(records, errs, marked);
            if marked(id) && LastErrorOf(errs, id).Some? then id in m && m[id] == FailedWith(LastErrorOf(errs, id).value)
            else (id in m <==> id in records) && (id in records ==> m[id] == records[id])
  {
    if errs != [] {
      MarkFailuresAt(records, errs[..|errs| - 1], marked, id);
    }
  }

  class LauncherManager {
    const dataDir: string
    const clean: string -> string
    var processList: map<string, ProcEntry>
    /** The service repository's status records. */
    var records: map<string, ServiceRecord>
    /** The command repository's marks: command id and whether it succeeded. */
    var commandMarks: seq<(string, bool)>
    /** The restart commands published by the error handler. */
    var published: seq<string>

    /** No entry is ever caught mid-start. */
    predicate Valid()
      reads this
    {
      NoneStarting(processList)
    }

    /** The process table and the service records, as one value. */
    function Snapshot(): Table
      reads this
    {
      Table(processList, records)
    }

    constructor (dataDir: string, clean: string -> string)
      ensures Valid()
      ensures this.dataDir == dataDir && this.clean == clean
      ensures processList == map[] && records == map[] && commandMarks == [] && published == []
    {
      this.dataDir := dataDir;
      this.clean := clean;
      processList := map[];
      records := map[];
      commandMarks := [];
      published := [];
    }

    predicate IsRunning(id: string)
      reads this
    {
      Running(Snapshot(), id)
    }

    method StartService(service: Service, env: Env) returns (err: Option<LaunchError>)
      requires Valid()
      modifies this
      ensures Valid()
      ensures (err, Snapshot()) == StartOutcome(dataDir, clean, old(Snapshot()), service, env)
      ensures commandMarks == old(commandMarks) && published == old(published)
    {
      if service.id in processList && processList[service.id].state == P.Running {
        return Some(AlreadyRunning(service.id));
      }
      var executable := env.binary(service.id);
      if executable.None? {
        return Some(BinaryNotFound(service.id));
      }
      var addr := env.freePort(service.id);
      if addr.None? {
        return Some(NoFreePort(service.id));
      }
      var ip := addr.value.0;
      var port := addr.value.1;
      var args := ServeArgs(dataDir, service.id, ip, port, clean);
      if !env.starts(service.id) {
        records := records[service.id := FailedWith(StartFailure())];
        return Some(StartFailed(service.id));
      }
      processList := processList[service.id := ProcEntry(P.Next(P.Stopped, P.StartSucceeded), executable.value, args)];
      records := records[service.id := RunningAt(ip, Decimal(port))];
      err := None;
    }

    method StopService(id: string, env: Env) returns (err: Option<LaunchError>)
      requires Valid()
      modifies this
      ensures Valid()
      ensures (err, Snapshot()) == StopOutcome(old(Snapshot()), id, env)
      ensures commandMarks == old(commandMarks) && published == old(published)
    {
      if id !in processList {
        return Some(NoProcess(id));
      }
      if processList[id].state != P.Running {
        return Some(NotRunning(id));
      }
      if !env.signals(id) {
        return Some(StopFailed(id));
      }
      processList := processList - {id};
      records := records[id := StoppedManually];
      err := None;
    }

    method RestartService(service: Service, env: Env) returns (err: Option<LaunchError>)
      requires Valid()
      modifies this
      ensures Valid()
      ensures (err, Snapshot()) == RestartOutcome(dataDir, clean, old(Snapshot()), service, env)
      ensures commandMarks == old(commandMarks) && published == old(published)
    {
      if service.id in processList && processList[service.id].state == P.Running {
        err := StopService(service.id, env);
        if err.Some? {
          return;
        }
      }
      err := StartService(service, env);
    }

    method EvaluateCommand(cmd: Command, env: Env) returns (err: Option<LaunchError>)
      requires Valid()
      modifies this
      ensures Valid()
      ensures (err, Snapshot()) == EvaluateOutcome(dataDir, clean, old(Snapshot()), cmd, env)
      ensures commandMarks == old(commandMarks) && published == old(published)
    {
      var service := env.findService(cmd.service);
      if service.None? {
        return Some(ServiceNotFound(cmd.service));
      }
      if cmd.action == ActionStart {
        err := StartService(service.value, env);
      } else if cmd.action == ActionStop {
        err := StopService(service.value.id, env);
      } else if cmd.action == ActionRestart {
        err := RestartService(service.value, env);
      } else {
        err := Some(UnknownAction(cmd.action, cmd.service));
      }
    }

    /**
     * Run: evaluates every pending command in order, marking each as a
     * success or an error, and carries on after errors. Only a failure to
     * fetch the commands is returned.
     */
    method Run(commands: Option<seq<Command>>, env: Env) returns (ok: bool)
      requires Valid()
      modifies this
      ensures Valid()
      ensures ok <==> commands.Some?
      ensures !ok ==> unchanged(this)
      ensures ok ==>
        var run := RunCommands(dataDir, clean, old(Snapshot()), commands.value, env);
        commandMarks == old(commandMarks) + run.0 && Snapshot() == run.1
      ensures published == old(published)
    {
      if commands.None? {
        return false;
      }
      var cs := commands.value;
      var i := 0;
      assert cs[..0] == [];
      while i < |cs|
        invariant 0 <= i <= |cs|
        invariant Valid()
        invariant var run := RunCommands(dataDir, clean, old(Snapshot()), cs[..i], env);
                  commandMarks == old(commandMarks) + run.0 && Snapshot() == run.1
        invariant published == old(published)
      {
        RunCommandsStep(dataDir, clean, old(Snapshot()), cs, i, env);
        ghost var marks := commandMarks;
        var err := EvaluateCommand(cs[i], env);
        commandMarks := commandMarks + [(cs[i].id, err.None?)];
        assert marks + [(cs[i].id, err.None?)] == commandMarks;
        i := i + 1;
      }
      assert cs[..|cs|] == cs;
      ok := true;
    }

    /**
     * handleServiceErrors, for the exit errors received so far: each marks
     * its service failed (`marked` is whether that write succeeds), and a
     * start command is published for services under the on-failure policy.
     */
    method HandleServiceErrors(errs: seq<P.ProcessErrorMessage>, marked: string -> bool, env: Env)
      requires Valid()
      modifies this
      ensures Valid()
      ensures published == old(published) + Restarts(errs, marked, env.findService)
      ensures records == MarkFailures(old(records), errs, marked)
      ensures processList == old(processList) && commandMarks == old(commandMarks)
    {
      var recs := records;
      var pub := published;
      var i := 0;
      assert errs[..0] == [];
      while i < |errs|
        modifies {}
        invariant 0 <= i <= |errs|
        invariant pub + Restarts(errs[i..], marked, env.findService)
               == published + Restarts(errs, marked, env.findService)
        invariant recs == MarkFailures(records, errs[..i], marked)
      {
        var e := errs[i];
        RestartsStep(errs, i, marked, env.findService);
        assert errs[..i + 1][..i] == errs[..i];
        if marked(e.id) {
          recs := recs[e.id := FailedWith(e.error)];
        }
        var restart := RestartFor(e, marked(e.id), env.findService);
        ghost var rest := Restarts(errs[i + 1..], marked, env.findService);
        if restart.Some? {
          assert (pub + [restart.value]) + rest == pub + ([restart.value] + rest);
          pub := pub + [restart.value];
        } else {
          assert [] + rest == rest;
        }
        i := i + 1;
      }
      assert errs[..|errs|] == errs;
      records := recs;
      published := pub;
    }

    /** A process of the table ended (its waitForExit ran). */
    method ProcessExited(id: string)
      requires Valid()
      modifies this
      ensures Valid()
      ensures id in old(processList) ==>
                processList == old(processList)[id := old(processList)[id].(state := P.Next(old(processList)[id].state, P.Exited))]
      ensures id !in old(processList) ==> processList == old(processList)
      ensures records == old(records) && commandMarks == old(commandMarks) && published == old(published)
    {
      if id in processList {
        processList := processList[id := processList[id].(state := P.Next(processList[id].state, P.Exited))];
      }
    }
  }

  /** The commands evaluateCommand refuses before touching any process. */
  predicate Rejected(c: Command, env: Env) {
    env.findService(c.service).None? || c.action !in {ActionStop, ActionStart, ActionRestart}
  }

  /** Only on-failure services are restarted, and each error triggers at most one restart. */
  lemma {:induction false} RestartsOnlyOnFailure(errs: seq<P.ProcessErrorMessage>, marked: string -> bool,
                                                 findService: string -> Option<Service>)
    requires forall e :: e in errs ==> findService(e.id).None? || findService(e.id).value.restartPolicy != OnFailure
    ensures Restarts(errs, marked, findService) == []
  {
    if errs != [] {
      assert forall e :: e in errs[1..] ==> e in errs;
      RestartsOnlyOnFailure(errs[1..], marked, findService);
    }
  }
}
