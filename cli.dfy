/**
 * The backend's command line and startup (typetrace/backend/cli.hpp): the
 * option scanner, the database directory under $HOME, and the startup chain
 * that creates the database manager and the event handler and connects the
 * handler's flushes to the manager's writes.
 *
 * The environment, the filesystem and the startup checks' system answers are
 * inputs; `PROJECT_NAME` comes from the build configuration and is a
 * parameter here.
 */
module BackendCli {
  import opened Optional
  import opened Errors
  import opened Constants
  import opened Paths
  import opened Sql
  import opened DbManager
  import opened EventHandling

  const EXIT_SUCCESS: int := 0
  const EXIT_FAILURE: int := 1

  predicate IsHelp(arg: string) { arg == "-h" || arg == "--help" }
  predicate IsVersion(arg: string) { arg == "-v" || arg == "--version" }
  predicate IsDebug(arg: string) { arg == "-d" || arg == "--debug" }

  /** An option the scanner knows. */
  predicate IsKnown(arg: string) { IsHelp(arg) || IsVersion(arg) || IsDebug(arg) }

  /**
   * The scan from position i on: help or version stop with success, debug
   * goes on, anything else stops with failure, and running out of arguments
   * is success.
   */
  function ScanFrom(args: seq<string>, i: nat): int
    decreases |args| - i
  {
    if i >= |args| then EXIT_SUCCESS
    else if IsHelp(args[i]) || IsVersion(args[i]) then EXIT_SUCCESS
    else if IsDebug(args[i]) then ScanFrom(args, i + 1)
    else EXIT_FAILURE
  }

  /** parse_arguments: the scan starts after the program name. */
  function ParseArguments(args: seq<string>): int {
    ScanFrom(args, 1)
  }

  /** The first argument from position i on that is not a debug flag is unknown. */
  ghost predicate UnknownBeforeStop(args: seq<string>, i: nat) {
    exists k :: i <= k < |args| && !IsKnown(args[k]) && forall j :: i <= j < k ==> IsDebug(args[j])
  }

  lemma {:induction false} ScanFromMeaning(args: seq<string>, i: nat)
    ensures ScanFrom(args, i) == EXIT_SUCCESS || ScanFrom(args, i) == EXIT_FAILURE
    ensures ScanFrom(args, i) == EXIT_FAILURE <==> UnknownBeforeStop(args, i)
    decreases |args| - i
  {
    if i < |args| {
      if IsHelp(args[i]) || IsVersion(args[i]) {
        assert !IsDebug(args[i]);
      } else if IsDebug(args[i]) {
        ScanFromMeaning(args, i + 1);
        if UnknownBeforeStop(args, i) {
          var k :| i <= k < |args| && !IsKnown(args[k]) && forall j :: i <= j < k ==> IsDebug(args[j]);
          assert k != i;
          assert UnknownBeforeStop(args, i + 1);
        }
        if UnknownBeforeStop(args, i + 1) {
          var k :| i + 1 <= k < |args| && !IsKnown(args[k]) && forall j :: i + 1 <= j < k ==> IsDebug(args[j]);
          assert forall j :: i <= j < k ==> IsDebug(args[j]);
        }
      } else {
        assert !IsKnown(args[i]);
      }
    }
  }

  /**
   * parse_arguments fails exactly when, after the program name, an unknown
   * argument comes before any help or version option (debug flags are
   * skipped); in every other case it succeeds.
   */
  lemma ParseArgumentsMeaning(args: seq<string>)
    ensures ParseArguments(args) == EXIT_SUCCESS || ParseArguments(args) == EXIT_FAILURE
    ensures ParseArguments(args) == EXIT_FAILURE <==> UnknownBeforeStop(args, 1)
  {
    ScanFromMeaning(args, 1);
  }

  /** The program name is never read as an option. */
  lemma {:induction false} ProgramNameIgnored(name: string, other: string, rest: seq<string>)
    ensures ParseArguments([name] + rest) == ParseArguments([other] + rest)
  {
    ScanFromMeaning([name] + rest, 1);
    ScanFromMeaning([other] + rest, 1);
    assert forall k :: 1 <= k < |[name] + rest| ==> ([name] + rest)[k] == ([other] + rest)[k];
  }

  /**
   * get_database_dir, given $HOME (None when unset) and the failure of
   * creating the directory, if it fails. An unset $HOME is a SYSTEM error.
   */
  function GetDatabaseDir(home: Option<string>, projectName: string, dirFault: Option<string>): (r: Result<Path>)
    ensures home.None? ==> r == Err(MakeSystemError("HOME environment variable not set"))
    ensures home.Some? && dirFault.Some? ==> r.Err? && r.error.code == System
    ensures r.Ok? <==> home.Some? && dirFault.None?
    ensures r.Ok? ==> r.value.parts == [home.value, ".local", "share", projectName]
  {
    match home
    case None => Err(MakeSystemError("HOME environment variable not set"))
    case Some(h) =>
      match dirFault
      case Some(what) => Err(MakeSystemError("Failed to create database directory: " + what))
      case None => Ok(Path([h, ".local", "share", projectName]))
  }

  /** What the process finds at startup. */
  datatype CliHost = CliHost(
    home: Option<string>,
    dirFault: Option<string>,
    dbFault: CreateFault,
    stored: Table,
    device: DeviceHost)

  /** Cli::create's chain: database directory, database manager, event handler; the first failure wins. */
  function CliStartupError(projectName: string, host: CliHost): (r: Option<Error>)
    ensures r.None? <==>
      && host.home.Some? && host.dirFault.None?
      && host.dbFault.NoCreateFault?
      && StartupError(host.device).None?
    ensures host.home.None? ==> r == Some(MakeSystemError("HOME environment variable not set"))
    ensures GetDatabaseDir(host.home, projectName, host.dirFault).Ok? && host.dbFault.OpenFails? ==>
      r.Some? && r.value.code == Database
    // the first failure in the chain is the one returned; later steps are not consulted
    ensures var dir := GetDatabaseDir(host.home, projectName, host.dirFault);
      && (dir.Err? ==> r == Some(dir.error))
      && (dir.Ok? && CreateError(dir.value, host.dbFault).Some? ==> r == CreateError(dir.value, host.dbFault))
      && (dir.Ok? && CreateError(dir.value, host.dbFault).None? ==> r == StartupError(host.device))
  {
    var dir := GetDatabaseDir(host.home, projectName, host.dirFault);
    if dir.Err? then Some(dir.error)
    else
      var db := CreateError(dir.value, host.dbFault);
      if db.Some? then db
      else StartupError(host.device)
  }

  class Cli {
    /** `event_handler_`. */
    var eventHandler: EventHandler?
    /** `db_manager_`. */
    var dbManager: DatabaseManager?

    constructor Init()
      ensures eventHandler == null && dbManager == null
    {
      eventHandler := null;
      dbManager := null;
    }

    /**
     * Cli::create: the option scan runs but its result is not consulted;
     * then the startup chain, and the handler's flushes are sent to the
     * manager, whose write failures are only logged.
     */
    static method Create(args: seq<string>, projectName: string, host: CliHost) returns (r: Result<Cli>)
      ensures r.Err? <==> CliStartupError(projectName, host).Some?
      ensures r.Err? ==> r.error == CliStartupError(projectName, host).value
      ensures r.Ok? ==>
        && fresh(r.value)
        && r.value.dbManager != null && fresh(r.value.dbManager)
        && r.value.eventHandler != null && fresh(r.value.eventHandler)
        && r.value.dbManager.dbFile.parts == [host.home.value, ".local", "share", projectName, DB_FILE_NAME]
        && r.value.dbManager.table == host.stored
        && r.value.eventHandler.sink == r.value.dbManager
        && r.value.eventHandler.buffer == []
        && r.value.eventHandler.lastFlushTime == 0
    {
      var cli := new Cli.Init();
      var ignored := ParseArguments(args);
      var dir :- GetDatabaseDir(host.home, projectName, host.dirFault);
      var manager :- DatabaseManager.Create(dir, host.stored, host.dbFault);
      cli.dbManager := manager;
      var handler :- EventHandler.Create(host.device);
      cli.eventHandler := handler;
      handler.SetBufferCallback(manager);
      return Ok(cli);
    }
  }
}
