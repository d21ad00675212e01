/** The database dump (`src/database.rs`): the engine name selects a dump
    utility, `which` checks that it is installed, and a routine per engine
    runs it with an argument vector built from the connection string, the
    backup folder and the run's date-time. The operating system is a
    parameter: `System` answers the `which` probes, the existence check on
    the SQLite file, and what each child process reports. Each result
    carries the processes started, in order, so that the model can say what
    was run and what was not. */
module DatabaseDump {
  import opened Common
  import opened Text

  /** A child process: program name and argument vector. */
  datatype Invocation = Invocation(program: string, args: seq<string>)

  /** What `Command::output` gives back: an exit status with the captured
      standard error, or the I/O error of a process that could not start. */
  datatype ProcessOutput = Exited(success: bool, stderr: string) | SpawnFailed(error: string)

  datatype System = System(
    which: string -> bool,              // `which <utility>` exits successfully
    canOpen: string -> bool,            // `File::open(path)` succeeds
    execute: Invocation -> ProcessOutput)

  /** Processes started, and the function's `Result<(), Box<dyn Error>>`
      (the error boxed as its message). */
  datatype Run = Run(invoked: seq<Invocation>, result: Result<(), string>)

  /** The engines `database_backup` knows. */
  datatype Engine = PostgreSql | MariaDb | Sqlite

  /** The engine an engine name selects, following the `if` chain of
      `database_backup`; "mysql" and "mariadb" select the same one. */
  function EngineOf(dbType: string): Option<Engine>
  {
    if dbType == "postgresql" then Some(PostgreSql)
    else if dbType == "mysql" || dbType == "mariadb" then Some(MariaDb)
    else if dbType == "sqlite" then Some(Sqlite)
    else None
  }

  /** The dump utility each engine needs. */
  function Utility(e: Engine): string
  {
    match e
    case PostgreSql => "pg_dump"
    case MariaDb => "mysqldump"
    case Sqlite => "sqlite3"
  }

  function Which(utility: string): Invocation
  {
    Invocation("which", [utility])
  }

  datatype Probe = Probe(invoked: seq<Invocation>, found: bool)

  /** `find_dump_util`: probes the utility of a known engine name with
      `which`; any other name is not probed and reports false. */
  function FindDumpUtil(dbType: string, which: string -> bool): (p: Probe)
    ensures EngineOf(dbType).None? ==> p == Probe([], false)
    ensures EngineOf(dbType).Some? ==>
      var u := Utility(EngineOf(dbType).value);
      p == Probe([Which(u)], which(u))
  {
    match dbType
    case "postgresql" => Probe([Which("pg_dump")], which("pg_dump"))
    case "mariadb" => Probe([Which("mysqldump")], which("mysqldump"))
    case "mysql" => Probe([Which("mysqldump")], which("mysqldump"))
    case "sqlite" => Probe([Which("sqlite3")], which("sqlite3"))
    case _ => Probe([], false)
  }

  /** The outcome of a dump process, as each backup routine reports it. */
  function BackupResult(out: ProcessOutput): (r: Result<(), string>)
    ensures r.Ok? <==> out.Exited? && out.success
    ensures out.Exited? && !out.success ==> r == Err("Database backup not created. " + out.stderr)
    ensures out.SpawnFailed? ==> r == Err(out.error)
  {
    match out
    case SpawnFailed(e) => Err(e)
    case Exited(success, stderr) =>
      if success then Ok(()) else Err("Database backup not created. " + stderr)
  }

  /** The argument vector of `pg_dump`: the database URL, the custom
      format, and the dump file, each one argument whatever it contains, so
      the URL and the file path can be read back from it. */
  function PgDumpArgs(connectionString: string, backupLocation: string, datetime: string): (args: seq<string>)
    ensures |args| == 3 && args[1] == "--format=custom"
    ensures |args[0]| >= 9 && args[0][..9] == "--dbname=" && args[0][9..] == connectionString
    ensures |args[2]| >= 7 && args[2][..7] == "--file=" && args[2][7..] == backupLocation + datetime + "-db.dump"
  {
    ["--dbname=" + connectionString, "--format=custom", "--file=" + backupLocation + datetime + "-db.dump"]
  }

  /** The argument vector of `mysqldump`: the connection string with a
      result-file option appended, cut at whitespace, so that no argument is
      empty or holds whitespace. */
  function MysqldumpArgs(connectionString: string, backupLocation: string, datetime: string): (args: seq<string>)
    ensures forall w :: w in args ==> w != [] && NoWhitespace(w)
  {
    SplitWhitespace(connectionString + " --result-file=" + backupLocation + datetime + "-db.sql")
  }

  /** The path of the live SQLite database inside the data folder. */
  function SqliteFile(connectionString: string): (path: string)
    ensures |path| >= |connectionString| && path[..|connectionString|] == connectionString && path[|connectionString|..] == "db.sqlite3"
  {
    connectionString + "db.sqlite3"
  }

  /** The argument vector of `sqlite3`: the database file, and the
      `.backup` command naming the copy, each one argument. */
  function Sqlite3Args(connectionString: string, backupLocation: string, datetime: string): (args: seq<string>)
    ensures |args| == 2 && args[0] == SqliteFile(connectionString)
    ensures |args[1]| >= 8 && args[1][..8] == ".backup " && args[1][8..] == backupLocation + datetime + "-db.sqlite3"
  {
    [SqliteFile(connectionString), ".backup " + backupLocation + datetime + "-db.sqlite3"]
  }

  /** `postgresql_backup`: runs pg_dump once and reports its outcome. */
  function PostgresqlBackup(connectionString: string, backupLocation: string, datetime: string,
                            sys: System): (run: Run)
    ensures run.invoked == [Invocation("pg_dump", PgDumpArgs(connectionString, backupLocation, datetime))]
    ensures run.result == BackupResult(sys.execute(run.invoked[0]))
  {
    var cmd := Invocation("pg_dump", PgDumpArgs(connectionString, backupLocation, datetime));
    Run([cmd], BackupResult(sys.execute(cmd)))
  }

  /** `mariadb_backup`: runs mysqldump once and reports its outcome. */
  function MariadbBackup(connectionString: string, backupLocation: string, datetime: string,
                         sys: System): (run: Run)
    ensures run.invoked == [Invocation("mysqldump", MysqldumpArgs(connectionString, backupLocation, datetime))]
    ensures run.result == BackupResult(sys.execute(run.invoked[0]))
  {
    var cmd := Invocation("mysqldump", MysqldumpArgs(connectionString, backupLocation, datetime));
    Run([cmd], BackupResult(sys.execute(cmd)))
  }

  /** `sqlite_backup`: refuses before running anything when the database
      file cannot be opened; otherwise runs sqlite3 once and reports its
      outcome. */
  function SqliteBackup(connectionString: string, backupLocation: string, datetime: string,
                        sys: System): (run: Run)
    ensures !sys.canOpen(SqliteFile(connectionString)) ==> run == Run([], Err("Database file not found"))
    ensures sys.canOpen(SqliteFile(connectionString)) ==>
      run.invoked == [Invocation("sqlite3", Sqlite3Args(connectionString, backupLocation, datetime))] &&
      run.result == BackupResult(sys.execute(run.invoked[0]))
  {
    if sys.canOpen(SqliteFile(connectionString)) then
      var cmd := Invocation("sqlite3", Sqlite3Args(connectionString, backupLocation, datetime));
      Run([cmd], BackupResult(sys.execute(cmd)))
    else
      Run([], Err("Database file not found"))
  }

  /** The error of an engine whose utility `which` cannot find. */
  function NotInstalled(e: Engine): string
  {
    match e
    case PostgreSql => "pg_dump utility is not installed or not added to the environment variable"
    case MariaDb => "mysqldump utility is not installed or not added to the environment variable"
    case Sqlite => "sqlite3 utility is not installed or not added to the environment variable"
  }

  /** `database_backup`: dispatch on the engine name. */
  function DatabaseBackup(dbType: string, connectionString: string, backupLocation: string,
                          datetime: string, sys: System): (run: Run)
    // An unknown engine is refused without starting any process.
    ensures EngineOf(dbType).None? ==> run == Run([], Err("Unsupported database type"))
    // A known engine probes exactly its own utility first; when it is
    // missing, nothing else runs and the error names the utility.
    ensures EngineOf(dbType).Some? ==>
      var u := Utility(EngineOf(dbType).value);
      |run.invoked| >= 1 && run.invoked[0] == Which(u) &&
      (!sys.which(u) ==> run == Run([Which(u)], Err(NotInstalled(EngineOf(dbType).value))))
  {
    match EngineOf(dbType)
    case None => Run([], Err("Unsupported database type"))
    case Some(engine) =>
      var probe := FindDumpUtil(dbType, sys.which);
      if probe.found then
        var r := match engine
          case PostgreSql => PostgresqlBackup(connectionString, backupLocation, datetime, sys)
          case MariaDb => MariadbBackup(connectionString, backupLocation, datetime, sys)
          case Sqlite => SqliteBackup(connectionString, backupLocation, datetime, sys);
        Run(probe.invoked + r.invoked, r.result)
      else
        Run(probe.invoked, Err(NotInstalled(engine)))
  }

  /** With pg_dump installed, the PostgreSQL path runs it once with the
      database URL, the custom format and the dump file, and reports its
      outcome. */
  lemma PostgresqlDumpRun(dbType: string, connectionString: string, backupLocation: string,
                          datetime: string, sys: System)
    requires EngineOf(dbType) == Some(PostgreSql) && sys.which("pg_dump")
    ensures
      var cmd := Invocation("pg_dump", ["--dbname=" + connectionString, "--format=custom",
                                        "--file=" + backupLocation + datetime + "-db.dump"]);
      DatabaseBackup(dbType, connectionString, backupLocation, datetime, sys) ==
        Run([Which("pg_dump"), cmd], BackupResult(sys.execute(cmd)))
  {
  }

  /** With mysqldump installed, both MySQL names run it once on the
      whitespace-split connection string and report its outcome. */
  lemma MariadbDumpRun(dbType: string, connectionString: string, backupLocation: string,
                       datetime: string, sys: System)
    requires EngineOf(dbType) == Some(MariaDb) && sys.which("mysqldump")
    ensures
      var cmd := Invocation("mysqldump", MysqldumpArgs(connectionString, backupLocation, datetime));
      DatabaseBackup(dbType, connectionString, backupLocation, datetime, sys) ==
        Run([Which("mysqldump"), cmd], BackupResult(sys.execute(cmd)))
  {
  }

  /** With sqlite3 installed, the SQLite path first checks that the live
      database file opens: if not, it fails without running sqlite3;
      otherwise it runs sqlite3's `.backup` once and reports its outcome. */
  lemma SqliteDumpRun(dbType: string, connectionString: string, backupLocation: string,
                      datetime: string, sys: System)
    requires EngineOf(dbType) == Some(Sqlite) && sys.which("sqlite3")
    ensures !sys.canOpen(connectionString + "db.sqlite3") ==>
      DatabaseBackup(dbType, connectionString, backupLocation, datetime, sys) ==
        Run([Which("sqlite3")], Err("Database file not found"))
    ensures sys.canOpen(connectionString + "db.sqlite3") ==>
      var cmd := Invocation("sqlite3", [connectionString + "db.sqlite3",
                                        ".backup " + backupLocation + datetime + "-db.sqlite3"]);
      DatabaseBackup(dbType, connectionString, backupLocation, datetime, sys) ==
        Run([Which("sqlite3"), cmd], BackupResult(sys.execute(cmd)))
  {
  }

  /** "mysql" and "mariadb" are two names for one behaviour. */
  lemma MysqlIsMariadb(connectionString: string, backupLocation: string, datetime: string, sys: System)
    ensures DatabaseBackup("mysql", connectionString, backupLocation, datetime, sys) ==
            DatabaseBackup("mariadb", connectionString, backupLocation, datetime, sys)
  {
  }

  /** Whatever the connection string holds, the last argument of mysqldump
      is the result file, provided the backup folder and the date-time have
      no whitespace. */
  lemma MysqldumpArgsEndWithResultFile(connectionString: string, backupLocation: string, datetime: string)
    requires NoWhitespace(backupLocation) && NoWhitespace(datetime)
    ensures MysqldumpArgs(connectionString, backupLocation, datetime) ==
            SplitWhitespace(connectionString) + ["--result-file=" + backupLocation + datetime + "-db.sql"]
  {
    var file := "--result-file=" + backupLocation + datetime + "-db.sql";
    MysqldumpCommandLine(connectionString, backupLocation, datetime);
    SplitAtSpace(connectionString, file);
    ResultFileIsOneWord(backupLocation, datetime);
  }

  /** The command line handed to the tokeniser, regrouped at its one added space. */
  lemma MysqldumpCommandLine(connectionString: string, backupLocation: string, datetime: string)
    ensures connectionString + " --result-file=" + backupLocation + datetime + "-db.sql" ==
            connectionString + " " + ("--result-file=" + backupLocation + datetime + "-db.sql")
  {
  }

  lemma ResultFileIsOneWord(backupLocation: string, datetime: string)
    requires NoWhitespace(backupLocation) && NoWhitespace(datetime)
    ensures SplitWhitespace("--result-file=" + backupLocation + datetime + "-db.sql") ==
            ["--result-file=" + backupLocation + datetime + "-db.sql"]
  {
    OptionTextsHaveNoWhitespace();
    NoWhitespaceConcat("--result-file=", backupLocation);
    NoWhitespaceConcat("--result-file=" + backupLocation, datetime);
    NoWhitespaceConcat("--result-file=" + backupLocation + datetime, "-db.sql");
    SplitWord("--result-file=" + backupLocation + datetime + "-db.sql");
  }

  /** The fixed parts of the mysqldump command line contain no whitespace. */
  lemma OptionTextsHaveNoWhitespace()
    ensures NoWhitespace("--user=") && NoWhitespace("--password=") && NoWhitespace("--host=")
    ensures NoWhitespace("--port=") && NoWhitespace("--result-file=") && NoWhitespace("-db.sql")
  {
  }
}
