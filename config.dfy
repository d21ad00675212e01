/** The tool's configuration (`src/config.rs`): the settings read from the TOML
    file, the database connection string built from them, and the check on
    the backup folder. Reading and parsing the file are not modelled; a
    `Config` value is what a successful parse yields. */
module Configuration {
  import opened Common
  import opened Text

  /** Path used when the CONFIG_PATH environment variable is unset. */
  const ConfigDefaultPath := "config.toml"

  /** Rust's `i64`, the type of the configured port. */
  newtype i64 = x: int | -0x8000_0000_0000_0000 <= x < 0x8000_0000_0000_0000

  datatype Database = Database(
    dbType: string,
    username: Option<string>,
    password: Option<string>,
    dbName: Option<string>,
    host: Option<string>,
    port: Option<i64>)

  datatype Config = Config(vaultwardenData: string, backupLocation: string, db: Database)

  /** `Config::get_db_type`: the configured engine name. */
  function GetDbType(c: Config): (dbType: string)
    ensures dbType == c.db.dbType
  {
    c.db.dbType
  }

  /** The engines whose connection string needs a host and a database name. */
  predicate IsNetworkEngine(dbType: string)
  {
    dbType == "postgresql" || dbType == "mysql" || dbType == "mariadb"
  }

  /** What `db_connection_string` unwraps: for a network engine, both the
      host and the database name must be configured, or the call panics. */
  predicate HasConnectionFields(db: Database)
  {
    IsNetworkEngine(db.dbType) ==> db.host.Some? && db.dbName.Some?
  }

  /** `db.port.unwrap_or(default)`, printed. */
  function PortOrDefault(port: Option<i64>, default: i64): string
  {
    IntToString(if port.Some? then port.value as int else default as int)
  }

  /** The port as it appears in the connection string, with the default
      written out as text. */
  function PortText(port: Option<i64>, default: string): string
  {
    if port.Some? then IntToString(port.value as int) else default
  }

  lemma DefaultPortTexts()
    ensures IntToString(5432) == "5432" && IntToString(3306) == "3306"
  {
    assert NatToString(5) == "5" && NatToString(54) == "54" && NatToString(543) == "543";
    assert NatToString(3) == "3" && NatToString(33) == "33" && NatToString(330) == "330";
  }

  /** `Config::db_connection_string`. PostgreSQL gets a URL, MySQL and
      MariaDB get mysqldump options, SQLite gets the data directory, and
      any other engine gets the empty string. Credentials appear only when
      both the user name and the password are configured; a missing port
      falls back to the engine's standard one. */
  function DbConnectionString(c: Config): (cs: string)
    requires HasConnectionFields(c.db)
    ensures c.db.dbType == "postgresql" && c.db.username.Some? && c.db.password.Some? ==>
      cs == "postgresql://" + c.db.username.value + ":" + c.db.password.value + "@" +
            c.db.host.value + ":" + PortText(c.db.port, "5432") + "/" + c.db.dbName.value
    ensures c.db.dbType == "postgresql" && (c.db.username.None? || c.db.password.None?) ==>
      cs == "postgresql://" + c.db.host.value + ":" + PortText(c.db.port, "5432") + "/" + c.db.dbName.value
    ensures (c.db.dbType == "mysql" || c.db.dbType == "mariadb") && c.db.username.Some? && c.db.password.Some? ==>
      cs == "--user=" + c.db.username.value + " --password=" + c.db.password.value +
            " --host=" + c.db.host.value + " --port=" + PortText(c.db.port, "3306") + " " + c.db.dbName.value
    ensures (c.db.dbType == "mysql" || c.db.dbType == "mariadb") && (c.db.username.None? || c.db.password.None?) ==>
      cs == "--host=" + c.db.host.value + " --port=" + PortText(c.db.port, "3306") + " " + c.db.dbName.value
    ensures c.db.dbType == "sqlite" ==> cs == c.vaultwardenData
    ensures !IsNetworkEngine(c.db.dbType) && c.db.dbType != "sqlite" ==> cs == ""
  {
    DefaultPortTexts();
    var db := c.db;
    if db.dbType == "postgresql" then
      var credential :=
        if db.username.Some? && db.password.Some? then db.username.value + ":" + db.password.value + "@" else "";
      if credential != "" then
        "postgresql://" + credential + db.host.value + ":" + PortOrDefault(db.port, 5432) + "/" + db.dbName.value
      else
        "postgresql://" + db.host.value + ":" + PortOrDefault(db.port, 5432) + "/" + db.dbName.value
    else if db.dbType == "mysql" || db.dbType == "mariadb" then
      if db.username.Some? && db.password.Some? then
        "--user=" + db.username.value + " --password=" + db.password.value +
        " --host=" + db.host.value + " --port=" + PortOrDefault(db.port, 3306) + " " + db.dbName.value
      else
        "--host=" + db.host.value + " --port=" + PortOrDefault(db.port, 3306) + " " + db.dbName.value
    else if db.dbType == "sqlite" then
      c.vaultwardenData
    else
      ""
  }

  /** The port field of a connection string names the configured port
      exactly: distinct ports give distinct texts, and a configured port
      equal to the default prints like the default. */
  lemma {:induction false} PortTextFaithful(p: Option<i64>, q: Option<i64>, default: i64)
    ensures PortOrDefault(p, default) == PortOrDefault(q, default) <==>
      (if p.Some? then p.value else default) == (if q.Some? then q.value else default)
  {
    var a := if p.Some? then p.value as int else default as int;
    var b := if q.Some? then q.value as int else default as int;
    if IntToString(a) == IntToString(b) {
      IntToStringInjective(a, b);
    }
  }

  /** `Config::get_backup_location`: the configured folder when it exists
      and is a directory, and an error otherwise. The two filesystem queries
      are parameters. */
  function GetBackupLocation(c: Config, pathExists: string -> bool, isDir: string -> bool): (r: Result<string, string>)
    ensures r.Ok? <==> pathExists(c.backupLocation) && isDir(c.backupLocation)
    ensures r.Ok? ==> r.value == c.backupLocation
    ensures r.Err? ==> r.error == "Backup folder does not exist"
  {
    if !pathExists(c.backupLocation) || !isDir(c.backupLocation) then Err("Backup folder does not exist")
    else Ok(c.backupLocation)
  }

  /** `get_config_path`: what `env::var("CONFIG_PATH")` returns, passed in
      as `env`, or the default file name when it fails. `env` is `None`
      whenever `env::var` fails: when the variable is unset, and also when
      its value is not valid Unicode. */
  function GetConfigPath(env: Option<string>): (path: string)
    ensures env.Some? ==> path == env.value
    ensures env.None? ==> path == "config.toml"
  {
    match env
    case Some(p) => p
    case None => ConfigDefaultPath
  }
}
