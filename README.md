# vaultwarden-backup in Dafny

A model of the logic at the centre of `vaultwarden-backup`. The tool backs up a Vaultwarden
server's database and data folder into an encrypted archive. Three pieces of that logic
are modelled:

- **The configuration** (`config.rs`). The connection string the dump utility receives is
  built from the `[db]` settings:
  - PostgreSQL gets a `postgresql://` URL.
  - MySQL and MariaDB get a line of `mysqldump` options.
  - SQLite gets the data folder.
  - Credentials appear only when both the user name and the password are set.
  - A missing port falls back to 5432 or 3306.

  The same file holds the backup-folder check and the choice of the configuration file path.
- **The database dump** (`database.rs`). The engine name selects a utility. `which` probes
  it, and one routine per engine runs it with an exact argument vector. Four outcomes get
  distinct messages: a missing utility, a missing SQLite file, a failed dump and an unknown
  engine. For the MySQL path, the connection string is rebuilt with `--result-file` and
  split at whitespace. Module `MysqldumpArgv` joins that split with the builder. It gives the
  exact argument vector for whitespace-free settings, and it shows what happens to a
  password that contains a space.
- **The archive loop** (`middleware.rs`, `zip_dir`). Every entry of a directory walk
  becomes a record of an encrypted zip archive:
  - a file becomes a file record holding its bytes;
  - any other entry except the walked folder becomes a directory record. That covers folders, and
    also symbolic links, pipes and sockets, for which `is_file` is false;
  - the walked folder itself is skipped.

  `ZipWriter` is a class that holds the records it has written. `ZipDir` is the loop. It is
  proved against `Records`, the record sequence of a complete walk, and against `StoppedAt`,
  which describes where a failed walk stopped and what it left. Lemmas then state what
  the sequence contains and that a walk can stop in only one place.

The operating system is a parameter throughout. `which`, `File::open`, the child processes,
the existence checks on the backup folder, the environment variable and the filesystem the
archive loop reads are all inputs.

Files:
- `common.dfy`: `Option` and `Result`.
- `text.dfy`: Rust's `split_whitespace`, and the decimal printing of integers with its
  inverse.
- `config.dfy`: the configuration.
- `database.dfy`: the dump.
- `mysqldump_args.dfy`: the mysqldump argument vector, derived from the settings.
- `middleware.dfy`: the archive loop.

## Model

| member | source | states |
|---|---|---|
| Configuration.GetDbType | src/config.rs:44-47 | the engine name is the configured `db_type` |
| Configuration.DbConnectionString | src/config.rs:49-100 | the exact string for each engine: a PostgreSQL URL with credentials only when both user and password are set, the mysqldump options likewise, the data folder for SQLite, the empty string for any other engine; an absent port becomes 5432 or 3306, a present one is printed; a network engine needs a host and a database name (the source unwraps both) |
| Configuration.DefaultPortTexts | src/config.rs:66-91 | the default ports 5432 and 3306 print as "5432" and "3306" |
| Configuration.PortTextFaithful | src/config.rs:66-91 | two port settings give the same port text exactly when they select the same port, so a present port is used verbatim and one equal to the default prints like the default |
| Configuration.GetBackupLocation | src/config.rs:102-109 | Ok with the configured folder exactly when the path exists and is a directory; otherwise the error "Backup folder does not exist" |
| Configuration.GetConfigPath | src/config.rs:112-117 | the value `env::var("CONFIG_PATH")` returns when it succeeds, otherwise "config.toml"; the input is absent whenever `env::var` fails, which includes a value that is not valid Unicode |
| Text.SplitWhitespace | src/database.rs:50 | `split_whitespace`: every word is non-empty and contains no whitespace |
| Text.SplitAtWhitespace | src/database.rs:50 | splitting at a whitespace character splits the two sides independently |
| Text.SplitAtSpace | src/database.rs:47-50 | splitting at an added space concatenates the words of both sides |
| Text.SplitWord | src/database.rs:50 | a whitespace-free text splits into itself, or into nothing when empty |
| Text.NatToString | src/config.rs:66-91 | decimal printing of a natural number: non-empty, digits only, no leading zero |
| Text.IntToString | src/config.rs:66-91 | `i64` display: non-empty and whitespace-free |
| Text.NatToStringRoundTrip | src/config.rs:66-91 | parsing the printed digits gives the number back |
| Text.IntToStringRoundTrip | src/config.rs:66-91 | parsing a printed integer, negative ones included, gives it back |
| Text.IntToStringInjective | src/config.rs:66-91 | distinct integers print differently |
| DatabaseDump.FindDumpUtil | src/database.rs:82-130 | a known engine name probes exactly its utility with `which` and reports the probe; any other name probes nothing and reports false |
| DatabaseDump.BackupResult | src/database.rs:37-43 | Ok exactly when the dump exits successfully; a failed exit gives "Database backup not created. " followed by its stderr; a process that cannot start gives its error |
| DatabaseDump.DatabaseBackup | src/database.rs:5-28 | an unknown engine fails with "Unsupported database type" and starts no process; a known engine first probes its own utility, and when the probe fails nothing else runs and the engine's "not installed" message is returned |
| DatabaseDump.PgDumpArgs | src/database.rs:31-34 | three arguments: `--dbname=` followed by the connection string, `--format=custom`, and `--file=` followed by `<loc><dt>-db.dump`; each value can be read back from its argument |
| DatabaseDump.MysqldumpArgs | src/database.rs:47-50 | the whitespace split of the extended connection string: no argument is empty or holds whitespace |
| DatabaseDump.SqliteFile | src/database.rs:63 | the connection string followed by `db.sqlite3` |
| DatabaseDump.Sqlite3Args | src/database.rs:65-67 | two arguments: the database file, and `.backup ` followed by `<loc><dt>-db.sqlite3` |
| DatabaseDump.PostgresqlBackup | src/database.rs:30-44 | starts exactly one pg_dump process, with PgDumpArgs, and reports that process's outcome |
| DatabaseDump.MariadbBackup | src/database.rs:46-60 | starts exactly one mysqldump process, with MysqldumpArgs, and reports that process's outcome |
| DatabaseDump.SqliteBackup | src/database.rs:62-80 | when the database file cannot be opened, "Database file not found" is returned and no process is started; otherwise exactly one sqlite3 process runs, with Sqlite3Args, and its outcome is reported |
| DatabaseDump.PostgresqlDumpRun | src/database.rs:30-44 | with pg_dump installed, pg_dump runs once with `--dbname=<cs>`, `--format=custom` and `--file=<loc><dt>-db.dump`, and its outcome is reported |
| DatabaseDump.MariadbDumpRun | src/database.rs:46-60 | with mysqldump installed, mysqldump runs once on the whitespace split of the connection string with the result-file option, and its outcome is reported |
| DatabaseDump.SqliteDumpRun | src/database.rs:62-80 | with sqlite3 installed, an unopenable `<cs>db.sqlite3` gives "Database file not found" without running sqlite3; otherwise sqlite3 runs once with the file and `.backup <loc><dt>-db.sqlite3` |
| DatabaseDump.MysqlIsMariadb | src/database.rs:12-17 | "mysql" and "mariadb" behave identically |
| DatabaseDump.MysqldumpArgsEndWithResultFile | src/database.rs:47-50 | with a whitespace-free backup folder and date-time, the argument vector is the words of the connection string followed by the single result-file argument |
| DatabaseDump.ResultFileIsOneWord | src/database.rs:47 | the result-file option is one argument when folder and date-time are whitespace-free |
| MysqldumpArgv.MysqldumpArgvByField | src/config.rs:78-93 | the mysqldump argument vector of a configuration is the concatenation of the split of each option, field by field |
| MysqldumpArgv.MysqldumpArgvWhitespaceFree | src/database.rs:46-51 | for whitespace-free settings and a non-empty database name the vector is exactly `--user=`, `--password=` (when both are set), `--host=`, `--port=`, the database name and `--result-file=` |
| MysqldumpArgv.PasswordWithSpaceIsSplit | src/database.rs:47-50 | a password containing one space reaches mysqldump as two arguments: `--password=<before>` and `<after>` |
| MysqldumpArgv.PortArgIsOneWord | src/config.rs:85-91 | the port option is always one argument |
| MysqldumpArgv.OptionIsOneWord | src/config.rs:81 | an option with a whitespace-free value is one argument |
| MysqldumpArgv.SpacedValueWords | src/config.rs:81 | the `--password=` option whose value holds one space becomes two arguments |
| Middleware.StripPrefix | src/middleware.rs:30 | a result exactly when `directory` is a component prefix of the path, and it is the rest of the path |
| Middleware.ZipWriter.constructor | src/middleware.rs:21 | a new writer has no records, no open file and no operations done |
| Middleware.ZipWriter.StartFileFromPath | src/middleware.rs:34 | appends an empty file record with the given options and opens it, unless the archive file fails |
| Middleware.ZipWriter.WriteAll | src/middleware.rs:38 | appends the data to the open file record; no data is a no-op; with no open file it fails |
| Middleware.ZipWriter.AddDirectoryFromPath | src/middleware.rs:42 | appends a directory record and closes any open file, unless the archive file fails |
| Middleware.ZipWriter.Finish | src/middleware.rs:45 | finishes the archive and closes any open file without changing its records; if the archive file fails, nothing but the operation count changes |
| Middleware.EntryRecords | src/middleware.rs:29-43 | an entry gives at most one record, none exactly for the walked folder itself; the record carries the options and a name that leads back to the entry |
| Middleware.EntryOutcome | src/middleware.rs:32-43 | a turn succeeds exactly when its file reads and the archive accepts every operation the entry needs; an archive error names the first refused operation; any other error is the file's open or read error, raised after its start succeeded |
| Middleware.StartedRecord | src/middleware.rs:34-38 | a failed turn leaves behind an empty file record exactly when it is a file whose start succeeded |
| Middleware.ZipEntry | src/middleware.rs:29-43 | one turn returns EntryOutcome. On success it appends the entry's records and leaves the buffer empty. On failure it appends only the file record it started |
| Middleware.ZipDir | src/middleware.rs:12-47 | succeeds exactly when every file reads and the archive accepts every operation, and then holds the records of the whole walk and `finish` has succeeded; otherwise it stops at the first failure, returning that error and holding the records of the earlier entries plus the file record the failed turn started, and `finish` has not succeeded; every record uses Deflated, mode 0o755 and the key |
| Middleware.Records | src/middleware.rs:28-44 | the records of a complete walk, in walk order: each entry's records after those of the entries before it (the specification the loop is proved against) |
| Middleware.StopIsFirstFailure | src/middleware.rs:34-45 | a walk can stop in only one place, the first failing entry or else `finish`, so the error and the records left behind are determined by the walk |
| Middleware.NoStopBefore | src/middleware.rs:34-42 | every entry before the place where a walk stopped succeeded |
| Middleware.RecordsCarryOptions | src/middleware.rs:22-25 | every record of a walk carries the one set of options |
| Middleware.FileRecordsHoldFileBytes | src/middleware.rs:35-39 | every file record holds exactly the bytes of the file its name leads back to |
| Middleware.ArchiveHoldsFiles | src/middleware.rs:28-39 | the archive's file records are the walk's files, once each, in walk order, under their relative names, with all their bytes |
| Middleware.ArchiveHoldsDirectories | src/middleware.rs:40-43 | the archive's directory records are the walk's entries that are not files, except the walked folder, in walk order; the walked folder is not stored |
| Middleware.RecordCount | src/middleware.rs:28-44 | the number of records is the number of files plus the number of other entries except the walked folder |
| Middleware.SinkOpsOfPrefix | src/middleware.rs:28-44 | the first entries of a walk need no more archive operations than the whole walk |
| Middleware.FailureNoticed | src/middleware.rs:34-42 | an entry that fails makes the whole walk fail |
| Middleware.FailedWalk | src/middleware.rs:34-42 | a walk whose entry i fails has stopped at i and fails as a whole, and every record it wrote carries the walk's options |
| Middleware.NextPrefix | src/middleware.rs:28-44 | after a successful turn, the records and operations of the first i + 1 entries are those of the first i followed by those of entry i, and the archive has accepted all of them |
| Middleware.FinishOutcome | src/middleware.rs:45-46 | after every entry succeeded, the walk succeeds exactly when `finish` does; when `finish` fails, the walk has stopped there and holds every entry's records |

## Left out

- `src/main.rs` is not part of this model. It reads the clock, prints with `eprintln` and calls `exit`. As written it also does not line up with the other files: it calls a `get_exclude_files` that `Config` does not have, passes three arguments to the two-argument `create_archive`, and never declares the `middleware` module.
- `create_archive` (`src/file.rs`) is not part of this model. It is a thin wrapper over the tar and gzip libraries.
- `delete_temp_dir` (src/middleware.rs:8-10) is a one-line `remove_dir_all` and is not modelled.
- `read_config_file` and `Config::new` (src/config.rs:28-38, 119-129) are not modelled. They read and parse TOML and exit on failure; a `Config` value stands for a successful parse.
- Child processes, `which` probes and `File::open` are inputs: a probe answer, an exit status with stderr, or a start error. The panic of `expect("")` when `which` itself cannot be started is not modelled.
- BackupResult: stderr is taken as text; the lossy UTF-8 decoding of the raw bytes is not modelled.
- The success messages printed with `eprintln` are not modelled.
- The zip codec is reduced to the records it is asked to write. Deflate compression, ZipCrypto encryption and the archive's byte layout are not modelled.
- Middleware.ZipWriter: failures of the archive file are an oracle over the writer's numbered operations. Each start, non-empty write, directory and finish is one operation. The buffering inside the zip writer is not modelled.
- Middleware.ZipDir: the walk is a sequence of entries whose `is_file` answer is part of the entry; the filesystem is a map from path to bytes or read error. The iterator's own errors and path normalisation (trailing separators, `.` components) are not modelled. The bytes of a file whose read fails part-way are not kept.
- Middleware.ZipDir: the `unwrap` on `strip_prefix` is a precondition: every entry lies under the walked folder.
- Middleware.ZipDir: "finished" means that `finish` returned Ok. The zip library also finalizes a writer that is dropped after an early return. That library behaviour is not modelled.
- A password or user name containing whitespace is split into several mysqldump arguments (src/database.rs:47-50). The model states this behaviour (MysqldumpArgv.PasswordWithSpaceIsSplit) and does not change it.
