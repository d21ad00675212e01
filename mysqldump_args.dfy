/** What mysqldump receives: the connection string that the configuration
    builds for MySQL and MariaDB, extended with the result file and cut at
    whitespace by the dump routine. */
module MysqldumpArgv {
  import opened Common
  import opened Text
  import opened Configuration
  import opened DatabaseDump

  predicate IsMysql(db: Configuration.Database)
  {
    db.dbType == "mysql" || db.dbType == "mariadb"
  }

  predicate HasCredentials(db: Configuration.Database)
  {
    db.username.Some? && db.password.Some?
  }

  function ResultFileArg(backupLocation: string, datetime: string): string
  {
    "--result-file=" + backupLocation + datetime + "-db.sql"
  }

  /** The arguments field by field: the words of the user, password, host
      and database fields, the port, and the words of the result-file
      option, in that order. */
  function ArgvByField(db: Configuration.Database, backupLocation: string, datetime: string): seq<string>
    requires db.host.Some? && db.dbName.Some?
  {
    if HasCredentials(db) then
      SplitWhitespace("--user=" + db.username.value) + SplitWhitespace("--password=" + db.password.value) +
      SplitWhitespace("--host=" + db.host.value) + ["--port=" + PortText(db.port, "3306")] +
      SplitWhitespace(db.dbName.value) + SplitWhitespace(ResultFileArg(backupLocation, datetime))
    else
      SplitWhitespace("--host=" + db.host.value) + ["--port=" + PortText(db.port, "3306")] +
      SplitWhitespace(db.dbName.value) + SplitWhitespace(ResultFileArg(backupLocation, datetime))
  }

  /** mysqldump receives the configured fields each split on its own:
      joining them with spaces and re-splitting loses no boundary. */
  lemma MysqldumpArgvByField(c: Config, backupLocation: string, datetime: string)
    requires IsMysql(c.db) && HasConnectionFields(c.db)
    ensures MysqldumpArgs(DbConnectionString(c), backupLocation, datetime) == ArgvByField(c.db, backupLocation, datetime)
  {
    var db := c.db;
    var H := "--host=" + db.host.value;
    var N := "--port=" + PortText(db.port, "3306");
    var D := db.dbName.value;
    var R := ResultFileArg(backupLocation, datetime);
    PortArgIsOneWord(db.port);
    if HasCredentials(db) {
      var U := "--user=" + db.username.value;
      var P := "--password=" + db.password.value;
      CommandLineWithCredentials(db.username.value, db.password.value, db.host.value,
        PortText(db.port, "3306"), D, backupLocation, datetime);
      SplitSixFields(U, P, H, N, D, R);
    } else {
      CommandLineWithoutCredentials(db.host.value, PortText(db.port, "3306"), D, backupLocation, datetime);
      SplitFourFields(H, N, D, R);
    }
  }

  lemma SplitFourFields(h: string, n: string, d: string, r: string)
    ensures SplitWhitespace(h + " " + n + " " + d + " " + r) ==
            SplitWhitespace(h) + SplitWhitespace(n) + SplitWhitespace(d) + SplitWhitespace(r)
  {
    SplitAtSpace(h + " " + n + " " + d, r);
    SplitAtSpace(h + " " + n, d);
    SplitAtSpace(h, n);
  }

  lemma SplitSixFields(u: string, p: string, h: string, n: string, d: string, r: string)
    ensures SplitWhitespace(u + " " + p + " " + h + " " + n + " " + d + " " + r) ==
            SplitWhitespace(u) + SplitWhitespace(p) + SplitWhitespace(h) +
            SplitWhitespace(n) + SplitWhitespace(d) + SplitWhitespace(r)
  {
    var head := u + " " + p;
    SplitFourFields(head + " " + h, n, d, r);
    SplitAtSpace(head, h);
    SplitAtSpace(u, p);
  }

  /** The mysqldump command line with credentials, cut at its spaces. */
  lemma CommandLineWithCredentials(u: string, p: string, h: string, n: string, d: string,
                                   backupLocation: string, datetime: string)
    ensures "--user=" + u + " --password=" + p + " --host=" + h + " --port=" + n + " " + d +
            " --result-file=" + backupLocation + datetime + "-db.sql" ==
            ("--user=" + u) + " " + ("--password=" + p) + " " + ("--host=" + h) + " " +
            ("--port=" + n) + " " + d + " " + ResultFileArg(backupLocation, datetime)
  {
    var x := "--user=" + u + " --password=" + p;
    assert x == ("--user=" + u) + " " + ("--password=" + p);
    var y := x + " --host=" + h;
    assert y == x + " " + ("--host=" + h);
    var z := y + " --port=" + n;
    assert z == y + " " + ("--port=" + n);
    var w := z + " " + d;
    assert w + " --result-file=" + backupLocation + datetime + "-db.sql" == w + " " + ResultFileArg(backupLocation, datetime);
  }

  /** The mysqldump command line without credentials, cut at its spaces. */
  lemma CommandLineWithoutCredentials(h: string, n: string, d: string,
                                      backupLocation: string, datetime: string)
    ensures "--host=" + h + " --port=" + n + " " + d +
            " --result-file=" + backupLocation + datetime + "-db.sql" ==
            ("--host=" + h) + " " + ("--port=" + n) + " " + d + " " + ResultFileArg(backupLocation, datetime)
  {
    var y := "--host=" + h;
    var z := y + " --port=" + n;
    assert z == y + " " + ("--port=" + n);
    var w := z + " " + d;
    assert w + " --result-file=" + backupLocation + datetime + "-db.sql" == w + " " + ResultFileArg(backupLocation, datetime);
  }

  /** The port option never contains whitespace, so it stays one argument. */
  lemma PortArgIsOneWord(port: Option<i64>)
    ensures SplitWhitespace("--port=" + PortText(port, "3306")) == ["--port=" + PortText(port, "3306")]
  {
    var n := PortText(port, "3306");
    assert NoWhitespace(n);
    OptionTextsHaveNoWhitespace();
    NoWhitespaceConcat("--port=", n);
    SplitWord("--port=" + n);
  }

  /** When every field is free of whitespace (and the database name is not
      empty), mysqldump gets one argument per option, in the order the
      connection string lists them, with the result file last. */
  lemma MysqldumpArgvWhitespaceFree(c: Config, backupLocation: string, datetime: string)
    requires IsMysql(c.db) && HasConnectionFields(c.db)
    requires HasCredentials(c.db) ==> NoWhitespace(c.db.username.value) && NoWhitespace(c.db.password.value)
    requires NoWhitespace(c.db.host.value) && NoWhitespace(c.db.dbName.value) && c.db.dbName.value != []
    requires NoWhitespace(backupLocation) && NoWhitespace(datetime)
    ensures
      var db := c.db;
      MysqldumpArgs(DbConnectionString(c), backupLocation, datetime) ==
        (if HasCredentials(db) then ["--user=" + db.username.value, "--password=" + db.password.value] else []) +
        ["--host=" + db.host.value, "--port=" + PortText(db.port, "3306"), db.dbName.value,
         "--result-file=" + backupLocation + datetime + "-db.sql"]
  {
    MysqldumpArgvByField(c, backupLocation, datetime);
    WhitespaceFreeFields(c.db, backupLocation, datetime);
  }

  lemma WhitespaceFreeFields(db: Configuration.Database, backupLocation: string, datetime: string)
    requires db.host.Some? && db.dbName.Some?
    requires HasCredentials(db) ==> NoWhitespace(db.username.value) && NoWhitespace(db.password.value)
    requires NoWhitespace(db.host.value) && NoWhitespace(db.dbName.value) && db.dbName.value != []
    requires NoWhitespace(backupLocation) && NoWhitespace(datetime)
    ensures ArgvByField(db, backupLocation, datetime) ==
      (if HasCredentials(db) then ["--user=" + db.username.value, "--password=" + db.password.value] else []) +
      HostPortNameFile(db, backupLocation, datetime)
  {
    WhitespaceFreeTail(db, backupLocation, datetime);
    if HasCredentials(db) {
      var u := SplitWhitespace("--user=" + db.username.value);
      var p := SplitWhitespace("--password=" + db.password.value);
      var tail := SplitWhitespace("--host=" + db.host.value) + ["--port=" + PortText(db.port, "3306")] +
                  SplitWhitespace(db.dbName.value) + SplitWhitespace(ResultFileArg(backupLocation, datetime));
      SeqConcatAssoc4(u + p, SplitWhitespace("--host=" + db.host.value), ["--port=" + PortText(db.port, "3306")],
                      SplitWhitespace(db.dbName.value), SplitWhitespace(ResultFileArg(backupLocation, datetime)));
      OptionIsOneWord("--user=", db.username.value);
      OptionIsOneWord("--password=", db.password.value);
      assert u + p == ["--user=" + db.username.value, "--password=" + db.password.value];
    }
  }

  lemma SeqConcatAssoc4<T>(a: seq<T>, b: seq<T>, c: seq<T>, d: seq<T>, e: seq<T>)
    ensures a + b + c + d + e == a + (b + c + d + e)
  {
  }

  /** The last four arguments when host, database name, folder and
      date-time have no whitespace. */
  function HostPortNameFile(db: Configuration.Database, backupLocation: string, datetime: string): seq<string>
    requires db.host.Some? && db.dbName.Some?
  {
    ["--host=" + db.host.value, "--port=" + PortText(db.port, "3306"), db.dbName.value,
     "--result-file=" + backupLocation + datetime + "-db.sql"]
  }

  lemma WhitespaceFreeTail(db: Configuration.Database, backupLocation: string, datetime: string)
    requires db.host.Some? && db.dbName.Some?
    requires NoWhitespace(db.host.value) && NoWhitespace(db.dbName.value) && db.dbName.value != []
    requires NoWhitespace(backupLocation) && NoWhitespace(datetime)
    ensures SplitWhitespace("--host=" + db.host.value) + ["--port=" + PortText(db.port, "3306")] +
            SplitWhitespace(db.dbName.value) + SplitWhitespace(ResultFileArg(backupLocation, datetime)) ==
            HostPortNameFile(db, backupLocation, datetime)
  {
    OptionIsOneWord("--host=", db.host.value);
    SplitWord(db.dbName.value);
    ResultFileIsOneWord(backupLocation, datetime);
  }

  /** The connection string is re-tokenised at whitespace, so a password
      that contains a space reaches mysqldump as two arguments: the
      `--password=` option holds only the part before the space, and the
      rest becomes a stray positional argument before the host. */
  lemma PasswordWithSpaceIsSplit(c: Config, backupLocation: string, datetime: string, before: string, after: string)
    requires IsMysql(c.db) && HasConnectionFields(c.db) && HasCredentials(c.db)
    requires c.db.password.value == before + " " + after
    requires NoWhitespace(before) && NoWhitespace(after) && after != []
    requires NoWhitespace(c.db.username.value) && NoWhitespace(c.db.host.value)
    requires NoWhitespace(c.db.dbName.value) && c.db.dbName.value != []
    requires NoWhitespace(backupLocation) && NoWhitespace(datetime)
    ensures
      var db := c.db;
      MysqldumpArgs(DbConnectionString(c), backupLocation, datetime) ==
        ["--user=" + db.username.value, "--password=" + before, after] + HostPortNameFile(db, backupLocation, datetime)
  {
    var db := c.db;
    MysqldumpArgvByField(c, backupLocation, datetime);
    WhitespaceFreeTail(db, backupLocation, datetime);
    var u := SplitWhitespace("--user=" + db.username.value);
    var p := SplitWhitespace("--password=" + db.password.value);
    SeqConcatAssoc4(u + p, SplitWhitespace("--host=" + db.host.value), ["--port=" + PortText(db.port, "3306")],
                    SplitWhitespace(db.dbName.value), SplitWhitespace(ResultFileArg(backupLocation, datetime)));
    OptionIsOneWord("--user=", db.username.value);
    SpacedValueWords("--password=", before, after);
    assert u + p == ["--user=" + db.username.value, "--password=" + before, after];
  }

  /** An option whose value holds one space splits into the option with the
      first part and the second part alone. */
  lemma SpacedValueWords(option: string, before: string, after: string)
    requires option == "--password="
    requires NoWhitespace(before) && NoWhitespace(after) && after != []
    ensures SplitWhitespace(option + (before + " " + after)) == [option + before, after]
  {
    assert option + (before + " " + after) == (option + before) + " " + after;
    SplitAtSpace(option + before, after);
    OptionIsOneWord(option, before);
    SplitWord(after);
  }

  /** An option name followed by a whitespace-free value is one argument. */
  lemma OptionIsOneWord(option: string, value: string)
    requires option == "--user=" || option == "--password=" || option == "--host="
    requires NoWhitespace(value)
    ensures SplitWhitespace(option + value) == [option + value]
  {
    OptionTextsHaveNoWhitespace();
    NoWhitespaceConcat(option, value);
    SplitWord(option + value);
  }
}
