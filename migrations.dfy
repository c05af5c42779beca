/** The migration script: it reads `DATABASE_URL`, derives a connection
    configuration from it, and, if the `calls` table has no
    `numberOfTrials` column, drops `clinic` (when present) and adds
    `numberOfTrials int NOT NULL DEFAULT 1`; it ends the process with
    exit code 0 on success and 1 on any error.

    The table is a set of column names and its rows, one map from column
    name to value per row. Parsing the URL text is a parameter (`parse`, with
    `None` for a string `new URL` refuses); whether the server accepts the
    connection and its statements is the flag `reachable`. */
module Migrations {
  import opened Wrappers

  const TrialsColumn: string := "numberOfTrials"
  const ClinicColumn: string := "clinic"
  const TrialsDefault: int := 1
  const DefaultPort: int := 3306

  datatype Cell = IntCell(n: int) | TextCell(s: string) | NullCell

  /** The parts of a parsed URL that the configuration uses; `port` is `""` when the URL names none. */
  datatype Url = Url(hostname: string, username: string, password: string, pathname: string, port: string)

  /** `url.port || 3306`: the URL's port text, or the number 3306. */
  datatype Port = PortText(text: string) | PortNumber(n: int)

  datatype Config = Config(host: string, user: string, password: string, database: string, port: Port)

  /** The configuration object built from the URL. */
  function ConfigOf(url: Url): Config {
    Config(url.hostname, url.username, url.password,
           if |url.pathname| >= 1 then url.pathname[1..] else "",
           if url.port != "" then PortText(url.port) else PortNumber(DefaultPort))
  }

  /** The database is the path without its leading `/`; the port is the URL's, or 3306. */
  lemma ConfigFields(url: Url, name: string)
    ensures url.pathname == "/" + name ==> ConfigOf(url).database == name
    ensures url.port == "" <==> ConfigOf(url).port == PortNumber(DefaultPort)
    ensures url.port != "" ==> ConfigOf(url).port == PortText(url.port)
    ensures ConfigOf(url).host == url.hostname && ConfigOf(url).user == url.username
  {
    if url.pathname == "/" + name {
      assert url.pathname[1..] == name;
    }
  }

  /** The column set after the script. */
  function Migrated(columns: set<string>): set<string> {
    if TrialsColumn in columns then columns else (columns - {ClinicColumn}) + {TrialsColumn}
  }

  /** The rows after the script: `clinic` dropped, `numberOfTrials` filled with its default. */
  function MigratedRows(columns: set<string>, rows: seq<map<string, Cell>>): (r: seq<map<string, Cell>>)
    ensures |r| == |rows|
  {
    if TrialsColumn in columns then rows
    else seq(|rows|, i requires 0 <= i < |rows| => (rows[i] - {ClinicColumn})[TrialsColumn := IntCell(TrialsDefault)])
  }

  function DropFrom(rows: seq<map<string, Cell>>, name: string): (r: seq<map<string, Cell>>)
    ensures |r| == |rows|
  {
    seq(|rows|, i requires 0 <= i < |rows| => rows[i] - {name})
  }

  function AddTo(rows: seq<map<string, Cell>>, name: string, default: int): (r: seq<map<string, Cell>>)
    ensures |r| == |rows|
  {
    seq(|rows|, i requires 0 <= i < |rows| => rows[i][name := IntCell(default)])
  }

  /** Every row has exactly the table's columns. */
  predicate WellFormed(columns: set<string>, rows: seq<map<string, Cell>>) {
    forall i | 0 <= i < |rows| :: rows[i].Keys == columns
  }

  // Properties of the decision

  lemma TrialsPresentAfter(columns: set<string>)
    ensures TrialsColumn in Migrated(columns)
  {
  }

  lemma PresentMeansUnchanged(columns: set<string>, rows: seq<map<string, Cell>>)
    requires TrialsColumn in columns
    ensures Migrated(columns) == columns
    ensures ClinicColumn in columns ==> ClinicColumn in Migrated(columns)
    ensures MigratedRows(columns, rows) == rows
  {
  }

  /** Without `numberOfTrials`, `clinic` goes and `numberOfTrials` comes, with
      its default in every existing row. */
  lemma AbsentMeansReplaced(columns: set<string>, rows: seq<map<string, Cell>>)
    requires TrialsColumn !in columns
    ensures ClinicColumn !in Migrated(columns) && TrialsColumn in Migrated(columns)
    ensures forall i | 0 <= i < |rows| ::
      ClinicColumn !in MigratedRows(columns, rows)[i]
      && TrialsColumn in MigratedRows(columns, rows)[i]
      && MigratedRows(columns, rows)[i][TrialsColumn] == IntCell(TrialsDefault)
  {
  }

  /** Running the script twice leaves what running it once left. */
  lemma Idempotent(columns: set<string>, rows: seq<map<string, Cell>>)
    ensures Migrated(Migrated(columns)) == Migrated(columns)
    ensures MigratedRows(Migrated(columns), MigratedRows(columns, rows)) == MigratedRows(columns, rows)
  {
  }

  /** No other column is touched, in the column set or in any row. */
  lemma OthersUntouched(columns: set<string>, rows: seq<map<string, Cell>>, c: string)
    requires c != ClinicColumn && c != TrialsColumn
    ensures c in Migrated(columns) <==> c in columns
    ensures forall i | 0 <= i < |rows| ::
      (c in MigratedRows(columns, rows)[i] <==> c in rows[i])
      && (c in rows[i] ==> MigratedRows(columns, rows)[i][c] == rows[i][c])
  {
  }

  lemma KeepsWellFormed(columns: set<string>, rows: seq<map<string, Cell>>)
    requires WellFormed(columns, rows)
    ensures WellFormed(Migrated(columns), MigratedRows(columns, rows))
  {
    if TrialsColumn !in columns {
      forall i | 0 <= i < |rows|
        ensures MigratedRows(columns, rows)[i].Keys == Migrated(columns)
      {
        assert (rows[i] - {ClinicColumn}).Keys == columns - {ClinicColumn};
      }
    }
  }

  // The database server and the script

  /** The `calls` table on the server the script connects to. */
  class Server {
    const reachable: bool
    var columns: set<string>
    var rows: seq<map<string, Cell>>

    ghost predicate Valid()
      reads this
    {
      WellFormed(columns, rows)
    }

    constructor (reachable: bool, columns: set<string>, rows: seq<map<string, Cell>>)
      requires WellFormed(columns, rows)
      ensures Valid() && this.reachable == reachable && this.columns == columns && this.rows == rows
    {
      this.reachable := reachable;
      this.columns := columns;
      this.rows := rows;
    }

    /** `SELECT COLUMN_NAME FROM INFORMATION_SCHEMA.COLUMNS WHERE TABLE_NAME = 'calls' AND COLUMN_NAME = ?`,
        as "is there a row": the column exists. */
    method ColumnExists(name: string) returns (b: bool)
      ensures b <==> name in columns
    {
      b := name in columns;
    }

    /** `ALTER TABLE calls DROP COLUMN` */
    method DropColumn(name: string)
      requires Valid()
      modifies this
      ensures Valid()
      ensures columns == old(columns) - {name}
      ensures rows == DropFrom(old(rows), name)
    {
      columns := columns - {name};
      rows := DropFrom(rows, name);
    }

    /** `ALTER TABLE calls ADD COLUMN … NOT NULL DEFAULT d`: existing rows take the default. */
    method AddIntColumn(name: string, default: int)
      requires Valid()
      modifies this
      ensures Valid()
      ensures columns == old(columns) + {name}
      ensures rows == AddTo(old(rows), name, default)
    {
      columns := columns + {name};
      rows := AddTo(rows, name, default);
    }
  }

  /** The whole script: its exit code and the configuration it connects with. */
  method RunMigrations(databaseUrl: Option<string>, parse: string -> Option<Url>, server: Server)
    returns (exitCode: int, config: Option<Config>)
    requires server.Valid()
    modifies server
    ensures server.Valid()
    ensures exitCode == 0 || exitCode == 1
    ensures databaseUrl.None? || databaseUrl == Some("") ==> exitCode == 1 && config.None? && unchanged(server)
    ensures databaseUrl.Some? && databaseUrl != Some("") && parse(databaseUrl.value).None? ==>
      exitCode == 1 && config.None? && unchanged(server)
    ensures databaseUrl.Some? && databaseUrl != Some("") && parse(databaseUrl.value).Some? ==>
      config == Some(ConfigOf(parse(databaseUrl.value).value))
    ensures databaseUrl.Some? && databaseUrl != Some("") && parse(databaseUrl.value).Some? && !server.reachable ==>
      exitCode == 1 && unchanged(server)
    ensures databaseUrl.Some? && databaseUrl != Some("") && parse(databaseUrl.value).Some? && server.reachable ==>
      && exitCode == 0
      && server.columns == Migrated(old(server.columns))
      && server.rows == MigratedRows(old(server.columns), old(server.rows))
  {
    if databaseUrl.None? || databaseUrl.value == "" {
      return 1, None;
    }
    var url := parse(databaseUrl.value);
    if url.None? {
      return 1, None;
    }
    config := Some(ConfigOf(url.value));
    if !server.reachable {
      return 1, config;
    }
    var hasTrials := server.ColumnExists(TrialsColumn);
    if !hasTrials {
      ghost var before := server.rows;
      var hasClinic := server.ColumnExists(ClinicColumn);
      if hasClinic {
        server.DropColumn(ClinicColumn);
      } else {
        assert forall i | 0 <= i < |before| :: before[i] - {ClinicColumn} == before[i];
        assert server.rows == DropFrom(before, ClinicColumn);
      }
      server.AddIntColumn(TrialsColumn, TrialsDefault);
      assert server.rows == AddTo(DropFrom(before, ClinicColumn), TrialsColumn, TrialsDefault);
    }
    exitCode := 0;
  }
}
