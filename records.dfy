/**
 * The value entities of package lib: the decoded configuration, one row of the
 * `migrations` ledger table, the database manager, a directory listing, and the
 * structured failures that replace the source's printed errors and exits.
 */
module Records {
  import opened Wrappers

  /** The `[database]`-style credentials of `Config.Database`. */
  datatype Database = Database(host: string, user: string, password: string, name: string)

  /** `Config.Migration`: where the migration files live ("" means "not configured"). */
  datatype MigrationSection = MigrationSection(directory: string)

  /** `Config`: what `LoadConfig` decodes from strap.toml, plus the `Loaded` flag it sets. */
  datatype Config = Config(database: Database, migration: MigrationSection, loaded: bool)

  /** The zero value of `Config`, every string empty. */
  const ZeroConfig: Config := Config(Database("", "", "", ""), MigrationSection(""), false)

  /** A row of the ledger table (`Migration`); only `name` takes part in the pending diff. */
  datatype Migration = Migration(id: nat, name: string, timestamp: int, filename: string, pending: bool)

  /** An opaque live database connection (`*pgx.Conn`); the identifier only lets two be told apart. */
  datatype Conn = Conn(id: nat)

  /**
   * `DatabaseManager`: pointer fields become options (None is nil); a nil
   * `Migrations` slice is the empty sequence.
   */
  datatype DatabaseManager = DatabaseManager(config: Option<Config>, migrations: seq<Migration>, connection: Option<Conn>)

  /** One entry of a directory as returned by `os.ReadDir`: files and sub-directories alike. */
  datatype DirEntry = DirEntry(name: string, isDir: bool)

  /**
   * The part of the filesystem the model reads: each readable directory path
   * mapped to its entries in the order `os.ReadDir` returns them (sorted by name).
   * A path that is not a key cannot be read.
   */
  type FileSystem = map<string, seq<DirEntry>>

  /** Errors the source prints before exiting (or panics with), as values. */
  datatype Failure =
    | NoCredentials           // NewDatabaseManager's error
    | NilConfig               // listMigrationFiles dereferences a nil *Config (a runtime panic)
    | ReadDirFailed(path: string)
    | NoMigrationFiles
    | ConfigNotFound
    | ConfigUnreadable(reason: string)

  /** The text shown to the operator for each failure. */
  function Message(f: Failure): string
  {
    match f
    case NoCredentials => "no database credentials available"
    case NilConfig => "runtime error: invalid memory address or nil pointer dereference"
    case ReadDirFailed(path) => "open " + path  // followed by the operating system's reason
    case NoMigrationFiles => "No migration files found"
    case ConfigNotFound => "Config file not found: Please run 'strap init'"
    case ConfigUnreadable(reason) => reason
  }
}
