/**
 * Package lib of the strap migration tool (pkg/lib/lib.go): credential
 * validation, the database manager's construction, the resolution of the
 * package-level `migrationsDir`, the listing of migration files, the path of a
 * new migration file and `MigrateUp` up to its list of pending migrations.
 * Database queries, the clock and the filesystem are parameters.
 */
module Lib {
  import opened Wrappers
  import opened Records
  import Pending
  import Paths
  import Naming

  /** The initial value of the package-level `migrationsDir`. */
  const DefaultMigrationsDir: string := "db/migrations"

  /** The credentials are usable when none of host, password, name and user is empty. */
  predicate IsCredentialsValid(c: Config)
    ensures IsCredentialsValid(c) <==>
      c.database.host != "" && c.database.password != "" && c.database.name != "" && c.database.user != ""
  {
    !(c.database.host == "" || c.database.password == "" || c.database.name == "" || c.database.user == "")
  }

  /** Validity looks at the database credentials only, and each of the four is needed. */
  lemma CredentialsNeedAllFour(c: Config, m: MigrationSection, loaded: bool)
    ensures IsCredentialsValid(c) == IsCredentialsValid(c.(migration := m, loaded := loaded))
    ensures !IsCredentialsValid(c.(database := c.database.(host := "")))
    ensures !IsCredentialsValid(c.(database := c.database.(user := "")))
    ensures !IsCredentialsValid(c.(database := c.database.(password := "")))
    ensures !IsCredentialsValid(c.(database := c.database.(name := "")))
    ensures !IsCredentialsValid(ZeroConfig)
  {
  }

  /**
   * `NewDatabaseManager` as written: it fails exactly when a configuration is
   * given AND its credentials are valid, and otherwise returns a manager with
   * only the connection set.
   */
  function NewDatabaseManager(conn: Option<Conn>, conf: Option<Config>): (r: Result<DatabaseManager, Failure>)
    ensures r.Failure? <==> conf.Some? && IsCredentialsValid(conf.value)
    ensures r.Failure? ==> r.error == NoCredentials
    ensures r.Success? ==> r.value.connection == conn && r.value.config.None? && r.value.migrations == []
  {
    if conf.Some? && IsCredentialsValid(conf.value) then Failure(NoCredentials)
    else Success(DatabaseManager(None, [], conn))
  }

  /**
   * The constructor its error message asks for: it refuses a missing
   * configuration or one without valid credentials, and keeps the configuration
   * it was given so that `MigrateUp` can read the migration directory from it.
   */
  function NewDatabaseManagerIntended(conn: Option<Conn>, conf: Option<Config>): (r: Result<DatabaseManager, Failure>)
    ensures r.Failure? <==> conf.None? || !IsCredentialsValid(conf.value)
    ensures r.Failure? ==> r.error == NoCredentials
    ensures r.Success? ==> r.value.connection == conn && r.value.config == conf && r.value.migrations == []
  {
    if conf.None? || !IsCredentialsValid(conf.value) then Failure(NoCredentials)
    else Success(DatabaseManager(conf, [], conn))
  }

  /** The guard as written turns good credentials away and lets empty ones through. */
  lemma InvertedGuard(conn: Option<Conn>, host: string, user: string, password: string, name: string)
    requires host != "" && user != "" && password != "" && name != ""
    ensures NewDatabaseManager(conn, Some(Config(Database(host, user, password, name), MigrationSection(""), true)))
      == Failure(NoCredentials)
    ensures NewDatabaseManager(conn, Some(ZeroConfig)).Success?
    ensures NewDatabaseManagerIntended(conn, Some(Config(Database(host, user, password, name), MigrationSection(""), true))).Success?
    ensures NewDatabaseManagerIntended(conn, Some(ZeroConfig)) == Failure(NoCredentials)
  {
    assert !IsCredentialsValid(ZeroConfig);
  }

  /** The directory `migrationsDir` holds after a configuration was read: the configured one if set. */
  function ResolvedDirectory(conf: Config, prior: string): (dir: string)
    ensures conf.migration.directory != "" ==> dir == conf.migration.directory
    ensures conf.migration.directory == "" ==> dir == prior
    ensures prior != "" ==> dir != ""
  {
    if conf.migration.directory != "" then conf.migration.directory else prior
  }

  /** `migrationsDir` after `listMigrationFiles(conf)`: a nil configuration panics before any assignment. */
  function DirectoryAfter(conf: Option<Config>, prior: string): string
  {
    match conf
    case None => prior
    case Some(c) => ResolvedDirectory(c, prior)
  }

  /** The names of the entries, in order. */
  function EntryNames(contents: seq<DirEntry>): seq<string>
  {
    seq(|contents|, k requires 0 <= k < |contents| => contents[k].name)
  }

  /** What `listMigrationFiles(conf)` returns (or how it stops) when `migrationsDir` was `prior`. */
  function ListedFiles(conf: Option<Config>, prior: string, fs: FileSystem): Result<seq<string>, Failure>
  {
    match conf
    case None => Failure(NilConfig)
    case Some(c) =>
      var path := Paths.JoinDot(ResolvedDirectory(c, prior));
      if path in fs then Success(EntryNames(fs[path])) else Failure(ReadDirFailed(path))
  }

  /** What `MigrateUp` ends with: a failure, or the pending list it prints. */
  function MigrateUpOutcome(conf: Option<Config>, executed: seq<Migration>, prior: string, fs: FileSystem)
    : Result<seq<string>, Failure>
  {
    match ListedFiles(conf, prior, fs)
    case Failure(e) => Failure(e)
    case Success(files) =>
      if |files| == 0 then Failure(NoMigrationFiles) else Success(Pending.Pending(files, executed))
  }

  /** How `CreateMigrationFile`'s call to `LoadConfig` went wrong. */
  datatype LoadError = NotExist | OtherLoadError(reason: string)

  /** The loop of `listMigrationFiles`: appends each entry's name, sub-directories included. */
  method CollectNames(contents: seq<DirEntry>) returns (files: seq<string>)
    ensures |files| == |contents|
    ensures forall k :: 0 <= k < |contents| ==> files[k] == contents[k].name
    ensures files == EntryNames(contents)
  {
    files := [];
    for i := 0 to |contents|
      invariant |files| == i
      invariant forall k :: 0 <= k < i ==> files[k] == contents[k].name
    {
      files := files + [contents[i].name];
    }
  }

  /** The package's mutable state: the global `migrationsDir`. */
  class PackageState {
    var migrationsDir: string

    constructor ()
      ensures migrationsDir == DefaultMigrationsDir
    {
      migrationsDir := DefaultMigrationsDir;
    }

    /** The override of `migrationsDir` and `filepath.Join(".", migrationsDir)` shared by both callers. */
    method ResolveDirectory(conf: Config) returns (path: string)
      modifies this
      ensures migrationsDir == ResolvedDirectory(conf, old(migrationsDir))
      ensures conf.migration.directory != "" ==> migrationsDir == conf.migration.directory
      ensures conf.migration.directory == "" ==> migrationsDir == old(migrationsDir)
      ensures path == Paths.JoinDot(migrationsDir)
    {
      if conf.migration.directory != "" {
        migrationsDir := conf.migration.directory;
      }
      path := Paths.JoinDot(migrationsDir);
    }

    /** `listMigrationFiles`: a nil configuration panics, an unreadable directory exits. */
    method ListMigrationFiles(conf: Option<Config>, fs: FileSystem) returns (r: Result<seq<string>, Failure>)
      modifies this
      ensures migrationsDir == DirectoryAfter(conf, old(migrationsDir))
      ensures r == ListedFiles(conf, old(migrationsDir), fs)
    {
      if conf.None? {
        return Failure(NilConfig);
      }
      var path := ResolveDirectory(conf.value);
      if path !in fs {
        return Failure(ReadDirFailed(path));
      }
      var files := CollectNames(fs[path]);
      r := Success(files);
    }

    /**
     * `MigrateUp` up to the TODO: `executed` is what `findExecutedMigrations`
     * read from the ledger; an empty listing stops with "No migration files found".
     */
    method MigrateUp(db: DatabaseManager, executed: seq<Migration>, fs: FileSystem)
      returns (r: Result<seq<string>, Failure>)
      modifies this
      ensures migrationsDir == DirectoryAfter(db.config, old(migrationsDir))
      ensures r == MigrateUpOutcome(db.config, executed, old(migrationsDir), fs)
    {
      var migrationFiles :- ListMigrationFiles(db.config, fs);
      if |migrationFiles| == 0 {
        return Failure(NoMigrationFiles);
      }
      var pendingMigrations := Pending.PendingMigrations(migrationFiles, executed);
      r := Success(pendingMigrations);
    }

    /**
     * `CreateMigrationFile` up to `os.Create`: the path of the new file. An empty
     * name is only reported; the file is still named with it.
     */
    method CreateMigrationFile(name: string, loaded: Result<Config, LoadError>, now: Naming.Int64)
      returns (r: Result<string, Failure>)
      modifies this
      ensures loaded.Failure? ==> migrationsDir == old(migrationsDir)
      ensures loaded.Failure? && loaded.error.NotExist? ==> r == Failure(ConfigNotFound)
      ensures loaded.Failure? && loaded.error.OtherLoadError? ==> r == Failure(ConfigUnreadable(loaded.error.reason))
      ensures loaded.Success? ==> migrationsDir == ResolvedDirectory(loaded.value, old(migrationsDir))
      ensures loaded.Success? ==> r == Success(Naming.MigrationFilePath(Paths.JoinDot(migrationsDir), now, name))
    {
      if loaded.Failure? {
        if loaded.error.NotExist? {
          return Failure(ConfigNotFound);
        }
        return Failure(ConfigUnreadable(loaded.error.reason));
      }
      var path := ResolveDirectory(loaded.value);
      r := Success(Naming.MigrationFilePath(path, now, name));
    }
  }

  /** A refused construction shows "no database credentials available". */
  lemma CredentialsMessage(conn: Option<Conn>, conf: Option<Config>)
    ensures NewDatabaseManager(conn, conf).Failure? ==>
      Message(NewDatabaseManager(conn, conf).error) == "no database credentials available"
  {
  }

  /** An empty listing makes `MigrateUp` show "No migration files found". */
  lemma EmptyListingMessage(conf: Option<Config>, executed: seq<Migration>, prior: string, fs: FileSystem)
    ensures ListedFiles(conf, prior, fs) == Success([]) ==>
      MigrateUpOutcome(conf, executed, prior, fs).Failure? &&
      Message(MigrateUpOutcome(conf, executed, prior, fs).error) == "No migration files found"
  {
  }

  /**
   * With a name free of "/", the created path is the listed directory followed by
   * exactly one more element, the base name. A name holding "/" carries it into
   * the base name, so the file would sit in a sub-directory and is never one
   * entry of the listing.
   */
  lemma CreatedPathElements(dir: string, now: Naming.Int64, name: string)
    ensures '/' !in name ==>
      Paths.Split(Naming.MigrationFilePath(dir, now, name)) == Paths.Split(dir) + [Naming.MigrationFileName(now, name)]
    ensures '/' in name ==> '/' in Naming.MigrationFileName(now, name)
  {
    var base := Naming.MigrationFileName(now, name);
    Naming.FilePathShape(dir, now, name);
    Naming.FileNameSlashes(now, name);
    Paths.SplitAround(dir, base);
    if '/' !in name {
      Paths.SplitElement(base);
    }
  }

  /** An empty listing is the one way `MigrateUp` stops with "No migration files found". */
  lemma EmptyListingFails(conf: Option<Config>, executed: seq<Migration>, prior: string, fs: FileSystem)
    ensures MigrateUpOutcome(conf, executed, prior, fs) == Failure(NoMigrationFiles)
      <==> ListedFiles(conf, prior, fs) == Success([])
  {
  }

  /** Success means a non-empty listing, and the result is its pending diff. */
  lemma MigrateUpReachesDiff(conf: Option<Config>, executed: seq<Migration>, prior: string, fs: FileSystem)
    ensures MigrateUpOutcome(conf, executed, prior, fs).Success?
      <==> ListedFiles(conf, prior, fs).Success? && ListedFiles(conf, prior, fs).value != []
    ensures MigrateUpOutcome(conf, executed, prior, fs).Success? ==>
      MigrateUpOutcome(conf, executed, prior, fs).value == Pending.Pending(ListedFiles(conf, prior, fs).value, executed)
  {
  }

  /** A manager made by `NewDatabaseManager` has no configuration, so once the ledger has been read its `MigrateUp` panics. */
  lemma ConstructedManagerCannotMigrate(conn: Option<Conn>, conf: Option<Config>, executed: seq<Migration>,
                                       prior: string, fs: FileSystem)
    requires NewDatabaseManager(conn, conf).Success?
    ensures MigrateUpOutcome(NewDatabaseManager(conn, conf).value.config, executed, prior, fs) == Failure(NilConfig)
  {
  }

  /** A manager made by the corrected constructor reaches the diff over its configured directory. */
  lemma IntendedManagerMigrates(conn: Option<Conn>, c: Config, executed: seq<Migration>, prior: string, fs: FileSystem)
    requires IsCredentialsValid(c)
    requires Paths.JoinDot(ResolvedDirectory(c, prior)) in fs
    requires fs[Paths.JoinDot(ResolvedDirectory(c, prior))] != []
    ensures var m := NewDatabaseManagerIntended(conn, Some(c));
      && m.Success?
      && MigrateUpOutcome(m.value.config, executed, prior, fs)
         == Success(Pending.Pending(EntryNames(fs[Paths.JoinDot(ResolvedDirectory(c, prior))]), executed))
  {
  }

  /**
   * Running `MigrateUp` again, with the directory it left behind and a ledger that
   * now also records every pending name, leaves nothing pending.
   */
  lemma SecondRunIsNoOp(conf: Option<Config>, executed: seq<Migration>, recorded: seq<Migration>,
                        prior: string, fs: FileSystem)
    requires MigrateUpOutcome(conf, executed, prior, fs).Success?
    requires forall f :: f in MigrateUpOutcome(conf, executed, prior, fs).value ==> Pending.IsExecuted(f, recorded)
    ensures MigrateUpOutcome(conf, executed + recorded, DirectoryAfter(conf, prior), fs) == Success([])
  {
    var files := ListedFiles(conf, prior, fs).value;
    assert ListedFiles(conf, DirectoryAfter(conf, prior), fs) == ListedFiles(conf, prior, fs);
    Pending.RerunAfterRecording(files, executed, recorded);
  }

  /** With no configured directory, files are listed from and created in "db/migrations". */
  lemma DefaultDirectoryIsUsed(c: Config)
    requires c.migration.directory == ""
    ensures Paths.JoinDot(ResolvedDirectory(c, DefaultMigrationsDir)) == "db/migrations"
  {
    Paths.TwoPlainElementsUnchanged("db", "migrations");
    assert "db" + "/" + "migrations" == DefaultMigrationsDir;
  }

  /**
   * The path created under a configuration is the directory that `MigrateUp`
   * lists under the same configuration, a "/", and the base name; a listed base
   * name that no ledger row carries is reported pending.
   */
  lemma CreatedFileIsPending(c: Config, prior: string, fs: FileSystem, executed: seq<Migration>,
                             now: Naming.Int64, name: string)
    requires var dir := Paths.JoinDot(ResolvedDirectory(c, prior));
      dir in fs && DirEntry(Naming.MigrationFileName(now, name), false) in fs[dir]
    requires !Pending.IsExecuted(Naming.MigrationFileName(now, name), executed)
    ensures var dir := Paths.JoinDot(ResolvedDirectory(c, prior));
      && Naming.MigrationFilePath(dir, now, name) == dir + "/" + Naming.MigrationFileName(now, name)
      && MigrateUpOutcome(Some(c), executed, prior, fs).Success?
      && Naming.MigrationFileName(now, name) in MigrateUpOutcome(Some(c), executed, prior, fs).value
  {
    var dir := Paths.JoinDot(ResolvedDirectory(c, prior));
    var base := Naming.MigrationFileName(now, name);
    var entries := fs[dir];
    var k :| 0 <= k < |entries| && entries[k] == DirEntry(base, false);
    var files := EntryNames(entries);
    assert files[k] == base;
    Pending.PendingMembership(files, executed);
    Naming.FilePathShape(dir, now, name);
  }
}
