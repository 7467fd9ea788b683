# strap migration core, modelled in Dafny

strap is a command-line tool that keeps a PostgreSQL database in step with a
directory of SQL migration files. Package `lib` (pkg/lib/lib.go) holds what it
decides on its own: whether a configuration's credentials are usable, how a
`DatabaseManager` is built, which directory the migration files live in (the
package-level `migrationsDir`, "db/migrations" unless the configuration names
another), the path a new migration file is created at
(`<dir>/<unix-millis>-<name>.sql`), and, in `MigrateUp`, which listed files are
still pending because no row of the `migrations` ledger table carries their name.

The project has six modules, one file each:

- `wrappers.dfy` (`Wrappers`): `Option` and `Result`, used where the source
  prints an error and exits, panics, or returns an `error`.
- `records.dfy` (`Records`): the value types `Config`, `Migration` (a
  ledger row), `DatabaseManager`, `DirEntry`, the filesystem as a map from
  directory path to its entries, and the `Failure` values with their messages.
- `pending.dfy` (`Pending`): the pending diff. `Pending` is its specification, a
  filter of the listing by "no ledger row has this name". `PendingMigrations` is
  the source's labelled nested loop, proved equal to that specification. The
  lemmas around them prove membership, order, multiplicity, length and
  idempotence.
- `naming.dfy` (`Naming`): `fmt.Sprint` of the `int64` millisecond timestamp,
  the new file's name and path, and two parsers. `ParseDecimal` is an exact
  inverse of the printing. `SplitMigrationFileName` inverts the file name for
  non-negative timestamps; a negative timestamp gives a name that does not
  split back.
- `paths.dfy` (`Paths`): `filepath.Join(".", dir)` on a Unix-like system,
  which is Go's lexical `Clean` of `"./" + dir`.
- `lib.dfy` (`Lib`): `IsCredentialsValid`, `NewDatabaseManager`, and the class
  `PackageState`. Its field `migrationsDir` is the global, and its methods
  `ResolveDirectory`, `ListMigrationFiles`, `MigrateUp` and `CreateMigrationFile`
  update it as the source does. Each method is proved against a specification
  function (`ResolvedDirectory`, `DirectoryAfter`, `ListedFiles`,
  `MigrateUpOutcome`), and lemmas relate those functions to each other.

Inputs the source obtains by I/O are parameters: the executed ledger rows
(`findExecutedMigrations`), the directory contents (`os.ReadDir`, as a map from
path to entries in the order ReadDir returns them), the outcome of `LoadConfig`,
and the clock reading (`time.Now().UnixMilli()`).

Behaviour of the code worth knowing:

- Pending migrations are reported in the order of the directory listing.
  `os.ReadDir` orders entries by file name, so "1000-b.sql" comes before
  "999-a.sql".
- Each whole entry name, sub-directories and non-".sql" entries included, is
  compared with the ledger's `Name` column; file names are not parsed.
- A configured absolute directory is taken relative to the working directory:
  `filepath.Join(".", "/srv/m")` is "srv/m" (`Paths.LeadingSlashIgnored`).
- A name containing "/" makes line 158 name a file in a sub-directory of the
  migration directory (`Lib.CreatedPathElements`), so that file never shows up
  in the migration listing.
- An empty migration directory ends the run with "No migration files found"
  and exit status 1.
- `MigrateUp` stops after computing the pending list; running the pending
  migrations is a TODO, and `MigrateDown` is empty.

## Model

| member | source | states |
|---|---|---|
| Pending.PendingMigrations | pkg/lib/lib.go:276-286 | the nested loop with `continue outer` yields exactly `Pending(files, executed)`; a name is in the result iff it is listed and no executed row has that `Name` |
| Pending.PendingMembership | pkg/lib/lib.go:278-286 | every pending name is a listed file that matches no executed `Name`, and every such listed file is pending |
| Pending.KeptPositionsExact | pkg/lib/lib.go:279-285 | the kept positions are strictly increasing positions of the listing, and a position is kept exactly when its file is not executed |
| Pending.PendingIsSelection | pkg/lib/lib.go:279-285 | the pending list is the listing read at the kept positions: a sub-sequence in listing order |
| Pending.PendingMultiplicity | pkg/lib/lib.go:279-285 | a name occurs in the pending list as often as in the listing if not executed, and zero times if executed |
| Pending.PendingLength | pkg/lib/lib.go:279-285 | the pending list is never longer than the listing; it has the same length exactly when no listed file is executed |
| Pending.NothingExecuted | pkg/lib/lib.go:278-286 | with an empty ledger the pending list is the whole listing |
| Pending.AllExecuted | pkg/lib/lib.go:278-286 | nothing is pending exactly when every listed file is recorded |
| Pending.NoneExecutedKeepsAll | pkg/lib/lib.go:278-286 | a listing none of whose names is executed passes through unchanged |
| Pending.PendingAppend | pkg/lib/lib.go:279-286 | the diff of two listings concatenated is the concatenation of their diffs, so files listed after the others are pending after them |
| Pending.PendingIdempotent | pkg/lib/lib.go:278-286 | diffing the pending list again changes nothing |
| Pending.RerunAfterRecording | pkg/lib/lib.go:278-286 | once the ledger records every pending name, the diff of the same listing is empty |
| Naming.Decimal | pkg/lib/lib.go:158 | `fmt.Sprint` of the `int64` timestamp: a leading "-" for negative values, then the base-10 digits without leading zeros (its properties are the lemmas below) |
| Naming.MigrationFileName | pkg/lib/lib.go:158 | the base name `decimal(ts) + "-" + name + ".sql"` |
| Naming.MigrationFilePath | pkg/lib/lib.go:158 | the created path `path + "/" + decimal(ts) + "-" + name + ".sql"` |
| Naming.DigitsCanonical | pkg/lib/lib.go:158 | the digits printed for a number are canonical (no leading zero) and denote that number |
| Naming.CanonicalDigitsRoundTrip | pkg/lib/lib.go:158 | every canonical digit string is what the printer produces for its value |
| Naming.DecimalRoundTrip | pkg/lib/lib.go:158 | parsing the printed `int64` timestamp gives it back, negative values included |
| Naming.ParseDecimalExact | pkg/lib/lib.go:158 | any text that parses is exactly the printing of the parsed value |
| Naming.DigitsHaveNoDash | pkg/lib/lib.go:158 | printed digits contain no "-" |
| Naming.FileNameRoundTrip | pkg/lib/lib.go:158 | for a timestamp of 0 or more, the base name splits at its first "-" back into that timestamp and name, even if the name contains "-" or ".sql" |
| Naming.SplitFileNameExact | pkg/lib/lib.go:158 | a base name that splits is exactly the name formed from its parts, with a non-negative timestamp |
| Naming.NegativeTimestampDoesNotSplit | pkg/lib/lib.go:154-158 | a negative clock reading prints a leading "-", and the name no longer splits into timestamp and name |
| Naming.FileNameSlashes | pkg/lib/lib.go:158 | the base name contains a "/" exactly when the migration's name does, since the printed timestamp, "-" and ".sql" hold none |
| Naming.FilePathShape | pkg/lib/lib.go:158 | the created path is `path + "/"` followed by the base name, and ends in ".sql" |
| Paths.JoinDot | pkg/lib/lib.go:146 | `filepath.Join(".", dir)`, which is Clean of `"./" + dir` (its properties are the lemmas below) |
| Paths.Clean | pkg/lib/lib.go:146 | Go's lexical clean over "/"-separated elements never yields the empty path |
| Paths.JoinSplit | pkg/lib/lib.go:146 | joining the "/"-split elements gives the path back |
| Paths.SplitJoin | pkg/lib/lib.go:146 | splitting joined separator-free elements gives the elements back |
| Paths.JoinDotIsRelative | pkg/lib/lib.go:146 | `filepath.Join(".", dir)` never starts with "/" |
| Paths.PlainRelativeUnchanged | pkg/lib/lib.go:146 | a relative directory made only of real names is left as it is |
| Paths.TwoPlainElementsUnchanged | pkg/lib/lib.go:146 | "a/b" with two real names is left as it is |
| Paths.LeadingSlashIgnored | pkg/lib/lib.go:146 | a leading "/" on the configured directory makes no difference to the joined path |
| Paths.DotDotCancels | pkg/lib/lib.go:241 | "a/../d" resolves to the same path as "d" |
| Records.Message | pkg/lib/lib.go:72-272 | the text shown for each failure: "no database credentials available" (line 72), "Config file not found: Please run 'strap init'" (line 137), the `open <path>` prefix of the `os.ReadDir` error (line 246), "No migration files found" (line 272), and Go's nil-dereference panic text |
| Lib.IsCredentialsValid | pkg/lib/lib.go:79-85 | true iff host, password, name and user are all non-empty |
| Lib.CredentialsNeedAllFour | pkg/lib/lib.go:79-85 | validity ignores the migration section and the loaded flag, blanking any one of the four fields invalidates, and the zero config is invalid |
| Lib.NewDatabaseManager | pkg/lib/lib.go:70-77 | fails with "no database credentials available" iff a config is given and its credentials are valid; otherwise the manager has the given connection, no config and no migrations |
| Lib.NewDatabaseManagerIntended | pkg/lib/lib.go:70-77 | corrected guard: fails iff the config is missing or its credentials are invalid; otherwise it keeps the config and the connection |
| Lib.InvertedGuard | pkg/lib/lib.go:71-73 | as written, four non-empty credentials are refused and the all-empty config is accepted; the corrected constructor does the opposite |
| Lib.ResolvedDirectory | pkg/lib/lib.go:143-145 | the configured directory wins when non-empty; otherwise the prior value stays, so a non-empty directory never becomes empty |
| Lib.CollectNames | pkg/lib/lib.go:250-252 | the listing is the entry names, one per entry, in ReadDir order, sub-directories included |
| Lib.PackageState.constructor | pkg/lib/lib.go:32 | `migrationsDir` starts as "db/migrations" |
| Lib.PackageState.ResolveDirectory | pkg/lib/lib.go:143-146 | `migrationsDir` is overridden only by a non-empty configured directory; the returned path is `filepath.Join(".", migrationsDir)` |
| Lib.PackageState.ListMigrationFiles | pkg/lib/lib.go:237-254 | a nil config panics and leaves `migrationsDir` alone; otherwise the directory is resolved, and an unreadable path fails while a readable one yields its entry names |
| Lib.PackageState.MigrateUp | pkg/lib/lib.go:256-287 | listing failures propagate; an empty listing fails with "No migration files found" before any diffing; otherwise the result is the pending diff of the listing against the executed rows |
| Lib.PackageState.CreateMigrationFile | pkg/lib/lib.go:125-158 | a missing config gives "Config file not found", another load error is passed on, and neither touches `migrationsDir`; otherwise the directory is resolved and the path is `join + "/" + decimal(now) + "-" + name + ".sql"`, even for an empty name |
| Lib.CredentialsMessage | pkg/lib/lib.go:71-72 | a refused construction carries the message "no database credentials available" |
| Lib.EmptyListingMessage | pkg/lib/lib.go:271-273 | an empty listing makes `MigrateUp` fail with the message "No migration files found" |
| Lib.EmptyListingFails | pkg/lib/lib.go:271-274 | `MigrateUp` stops with "No migration files found" exactly when the listing succeeded and is empty |
| Lib.MigrateUpReachesDiff | pkg/lib/lib.go:268-286 | `MigrateUp` succeeds exactly when the listing is non-empty, and then returns its pending diff |
| Lib.ConstructedManagerCannotMigrate | pkg/lib/lib.go:268 | a manager built by `NewDatabaseManager` has a nil config, so once the ledger has been read, `MigrateUp` on it ends in the nil-pointer panic |
| Lib.IntendedManagerMigrates | pkg/lib/lib.go:70-77 | a manager built by the corrected constructor reaches the diff over the configured directory's listing |
| Lib.SecondRunIsNoOp | pkg/lib/lib.go:276-286 | a second `MigrateUp`, with the directory the first left behind and a ledger that records every name the first reported, reports nothing pending |
| Lib.DefaultDirectoryIsUsed | pkg/lib/lib.go:143-146 | with no configured directory, the files are listed from and created in "db/migrations" |
| Lib.CreatedFileIsPending | pkg/lib/lib.go:158 | the created path is the directory `MigrateUp` lists under the same config, a "/", and the base name; a listed base name that no ledger row carries is reported pending |
| Lib.CreatedPathElements | pkg/lib/lib.go:158 | with a name free of "/", the created path's elements are the listed directory's elements plus the base name alone; a "/" in the name ends up inside the base name |

## Left out

- Database access (`tableExists`, `createMigrationsTable`,
  `findExecutedMigrations`): these are pgx queries. The executed rows are an
  input of `MigrateUp`, and their query and scan errors are not modelled.
- Filesystem and clock: `os.ReadDir` is a lookup in the given map, and the
  model takes its order as given (Go sorts entries by name). `os.MkdirAll`,
  `os.Create` and `file.WriteString`, with their failures, are not modelled.
  The clock reading is a parameter.
- `LoadConfig` and `Init`: the `os.Stat` check, TOML decoding, the `Loaded` flag
  and the writing of the template are foreign library calls and I/O. Their
  outcome reaches `CreateMigrationFile` as a parameter.
- Printing and `os.Exit`: replaced by `Result` values. `c.Help()` after an empty
  name is printing only, and the code carries on.
- Executing the pending migrations and `MigrateDown`: both are TODOs in the
  source, so there is no code to model.
- main.go is not part of this model. It is command wiring, a second copy of
  the table check and a second file-name formation.
- Go strings are byte strings; the model reads each byte of a Go name as one
  character. The core only compares names for equality, searches for the ASCII
  "/" and "-", and prints ASCII digits, so nothing it does depends on this.
- `filepath.Join` is modelled for "/" as the separator only, as on Unix-like
  systems.
- Lib.PackageState.ListMigrationFiles: an `os.ReadDir` failure is modelled only
  as "this path cannot be read"; the operating system's reason is not modelled.

## Findings

| source | as written | input that shows it | evidently intended | confidence | as-written member | corrected member |
|---|---|---|---|---|---|---|
| pkg/lib/lib.go:71 | `conf != nil && conf.IsCredentialsValid()` returns the error "no database credentials available" | a config whose host, user, password and name are all non-empty | fail when the config is nil or its credentials are not valid | high, not executed | Lib.InvertedGuard | Lib.NewDatabaseManagerIntended |
| pkg/lib/lib.go:75 | the manager is built with only `Connection` set, and `MigrateUp` passes its nil `Config` to `listMigrationFiles`, which dereferences it at line 238 | `NewDatabaseManager(conn, nil)` followed by `MigrateUp` | the manager keeps the config it was given | medium, not executed | Lib.ConstructedManagerCannotMigrate | Lib.IntendedManagerMigrates |
