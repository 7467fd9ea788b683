/**
 * The pending-migration diff of `MigrateUp` (pkg/lib/lib.go): every file of the
 * directory listing whose name equals no executed migration's `Name`, in
 * listing order. `Pending` is the specification, `PendingMigrations` the
 * labelled nested loop of the source, proved equal to it.
 */
module Pending {
  import opened Records

  /** The file name `f` is the `Name` of some row of the ledger. */
  predicate IsExecuted(f: string, executed: seq<Migration>)
  {
    exists m :: m in executed && m.name == f
  }

  /** The pending names: the listing filtered by "not executed", built from the front as the loop appends. */
  function Pending(files: seq<string>, executed: seq<Migration>): seq<string>
    decreases |files|
  {
    if files == [] then []
    else
      var last := files[|files| - 1];
      var rest := Pending(files[..|files| - 1], executed);
      if IsExecuted(last, executed) then rest else rest + [last]
  }

  /** The positions of the listing that are kept, in increasing order. */
  function KeptPositions(files: seq<string>, executed: seq<Migration>): seq<nat>
    decreases |files|
  {
    if files == [] then []
    else
      var rest := KeptPositions(files[..|files| - 1], executed);
      if IsExecuted(files[|files| - 1], executed) then rest else rest + [|files| - 1]
  }

  /** The labelled nested loop of `MigrateUp`: `continue outer` as soon as a ledger row matches. */
  method PendingMigrations(migrationFiles: seq<string>, executedMigrations: seq<Migration>)
    returns (pendingMigrations: seq<string>)
    ensures pendingMigrations == Pending(migrationFiles, executedMigrations)
    ensures forall f :: f in pendingMigrations <==> f in migrationFiles && !IsExecuted(f, executedMigrations)
  {
    pendingMigrations := [];
    label outer:
    for i := 0 to |migrationFiles|
      invariant pendingMigrations == Pending(migrationFiles[..i], executedMigrations)
    {
      var f := migrationFiles[i];
      assert migrationFiles[..i + 1][..i] == migrationFiles[..i];
      for j := 0 to |executedMigrations|
        invariant forall k :: 0 <= k < j ==> executedMigrations[k].name != f
      {
        if f == executedMigrations[j].name {
          assert IsExecuted(f, executedMigrations);
          continue outer;
        }
      }
      pendingMigrations := pendingMigrations + [f];
    }
    assert migrationFiles[..|migrationFiles|] == migrationFiles;
    PendingMembership(migrationFiles, executedMigrations);
  }

  /** A name is pending exactly when it is listed and no ledger row carries it. */
  lemma {:induction false} PendingMembership(files: seq<string>, executed: seq<Migration>)
    ensures forall f :: f in Pending(files, executed) <==> f in files && !IsExecuted(f, executed)
    decreases |files|
  {
    if files != [] {
      var init := files[..|files| - 1];
      PendingMembership(init, executed);
      assert files == init + [files[|files| - 1]];
    }
  }

  /** The kept positions are increasing positions of the listing, and a position is kept exactly when its file is not executed. */
  lemma {:induction false} KeptPositionsExact(files: seq<string>, executed: seq<Migration>)
    ensures var ks := KeptPositions(files, executed);
      && (forall k :: 0 <= k < |ks| ==> ks[k] < |files|)
      && (forall k, l :: 0 <= k < l < |ks| ==> ks[k] < ks[l])
      && (forall j :: 0 <= j < |files| ==> (j in ks <==> !IsExecuted(files[j], executed)))
    decreases |files|
  {
    if files != [] {
      var init := files[..|files| - 1];
      KeptPositionsExact(init, executed);
      assert forall j :: 0 <= j < |init| ==> files[j] == init[j];
    }
  }

  /**
   * The pending list is the sub-sequence of the listing at the kept positions
   * (see KeptPositionsExact): with those, this is order preservation and
   * multiplicity at once.
   */
  lemma {:induction false} PendingIsSelection(files: seq<string>, executed: seq<Migration>)
    ensures var p, ks := Pending(files, executed), KeptPositions(files, executed);
      && |p| == |ks|
      && (forall k :: 0 <= k < |ks| ==> ks[k] < |files| && p[k] == files[ks[k]])
    decreases |files|
  {
    if files != [] {
      var init := files[..|files| - 1];
      PendingIsSelection(init, executed);
      assert forall j :: 0 <= j < |init| ==> files[j] == init[j];
    }
  }

  /** A listed name occurs in the pending list as often as in the listing, or not at all if it was executed. */
  lemma {:induction false} PendingMultiplicity(files: seq<string>, executed: seq<Migration>, f: string)
    ensures multiset(Pending(files, executed))[f] == if IsExecuted(f, executed) then 0 else multiset(files)[f]
    decreases |files|
  {
    if files != [] {
      var init := files[..|files| - 1];
      PendingMultiplicity(init, executed, f);
      assert files == init + [files[|files| - 1]];
    }
  }

  /** The diff never grows the listing, and keeps all of it exactly when nothing listed was executed. */
  lemma {:induction false} PendingLength(files: seq<string>, executed: seq<Migration>)
    ensures |Pending(files, executed)| <= |files|
    ensures |Pending(files, executed)| == |files| <==> forall j :: 0 <= j < |files| ==> !IsExecuted(files[j], executed)
    decreases |files|
  {
    if files != [] {
      var init := files[..|files| - 1];
      PendingLength(init, executed);
      forall j | 0 <= j < |init|
        ensures files[j] == init[j]
      {
      }
    }
  }

  /** With an empty ledger every listed file is pending. */
  lemma {:induction false} NothingExecuted(files: seq<string>)
    ensures Pending(files, []) == files
    decreases |files|
  {
    if files != [] {
      NothingExecuted(files[..|files| - 1]);
    }
  }

  /** Nothing is pending exactly when every listed file is recorded in the ledger. */
  lemma {:induction false} AllExecuted(files: seq<string>, executed: seq<Migration>)
    ensures Pending(files, executed) == [] <==> forall f :: f in files ==> IsExecuted(f, executed)
  {
    PendingMembership(files, executed);
    if Pending(files, executed) != [] {
      assert Pending(files, executed)[0] in Pending(files, executed);
    }
  }

  /** The diff of a concatenated listing is the concatenation of the diffs. */
  lemma {:induction false} PendingAppend(a: seq<string>, b: seq<string>, executed: seq<Migration>)
    ensures Pending(a + b, executed) == Pending(a, executed) + Pending(b, executed)
    decreases |b|
  {
    if b != [] {
      var init := b[..|b| - 1];
      assert (a + b)[..|a + b| - 1] == a + init;
      PendingAppend(a, init, executed);
    } else {
      assert a + b == a;
    }
  }

  /** Running the diff on its own output changes nothing. */
  lemma {:induction false} PendingIdempotent(files: seq<string>, executed: seq<Migration>)
    ensures Pending(Pending(files, executed), executed) == Pending(files, executed)
  {
    var p := Pending(files, executed);
    PendingMembership(files, executed);
    NoneExecutedKeepsAll(p, executed);
  }

  /** A listing none of whose names is executed passes through the diff unchanged. */
  lemma {:induction false} NoneExecutedKeepsAll(files: seq<string>, executed: seq<Migration>)
    requires forall f :: f in files ==> !IsExecuted(f, executed)
    ensures Pending(files, executed) == files
    decreases |files|
  {
    if files != [] {
      var init := files[..|files| - 1];
      assert forall f :: f in init ==> f in files;
      NoneExecutedKeepsAll(init, executed);
      assert files == init + [files[|files| - 1]];
    }
  }

  /**
   * Re-running after the ledger has recorded every pending name leaves nothing
   * pending: a second `MigrateUp` with no new files is a no-op.
   */
  lemma RerunAfterRecording(files: seq<string>, executed: seq<Migration>, recorded: seq<Migration>)
    requires forall f :: f in Pending(files, executed) ==> IsExecuted(f, recorded)
    ensures Pending(files, executed + recorded) == []
  {
    PendingMembership(files, executed);
    forall f | f in files
      ensures IsExecuted(f, executed + recorded)
    {
      if IsExecuted(f, executed) {
        var m :| m in executed && m.name == f;
        assert m in executed + recorded;
      } else {
        var m :| m in recorded && m.name == f;
        assert m in executed + recorded;
      }
    }
    AllExecuted(files, executed + recorded);
  }
}
