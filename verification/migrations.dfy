// Migration 2 of the schema, up and down. Each direction runs in one transaction.
module Migrations {
  import opened Wrappers
  import opened Schema

  /** A row of the files table of version 1, which has no account_id. */
  datatype OldFile = OldFile(
    path: string, driveId: string, etag: Option<string>, checksum: Option<string>,
    size: int, modifiedAt: int, createdAt: int)

  datatype Database = Version1(oldFiles: map<string, OldFile>) | Version2(tables: Tables)

  const DEFAULT_ACCOUNT: string := "default"

  // idx_files_path
  predicate PathsUnique(files: map<string, OldFile>) {
    forall a, b | a in files && b in files && a != b :: files[a].path != files[b].path
  }

  function AddAccount(f: OldFile, accountId: string): FileRow {
    FileRow(accountId, f.path, f.driveId, f.etag, f.checksum, f.size, f.modifiedAt, f.createdAt)
  }

  function DropAccountId(f: FileRow): OldFile {
    OldFile(f.path, f.driveId, f.etag, f.checksum, f.size, f.modifiedAt, f.createdAt)
  }

  // Assigns a file that has no account to the default one.
  function FillAccount(f: FileRow): FileRow {
    if f.accountId == "" then f.(accountId := DEFAULT_ACCOUNT) else f
  }

  function Upgraded(files: map<string, OldFile>, now: int): Tables {
    Tables(map[DEFAULT_ACCOUNT := AccountRow("default@local", "Default", 1, now, now)], map[], map[],
           map f | f in files :: AddAccount(files[f], DEFAULT_ACCOUNT), map[], map[], map[])
  }

  function Downgraded(files: map<string, FileRow>): map<string, OldFile> {
    map f | f in files :: DropAccountId(files[f])
  }

  class Migrator {
    var db: Database

    constructor (db: Database)
      ensures this.db == db
    {
      this.db := db;
    }

    /** The statements of the Up section, in order. */
    method Up(now: int)
      requires db.Version1? && PathsUnique(db.oldFiles)
      modifies this
      ensures db == Version2(Upgraded(old(db.oldFiles), now))
    {
      // The accounts table starts with the default account, unless it is there already.
      var accounts: map<string, AccountRow> := map[];
      if DEFAULT_ACCOUNT !in accounts {
        accounts := accounts[DEFAULT_ACCOUNT := AccountRow("default@local", "Default", 1, now, now)];
      }
      // Files get the new column with its default, and any that are still without an account get it, too.
      var files := map f | f in db.oldFiles :: AddAccount(db.oldFiles[f], DEFAULT_ACCOUNT);
      files := map f | f in files :: FillAccount(files[f]);
      // The unique index on paths gives way to one on accounts and paths, which the files satisfy.
      assert FilePathsUnique(files);
      // The remaining tables start empty.
      db := Version2(Tables(accounts, map[], map[], files, map[], map[], map[]));
    }

    /** The statements of the Down section, in order. The new unique index is the only one that can
        fail, and then the transaction is rolled back. */
    method Down() returns (ok: bool)
      requires db.Version2?
      modifies this
      ensures ok == PathsUnique(Downgraded(old(db.tables.files)))
      ensures db == if ok then Version1(Downgraded(old(db.tables.files))) else old(db)
    {
      // Of the version 2 tables only the files are kept, without their indexes.
      var files := db.tables.files;
      // They are copied, without their accounts, into a table of the old form.
      var filesOld: map<string, OldFile> := map[];
      var rest := files.Keys;
      while rest != {}
        invariant rest <= files.Keys
        invariant filesOld == map f | f in files && f !in rest :: DropAccountId(files[f])
        decreases rest
      {
        var f :| f in rest;
        filesOld := filesOld[f := DropAccountId(files[f])];
        rest := rest - {f};
      }
      assert filesOld == Downgraded(files);
      // That table takes the place of the files, and its paths must be unique again.
      if !PathsUnique(filesOld) {
        return false;
      }
      db := Version1(filesOld);
      return true;
    }
  }

  /** The upgraded database satisfies every constraint, and no account but the default one exists. */
  lemma UpgradedConsistent(files: map<string, OldFile>, now: int)
    requires PathsUnique(files)
    ensures Consistent(Upgraded(files, now)) && FilesHaveAccounts(Upgraded(files, now))
    ensures Upgraded(files, now).accounts.Keys == {DEFAULT_ACCOUNT}
  {
    var db := Upgraded(files, now);
    forall a, b | a in db.files && b in db.files && a != b ensures db.files[a].path != db.files[b].path {
      assert files[a].path != files[b].path;
    }
  }

  /** The one account is the default one, and it is primary; every file keeps its key and columns and
      belongs to that account; nothing else is there. */
  lemma UpgradedRows(files: map<string, OldFile>, now: int)
    ensures var db := Upgraded(files, now);
            && "default" in db.accounts && db.accounts["default"].email == "default@local"
            && db.accounts["default"].displayName == "Default" && db.accounts["default"].isPrimary == 1
            && db.accounts["default"].createdAt == now && db.accounts["default"].updatedAt == now
            && (forall f :: f in db.files <==> f in files)
            && (forall f | f in files ::
                  db.files[f] == FileRow("default", files[f].path, files[f].driveId, files[f].etag, files[f].checksum,
                                         files[f].size, files[f].modifiedAt, files[f].createdAt))
            && db.tokenRefs == map[] && db.syncStates == map[] && db.folders == map[]
            && db.sharedDrives == map[] && db.pendingOps == map[]
  {}

  /** Down after Up restores any version 1 table, so it succeeds there. */
  lemma DownUndoesUp(files: map<string, OldFile>, now: int)
    requires PathsUnique(files)
    ensures Downgraded(Upgraded(files, now).files) == files
  {
    var back := Downgraded(Upgraded(files, now).files);
    assert forall f | f in files :: f in back && back[f] == files[f];
  }

  /** From any version 2 tables, Down succeeds exactly if no two files have the same path, in
      whatever accounts; it then keeps every file row but for its account... */
  lemma DownSucceeds(db: Tables)
    ensures PathsUnique(Downgraded(db.files)) <==>
            forall a, b | a in db.files && b in db.files && a != b :: db.files[a].path != db.files[b].path
    ensures Downgraded(db.files).Keys == db.files.Keys
    ensures forall f | f in db.files :: AddAccount(Downgraded(db.files)[f], db.files[f].accountId) == db.files[f]
  {
    var down := Downgraded(db.files);
    if PathsUnique(down) {
      forall a, b | a in db.files && b in db.files && a != b ensures db.files[a].path != db.files[b].path {
        assert down[a].path != down[b].path;
      }
    }
  }

  /** ...which Up then replaces by the default one. */
  lemma UpAfterDown(db: Tables, now: int)
    ensures Upgraded(Downgraded(db.files), now).files ==
            map f | f in db.files :: db.files[f].(accountId := DEFAULT_ACCOUNT)
  {}

  /** Tables that satisfy every constraint can be unable to go down: two accounts, each with a file
      of the same path. */
  lemma DownCanFail()
    ensures exists db :: Consistent(db) && FilesHaveAccounts(db) && !PathsUnique(Downgraded(db.files))
  {
    var db := TwoAccounts();
    TwoAccountsConsistent();
    assert "f" in db.files && "g" in db.files && db.files["f"].path == db.files["g"].path;
    DownSucceeds(db);
  }

  function TwoAccounts(): Tables {
    var row := FileRow("a", "/x", "d", Some(""), Some(""), 0, 1, 1);
    var accounts := map["a" := AccountRow("a@example.com", "", 0, 1, 1),
                        "b" := AccountRow("b@example.com", "", 0, 1, 1)];
    Tables(accounts, map[], map[], map["f" := row, "g" := row.(accountId := "b")], map[], map[], map[])
  }

  lemma TwoAccountsConsistent()
    ensures Consistent(TwoAccounts()) && FilesHaveAccounts(TwoAccounts())
  {
    var accounts := TwoAccounts().accounts;
    assert accounts["a"].email[0] != accounts["b"].email[0];
  }
}
