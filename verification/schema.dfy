// The metadata database, version 2 of its schema: tables keyed by their primary keys, unique
// indexes, foreign keys with ON DELETE CASCADE, and the statements the store executes on them.
module Schema {
  import opened Wrappers

  datatype AccountRow = AccountRow(email: string, displayName: string, isPrimary: int, createdAt: int, updatedAt: int)

  datatype TokenRefRow = TokenRefRow(keyId: string, tokenType: string, scope: string, expiry: int, updatedAt: int)

  datatype SyncStateRow = SyncStateRow(
    startPageToken: string, lastSyncAt: int, lastError: string, paused: int, updatedAt: int)

  /** etag and checksum may be NULL in rows written before migration 2. */
  datatype FileRow = FileRow(
    accountId: string, path: string, driveId: string, etag: Option<string>, checksum: Option<string>,
    size: int, modifiedAt: int, createdAt: int)

  datatype FolderRow = FolderRow(
    accountId: string, path: string, driveId: string, parentId: string, modifiedAt: int, createdAt: int)

  datatype SharedDriveRow = SharedDriveRow(name: string, createdAt: int, updatedAt: int)

  datatype PendingOpRow = PendingOpRow(
    accountId: string, path: string, driveId: string, opType: string, state: string, retryCount: int,
    lastError: string, createdAt: int, updatedAt: int)

  datatype Tables = Tables(
    accounts: map<string, AccountRow>,
    tokenRefs: map<string, TokenRefRow>,
    syncStates: map<string, SyncStateRow>,
    files: map<string, FileRow>,
    folders: map<string, FolderRow>,
    sharedDrives: map<string, SharedDriveRow>,
    pendingOps: map<string, PendingOpRow>)

  // ---- What the constraints promise ----

  // idx_accounts_email
  ghost predicate EmailsUnique(accounts: map<string, AccountRow>) {
    forall a, b | a in accounts && b in accounts && a != b :: accounts[a].email != accounts[b].email
  }

  // idx_files_account_path
  ghost predicate FilePathsUnique(files: map<string, FileRow>) {
    forall a, b | a in files && b in files && a != b ::
      files[a].accountId != files[b].accountId || files[a].path != files[b].path
  }

  // idx_folders_account_path
  ghost predicate FolderPathsUnique(folders: map<string, FolderRow>) {
    forall a, b | a in folders && b in folders && a != b ::
      folders[a].accountId != folders[b].accountId || folders[a].path != folders[b].path
  }

  // The foreign keys. files has none.
  ghost predicate References(db: Tables) {
    && (forall a | a in db.tokenRefs :: a in db.accounts)
    && (forall a | a in db.syncStates :: a in db.accounts)
    && (forall f | f in db.folders :: db.folders[f].accountId in db.accounts)
    && (forall o | o in db.pendingOps :: db.pendingOps[o].accountId in db.accounts)
  }

  ghost predicate Consistent(db: Tables) {
    EmailsUnique(db.accounts) && FilePathsUnique(db.files) && FolderPathsUnique(db.folders) && References(db)
  }

  // ---- Statements ----

  datatype Error = Empty(column: string) | UniqueViolation | ForeignKeyViolation | NullScan | Driver

  datatype Statement =
    | PutAccount(id: string, account: AccountRow)
    | DropAccount(id: string)
    | PutTokenRef(id: string, tokenRef: TokenRefRow)
    | DropTokenRef(id: string)
    | PutSyncState(id: string, syncState: SyncStateRow)
    | PutFile(id: string, file: FileRow)
    | DropFile(accountId: string, path: string)
    | PutFolder(id: string, folder: FolderRow)
    | PutSharedDrive(id: string, drive: SharedDriveRow)
    | InsertPendingOp(id: string, op: PendingOpRow)
    | UpdatePendingOp(id: string, state: string, retryCount: int, lastError: string, updatedAt: int)
    | DropPendingOp(id: string)

  // An upsert keeps the created_at of a row that exists.
  function NewAccount(db: Tables, id: string, row: AccountRow): AccountRow {
    if id in db.accounts then row.(createdAt := db.accounts[id].createdAt) else row
  }

  function NewFile(db: Tables, id: string, row: FileRow): FileRow {
    if id in db.files then row.(createdAt := db.files[id].createdAt) else row
  }

  function NewFolder(db: Tables, id: string, row: FolderRow): FolderRow {
    if id in db.folders then row.(createdAt := db.folders[id].createdAt) else row
  }

  function NewDrive(db: Tables, id: string, row: SharedDriveRow): SharedDriveRow {
    if id in db.sharedDrives then row.(createdAt := db.sharedDrives[id].createdAt) else row
  }

  // DELETE with its cascades.
  function WithoutAccount(db: Tables, id: string): Tables {
    db.(accounts := db.accounts - {id},
        tokenRefs := db.tokenRefs - {id},
        syncStates := db.syncStates - {id},
        folders := map f | f in db.folders && db.folders[f].accountId != id :: db.folders[f],
        pendingOps := map o | o in db.pendingOps && db.pendingOps[o].accountId != id :: db.pendingOps[o])
  }

  /** The tables a statement asks for, whether or not the constraints allow them. */
  function Candidate(db: Tables, st: Statement): Tables {
    match st
    case PutAccount(id, row) => db.(accounts := db.accounts[id := NewAccount(db, id, row)])
    case DropAccount(id) => WithoutAccount(db, id)
    case PutTokenRef(id, row) => db.(tokenRefs := db.tokenRefs[id := row])
    case DropTokenRef(id) => db.(tokenRefs := db.tokenRefs - {id})
    case PutSyncState(id, row) => db.(syncStates := db.syncStates[id := row])
    case PutFile(id, row) => db.(files := db.files[id := NewFile(db, id, row)])
    case DropFile(accountId, path) =>
      db.(files := map f | f in db.files && !(db.files[f].accountId == accountId && db.files[f].path == path)
                    :: db.files[f])
    case PutFolder(id, row) => db.(folders := db.folders[id := NewFolder(db, id, row)])
    case PutSharedDrive(id, row) => db.(sharedDrives := db.sharedDrives[id := NewDrive(db, id, row)])
    case InsertPendingOp(id, row) => db.(pendingOps := db.pendingOps[id := row])
    case UpdatePendingOp(id, state, retryCount, lastError, updatedAt) =>
      if id !in db.pendingOps then db
      else
        var row := db.pendingOps[id].(
          state := state, retryCount := retryCount, lastError := lastError, updatedAt := updatedAt);
        db.(pendingOps := db.pendingOps[id := row])
    case DropPendingOp(id) => db.(pendingOps := db.pendingOps - {id})
  }

  // The engine's checks. It looks only at the row being written: another row with the same indexed
  // values, the row referred to, or, for a plain insert, the same primary key.
  predicate EmailTaken(db: Tables, id: string, email: string) {
    exists a | a in db.accounts :: a != id && db.accounts[a].email == email
  }

  predicate FilePathTaken(db: Tables, id: string, accountId: string, path: string) {
    exists f | f in db.files :: f != id && db.files[f].accountId == accountId && db.files[f].path == path
  }

  predicate FolderPathTaken(db: Tables, id: string, accountId: string, path: string) {
    exists f | f in db.folders :: f != id && db.folders[f].accountId == accountId && db.folders[f].path == path
  }

  function Check(db: Tables, st: Statement): Option<Error> {
    match st
    case PutAccount(id, row) => if EmailTaken(db, id, row.email) then Some(UniqueViolation) else None
    case PutTokenRef(id, _) => if id !in db.tokenRefs && id !in db.accounts then Some(ForeignKeyViolation) else None
    case PutSyncState(id, _) => if id !in db.syncStates && id !in db.accounts then Some(ForeignKeyViolation) else None
    case PutFile(id, row) => if FilePathTaken(db, id, row.accountId, row.path) then Some(UniqueViolation) else None
    case PutFolder(id, row) =>
      if FolderPathTaken(db, id, row.accountId, row.path) then Some(UniqueViolation)
      else if row.accountId !in db.accounts then Some(ForeignKeyViolation) else None
    case InsertPendingOp(id, row) =>
      if id in db.pendingOps then Some(UniqueViolation)
      else if row.accountId !in db.accounts then Some(ForeignKeyViolation) else None
    case _ => None
  }

  function Execute(db: Tables, st: Statement): Result<Tables, Error> {
    match Check(db, st)
    case Some(error) => Err(error)
    case None => Ok(Candidate(db, st))
  }

  /** On consistent tables the engine's local checks are exact: a statement goes through if and only
      if the tables it asks for satisfy all constraints (and, for a plain insert, the key is new). */
  lemma CheckExact(db: Tables, st: Statement)
    requires Consistent(db)
    ensures Check(db, st).None? <==> Consistent(Candidate(db, st)) && !(st.InsertPendingOp? && st.id in db.pendingOps)
  {
    match st
    case PutAccount(id, row) => CheckAccount(db, id, row);
    case PutFile(id, row) => CheckFile(db, id, row);
    case PutFolder(id, row) => CheckFolder(db, id, row);
    case InsertPendingOp(id, row) =>
      if id !in db.pendingOps {
        CheckPendingOp(db, id, row);
      }
    case PutTokenRef(id, row) => assert id in Candidate(db, st).tokenRefs;
    case PutSyncState(id, row) => assert id in Candidate(db, st).syncStates;
    case DropAccount(id) => DropAccountConsistent(db, id);
    case _ =>
  }

  lemma CheckAccount(db: Tables, id: string, row: AccountRow)
    requires Consistent(db)
    ensures !EmailTaken(db, id, row.email) <==> Consistent(Candidate(db, PutAccount(id, row)))
  {
    var accounts := Candidate(db, PutAccount(id, row)).accounts;
    assert id in accounts && accounts[id].email == row.email;
    assert forall a | a in db.accounts && a != id :: a in accounts && accounts[a] == db.accounts[a];
  }

  lemma CheckFile(db: Tables, id: string, row: FileRow)
    requires Consistent(db)
    ensures !FilePathTaken(db, id, row.accountId, row.path) <==> Consistent(Candidate(db, PutFile(id, row)))
  {
    var files := Candidate(db, PutFile(id, row)).files;
    assert id in files && files[id].accountId == row.accountId && files[id].path == row.path;
    assert forall f | f in db.files && f != id :: f in files && files[f] == db.files[f];
  }

  lemma CheckFolder(db: Tables, id: string, row: FolderRow)
    requires Consistent(db)
    ensures Check(db, PutFolder(id, row)).None? <==> Consistent(Candidate(db, PutFolder(id, row)))
  {
    var folders := Candidate(db, PutFolder(id, row)).folders;
    assert id in folders && folders[id].accountId == row.accountId && folders[id].path == row.path;
    assert forall f | f in db.folders && f != id :: f in folders && folders[f] == db.folders[f];
  }

  lemma CheckPendingOp(db: Tables, id: string, row: PendingOpRow)
    requires Consistent(db) && id !in db.pendingOps
    ensures row.accountId in db.accounts <==> Consistent(Candidate(db, InsertPendingOp(id, row)))
  {
    assert id in Candidate(db, InsertPendingOp(id, row)).pendingOps;
  }

  lemma DropAccountConsistent(db: Tables, id: string)
    requires Consistent(db)
    ensures Consistent(WithoutAccount(db, id))
  {}

  /** Every row of a is a row of b. */
  ghost predicate Within(a: Tables, b: Tables) {
    && (forall k | k in a.accounts :: k in b.accounts && a.accounts[k] == b.accounts[k])
    && (forall k | k in a.tokenRefs :: k in b.tokenRefs && a.tokenRefs[k] == b.tokenRefs[k])
    && (forall k | k in a.syncStates :: k in b.syncStates && a.syncStates[k] == b.syncStates[k])
    && (forall k | k in a.files :: k in b.files && a.files[k] == b.files[k])
    && (forall k | k in a.folders :: k in b.folders && a.folders[k] == b.folders[k])
    && (forall k | k in a.sharedDrives :: k in b.sharedDrives && a.sharedDrives[k] == b.sharedDrives[k])
    && (forall k | k in a.pendingOps :: k in b.pendingOps && a.pendingOps[k] == b.pendingOps[k])
  }

  /** Deleting an account leaves consistent tables without it, and every file and shared drive... */
  lemma DropAccountWithin(db: Tables, id: string)
    requires Consistent(db)
    ensures var after := WithoutAccount(db, id);
            && Consistent(after) && Within(after, db) && id !in after.accounts
            && after.files == db.files && after.sharedDrives == db.sharedDrives
  {}

  /** ...and removes no more than it must: any consistent part of the tables without the account is
      still there. */
  lemma DropAccountLargest(db: Tables, id: string, other: Tables)
    requires Consistent(other) && Within(other, db) && id !in other.accounts
    ensures Within(other, WithoutAccount(db, id))
  {}

  // What a foreign key on files would promise, and the comment on DeleteAccount suggests.
  ghost predicate FilesHaveAccounts(db: Tables) {
    forall f | f in db.files :: db.files[f].accountId in db.accounts
  }

  /** Without the foreign key, a statement keeps every file with its account exactly unless it
      deletes an account that has files or writes a file of an unknown account. */
  lemma FilesKeepAccounts(db: Tables, st: Statement)
    requires FilesHaveAccounts(db)
    ensures FilesHaveAccounts(Candidate(db, st)) <==>
            match st
            case DropAccount(id) => forall f | f in db.files :: db.files[f].accountId != id
            case PutFile(_, row) => row.accountId in db.accounts
            case _ => true
  {
    match st
    case PutFile(id, row) =>
      var files := Candidate(db, st).files;
      assert id in files && files[id].accountId == row.accountId;
      assert forall f | f in db.files && f != id :: f in files && files[f] == db.files[f];
    case _ =>
  }

  /** An account with one file: deleting the account leaves the file behind. */
  lemma FileOutlivesAccount()
    ensures exists db, id ::
              Consistent(db) && FilesHaveAccounts(db) && Check(db, DropAccount(id)).None?
              && !FilesHaveAccounts(Candidate(db, DropAccount(id)))
  {
    var db := Tables(
      map["a" := AccountRow("a@example.com", "", 0, 1, 1)], map[], map[],
      map["f" := FileRow("a", "/x", "d", Some(""), Some(""), 0, 1, 1)], map[], map[], map[]);
    assert "f" in db.files && "f" in Candidate(db, DropAccount("a")).files;
    FilesKeepAccounts(db, DropAccount("a"));
    assert Consistent(db) && FilesHaveAccounts(db);
  }
}
