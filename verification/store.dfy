// The metadata store: Go records, their encoding as rows, and the store's operations.
module Store {
  import opened Wrappers
  import opened GoTime
  import opened Text
  import opened Schema
  import opened Query
  import Like

  datatype Account = Account(
    id: string, email: string, displayName: string, isPrimary: bool, createdAt: Time, updatedAt: Time)

  datatype TokenRef = TokenRef(
    accountId: string, keyId: string, tokenType: string, scope: string, expiry: Time, updatedAt: Time)

  datatype SyncState = SyncState(
    accountId: string, startPageToken: string, lastSyncAt: Time, lastError: string, paused: bool, updatedAt: Time)

  datatype FileRecord = FileRecord(
    id: string, accountId: string, path: string, driveId: string, etag: string, checksum: string,
    size: int, modifiedAt: Time, createdAt: Time)

  datatype Folder = Folder(
    id: string, accountId: string, path: string, driveId: string, parentId: string, modifiedAt: Time, createdAt: Time)

  datatype SharedDrive = SharedDrive(id: string, name: string, createdAt: Time, updatedAt: Time)

  datatype PendingOp = PendingOp(
    id: string, accountId: string, path: string, driveId: string, opType: string, state: string,
    retryCount: int, lastError: string, createdAt: Time, updatedAt: Time)

  // ---- Defaults, and rows ----

  function OrNow(t: Time, now: Time): Time { if IsZero(t) then now else t }

  function BoolToInt(b: bool): int { if b then 1 else 0 }

  function IntToBool(n: int): bool { n != 0 }

  function AccountToRow(a: Account): AccountRow {
    AccountRow(a.email, a.displayName, BoolToInt(a.isPrimary), UnixTime(a.createdAt), UnixTime(a.updatedAt))
  }

  function AccountOfRow(id: string, row: AccountRow): Account {
    Account(id, row.email, row.displayName, IntToBool(row.isPrimary), FromUnix(row.createdAt), FromUnix(row.updatedAt))
  }

  function TokenRefToRow(r: TokenRef): TokenRefRow {
    TokenRefRow(r.keyId, r.tokenType, r.scope, UnixTime(r.expiry), UnixTime(r.updatedAt))
  }

  function TokenRefOfRow(id: string, row: TokenRefRow): TokenRef {
    TokenRef(id, row.keyId, row.tokenType, row.scope, FromUnix(row.expiry), FromUnix(row.updatedAt))
  }

  function SyncStateToRow(s: SyncState): SyncStateRow {
    SyncStateRow(s.startPageToken, UnixTime(s.lastSyncAt), s.lastError, BoolToInt(s.paused), UnixTime(s.updatedAt))
  }

  function SyncStateOfRow(id: string, row: SyncStateRow): SyncState {
    SyncState(id, row.startPageToken, FromUnix(row.lastSyncAt), row.lastError, IntToBool(row.paused),
              FromUnix(row.updatedAt))
  }

  function FileToRow(f: FileRecord): FileRow {
    FileRow(f.accountId, f.path, f.driveId, Some(f.etag), Some(f.checksum), f.size,
            UnixTime(f.modifiedAt), UnixTime(f.createdAt))
  }

  // Scanning NULL into a Go string is an error.
  function FileOfRow(id: string, row: FileRow): Result<FileRecord, Error> {
    if row.etag.None? || row.checksum.None? then Err(NullScan)
    else
      Ok(FileRecord(id, row.accountId, row.path, row.driveId, row.etag.value, row.checksum.value, row.size,
                    FromUnix(row.modifiedAt), FromUnix(row.createdAt)))
  }

  function FolderToRow(f: Folder): FolderRow {
    FolderRow(f.accountId, f.path, f.driveId, f.parentId, UnixTime(f.modifiedAt), UnixTime(f.createdAt))
  }

  function FolderOfRow(id: string, row: FolderRow): Folder {
    Folder(id, row.accountId, row.path, row.driveId, row.parentId, FromUnix(row.modifiedAt), FromUnix(row.createdAt))
  }

  function DriveToRow(d: SharedDrive): SharedDriveRow {
    SharedDriveRow(d.name, UnixTime(d.createdAt), UnixTime(d.updatedAt))
  }

  function DriveOfRow(id: string, row: SharedDriveRow): SharedDrive {
    SharedDrive(id, row.name, FromUnix(row.createdAt), FromUnix(row.updatedAt))
  }

  function OpToRow(o: PendingOp): PendingOpRow {
    PendingOpRow(o.accountId, o.path, o.driveId, o.opType, o.state, o.retryCount, o.lastError,
                 UnixTime(o.createdAt), UnixTime(o.updatedAt))
  }

  function OpOfRow(id: string, row: PendingOpRow): PendingOp {
    PendingOp(id, row.accountId, row.path, row.driveId, row.opType, row.state, row.retryCount, row.lastError,
              FromUnix(row.createdAt), FromUnix(row.updatedAt))
  }

  // The argument records after a call has filled in their missing times.
  function StampAccount(a: Account, now: Time): Account {
    a.(createdAt := OrNow(a.createdAt, now), updatedAt := OrNow(a.updatedAt, now))
  }

  function StampTokenRef(r: TokenRef, now: Time): TokenRef { r.(updatedAt := OrNow(r.updatedAt, now)) }

  function StampSyncState(s: SyncState, now: Time): SyncState { s.(updatedAt := OrNow(s.updatedAt, now)) }

  function StampFile(f: FileRecord, now: Time): FileRecord {
    f.(createdAt := OrNow(f.createdAt, now), modifiedAt := OrNow(f.modifiedAt, now))
  }

  function StampFolder(f: Folder, now: Time): Folder {
    f.(createdAt := OrNow(f.createdAt, now), modifiedAt := OrNow(f.modifiedAt, now))
  }

  function StampDrive(d: SharedDrive, now: Time): SharedDrive {
    d.(createdAt := OrNow(d.createdAt, now), updatedAt := OrNow(d.updatedAt, now))
  }

  function StampOp(o: PendingOp, now: Time): PendingOp {
    o.(createdAt := OrNow(o.createdAt, now), updatedAt := OrNow(o.updatedAt, now),
       state := if o.state == "" then "queued" else o.state)
  }

  // ---- Requests ----

  /** A call that can change the database; None is a nil argument. */
  datatype Request =
    | UpsertAccount(account: Option<Account>)
    | DeleteAccount(id: string)
    | UpsertTokenRef(tokenRef: Option<TokenRef>)
    | DeleteTokenRef(id: string)
    | UpsertSyncState(syncState: Option<SyncState>)
    | UpsertFile(file: Option<FileRecord>)
    | DeleteFile(accountId: string, path: string)
    | UpsertFolder(folder: Option<Folder>)
    | UpsertSharedDrive(drive: Option<SharedDrive>)
    | AddPendingOp(op: Option<PendingOp>)
    | UpdatePendingOp(id: string, state: string, retryCount: int, lastError: string)
    | DeletePendingOp(id: string)

  /** What a request sends to the database: nothing, a statement, or, for an empty mandatory field,
      an error. */
  function Prepare(req: Request, now: Time): Result<Option<Statement>, Error> {
    match req
    case UpsertAccount(Some(a)) =>
      if a.id == "" then Err(Empty("id")) else if a.email == "" then Err(Empty("email"))
      else Ok(Some(PutAccount(a.id, AccountToRow(StampAccount(a, now)))))
    case DeleteAccount(id) => Ok(Some(DropAccount(id)))
    case UpsertTokenRef(Some(r)) =>
      if r.accountId == "" then Err(Empty("account_id")) else if r.keyId == "" then Err(Empty("key_id"))
      else Ok(Some(PutTokenRef(r.accountId, TokenRefToRow(StampTokenRef(r, now)))))
    case DeleteTokenRef(id) => if id == "" then Err(Empty("account_id")) else Ok(Some(DropTokenRef(id)))
    case UpsertSyncState(Some(s)) =>
      if s.accountId == "" then Err(Empty("account_id"))
      else Ok(Some(PutSyncState(s.accountId, SyncStateToRow(StampSyncState(s, now)))))
    case UpsertFile(Some(f)) =>
      if f.id == "" then Err(Empty("id")) else if f.accountId == "" then Err(Empty("account_id"))
      else if f.path == "" then Err(Empty("path")) else if f.driveId == "" then Err(Empty("drive_id"))
      else Ok(Some(PutFile(f.id, FileToRow(StampFile(f, now)))))
    case DeleteFile(accountId, path) => Ok(Some(DropFile(accountId, path)))
    case UpsertFolder(Some(f)) =>
      if f.id == "" then Err(Empty("id")) else if f.accountId == "" then Err(Empty("account_id"))
      else if f.path == "" then Err(Empty("path")) else if f.driveId == "" then Err(Empty("drive_id"))
      else Ok(Some(PutFolder(f.id, FolderToRow(StampFolder(f, now)))))
    case UpsertSharedDrive(Some(d)) =>
      if d.id == "" then Err(Empty("id")) else if d.name == "" then Err(Empty("name"))
      else Ok(Some(PutSharedDrive(d.id, DriveToRow(StampDrive(d, now)))))
    case AddPendingOp(Some(o)) =>
      if o.id == "" then Err(Empty("id")) else if o.accountId == "" then Err(Empty("account_id"))
      else if o.path == "" then Err(Empty("path")) else if o.opType == "" then Err(Empty("op_type"))
      else Ok(Some(InsertPendingOp(o.id, OpToRow(StampOp(o, now)))))
    case UpdatePendingOp(id, state, retryCount, lastError) =>
      Ok(Some(Statement.UpdatePendingOp(id, state, retryCount, lastError, UnixTime(now))))
    case DeletePendingOp(id) => Ok(Some(DropPendingOp(id)))
    case _ => Ok(None)
  }

  /** Tables and error after a call. */
  datatype Outcome = Outcome(db: Tables, err: Option<Error>)

  // ExecContext: the statement takes effect as a whole or not at all; fault is any failure of the
  // driver or the disk.
  function RunStatement(db: Tables, st: Statement, fault: bool): Outcome {
    if fault then Outcome(db, Some(Driver))
    else
      match Execute(db, st)
      case Ok(after) => Outcome(after, None)
      case Err(error) => Outcome(db, Some(error))
  }

  function Exec(db: Tables, req: Request, now: Time, fault: bool): Outcome {
    match Prepare(req, now)
    case Err(error) => Outcome(db, Some(error))
    case Ok(None) => Outcome(db, None)
    case Ok(Some(st)) => RunStatement(db, st, fault)
  }

  /** A request succeeds exactly if its mandatory fields are filled, the driver works and the tables
      it asks for satisfy all constraints; then it changes the tables to those, otherwise to nothing
      else: a failed request, such as an upsert whose id exists but whose new email or path belongs
      to another row, leaves every table as it was. Either way the tables stay consistent. */
  lemma ExecExact(db: Tables, req: Request, now: Time, fault: bool)
    requires Consistent(db)
    ensures var after, prepared := Exec(db, req, now, fault), Prepare(req, now);
            && Consistent(after.db)
            && (after.err.Some? ==> after.db == db)
            && (prepared.Ok? && prepared.value.Some? ==>
                  var st := prepared.value.value;
                  && (after.err.None? <==>
                        !fault && Consistent(Candidate(db, st)) && !(st.InsertPendingOp? && st.id in db.pendingOps))
                  && (after.err.None? ==> after.db == Candidate(db, st)))
            && (prepared.Ok? && prepared.value.None? ==> after == Outcome(db, None))
            && (prepared.Err? ==> after.err == Some(prepared.error))
  {
    var prepared := Prepare(req, now);
    if prepared.Ok? && prepared.value.Some? {
      CheckExact(db, prepared.value.value);
    }
  }

  // The mandatory fields of a request, in the order in which they are checked.
  function Mandatory(req: Request): seq<(string, string)> {
    match req
    case UpsertAccount(Some(a)) => [("id", a.id), ("email", a.email)]
    case UpsertTokenRef(Some(r)) => [("account_id", r.accountId), ("key_id", r.keyId)]
    case DeleteTokenRef(id) => [("account_id", id)]
    case UpsertSyncState(Some(s)) => [("account_id", s.accountId)]
    case UpsertFile(Some(f)) => [("id", f.id), ("account_id", f.accountId), ("path", f.path), ("drive_id", f.driveId)]
    case UpsertFolder(Some(f)) => [("id", f.id), ("account_id", f.accountId), ("path", f.path), ("drive_id", f.driveId)]
    case UpsertSharedDrive(Some(d)) => [("id", d.id), ("name", d.name)]
    case AddPendingOp(Some(o)) => [("id", o.id), ("account_id", o.accountId), ("path", o.path), ("op_type", o.opType)]
    case _ => []
  }

  predicate IsNil(req: Request) {
    match req
    case UpsertAccount(p) => p.None?
    case UpsertTokenRef(p) => p.None?
    case UpsertSyncState(p) => p.None?
    case UpsertFile(p) => p.None?
    case UpsertFolder(p) => p.None?
    case UpsertSharedDrive(p) => p.None?
    case AddPendingOp(p) => p.None?
    case _ => false
  }

  /** A request is refused for a missing field exactly if one of its mandatory fields is empty, and
      names the first such field. A nil argument is accepted and does nothing; anything else reaches
      the database. */
  lemma MandatoryFields(req: Request, now: Time)
    ensures var fields, prepared := Mandatory(req), Prepare(req, now);
            && (prepared.Err? <==> exists i | 0 <= i < |fields| :: fields[i].1 == "")
            && (forall i | 0 <= i < |fields| && fields[i].1 == "" && (forall j | 0 <= j < i :: fields[j].1 != "") ::
                  prepared == Err(Empty(fields[i].0)))
            && (prepared == Ok(None) <==> IsNil(req))
  {
    var fields := Mandatory(req);
    FirstEmpty(fields);
    assert Prepare(req, now).Err? <==> Missing(fields).Some?;
    assert Prepare(req, now).Err? ==> Prepare(req, now) == Err(Empty(Missing(fields).value));
  }

  // The first empty one of at most four fields.
  function Missing(fields: seq<(string, string)>): Option<string> {
    if |fields| > 0 && fields[0].1 == "" then Some(fields[0].0)
    else if |fields| > 1 && fields[1].1 == "" then Some(fields[1].0)
    else if |fields| > 2 && fields[2].1 == "" then Some(fields[2].0)
    else if |fields| > 3 && fields[3].1 == "" then Some(fields[3].0)
    else None
  }

  lemma FirstEmpty(fields: seq<(string, string)>)
    requires |fields| <= 4
    ensures Missing(fields).Some? <==> exists i | 0 <= i < |fields| :: fields[i].1 == ""
    ensures forall i | 0 <= i < |fields| && fields[i].1 == "" && (forall j | 0 <= j < i :: fields[j].1 != "") ::
              Missing(fields) == Some(fields[i].0)
  {
    forall i | 0 <= i < |fields| && fields[i].1 == "" && (forall j | 0 <= j < i :: fields[j].1 != "")
      ensures Missing(fields) == Some(fields[i].0)
    {
      assert i > 0 ==> fields[0].1 != "";
      assert i > 1 ==> fields[1].1 != "";
      assert i > 2 ==> fields[2].1 != "";
    }
  }

  // ---- What a request can change ----

  ghost predicate SameAt<Row>(a: map<string, Row>, b: map<string, Row>, k: string) {
    (k in a <==> k in b) && (k in a ==> a[k] == b[k])
  }

  // The rows a request names, table by table: by their key, or by the account they belong to.
  predicate NamesAccount(req: Request, k: string) {
    match req
    case UpsertAccount(Some(a)) => k == a.id
    case DeleteAccount(id) => k == id
    case _ => false
  }

  predicate NamesTokenRef(req: Request, k: string) {
    match req
    case UpsertTokenRef(Some(r)) => k == r.accountId
    case DeleteTokenRef(id) => k == id
    case DeleteAccount(id) => k == id
    case _ => false
  }

  predicate NamesSyncState(req: Request, k: string) {
    match req
    case UpsertSyncState(Some(s)) => k == s.accountId
    case DeleteAccount(id) => k == id
    case _ => false
  }

  predicate NamesFile(db: Tables, req: Request, k: string) {
    match req
    case UpsertFile(Some(f)) => k == f.id
    case DeleteFile(accountId, path) =>
      k in db.files && db.files[k].accountId == accountId && db.files[k].path == path
    case _ => false
  }

  predicate NamesFolder(db: Tables, req: Request, k: string) {
    match req
    case UpsertFolder(Some(f)) => k == f.id
    case DeleteAccount(id) => k in db.folders && db.folders[k].accountId == id
    case _ => false
  }

  predicate NamesDrive(req: Request, k: string) {
    match req
    case UpsertSharedDrive(Some(d)) => k == d.id
    case _ => false
  }

  predicate NamesOp(db: Tables, req: Request, k: string) {
    match req
    case AddPendingOp(Some(o)) => k == o.id
    case UpdatePendingOp(id, _, _, _) => k == id
    case DeletePendingOp(id) => k == id
    case DeleteAccount(id) => k in db.pendingOps && db.pendingOps[k].accountId == id
    case _ => false
  }

  lemma AccountFrame(db: Tables, req: Request, now: Time, st: Statement, k: string)
    requires Prepare(req, now) == Ok(Some(st)) && !NamesAccount(req, k)
    ensures SameAt(db.accounts, Candidate(db, st).accounts, k)
  {}

  lemma TokenRefFrame(db: Tables, req: Request, now: Time, st: Statement, k: string)
    requires Prepare(req, now) == Ok(Some(st)) && !NamesTokenRef(req, k)
    ensures SameAt(db.tokenRefs, Candidate(db, st).tokenRefs, k)
  {}

  lemma SyncStateFrame(db: Tables, req: Request, now: Time, st: Statement, k: string)
    requires Prepare(req, now) == Ok(Some(st)) && !NamesSyncState(req, k)
    ensures SameAt(db.syncStates, Candidate(db, st).syncStates, k)
  {}

  lemma FileFrame(db: Tables, req: Request, now: Time, st: Statement, k: string)
    requires Prepare(req, now) == Ok(Some(st)) && !NamesFile(db, req, k)
    ensures SameAt(db.files, Candidate(db, st).files, k)
  {}

  lemma FolderFrame(db: Tables, req: Request, now: Time, st: Statement, k: string)
    requires Prepare(req, now) == Ok(Some(st)) && !NamesFolder(db, req, k)
    ensures SameAt(db.folders, Candidate(db, st).folders, k)
  {}

  lemma DriveFrame(db: Tables, req: Request, now: Time, st: Statement, k: string)
    requires Prepare(req, now) == Ok(Some(st)) && !NamesDrive(req, k)
    ensures SameAt(db.sharedDrives, Candidate(db, st).sharedDrives, k)
  {}

  lemma OpFrame(db: Tables, req: Request, now: Time, st: Statement, k: string)
    requires Prepare(req, now) == Ok(Some(st)) && !NamesOp(db, req, k)
    ensures SameAt(db.pendingOps, Candidate(db, st).pendingOps, k)
  {}

  ghost predicate OnlyNamed(db: Tables, req: Request, after: Tables) {
    && (forall k | !NamesAccount(req, k) :: SameAt(db.accounts, after.accounts, k))
    && (forall k | !NamesTokenRef(req, k) :: SameAt(db.tokenRefs, after.tokenRefs, k))
    && (forall k | !NamesSyncState(req, k) :: SameAt(db.syncStates, after.syncStates, k))
    && (forall k | !NamesFile(db, req, k) :: SameAt(db.files, after.files, k))
    && (forall k | !NamesFolder(db, req, k) :: SameAt(db.folders, after.folders, k))
    && (forall k | !NamesDrive(req, k) :: SameAt(db.sharedDrives, after.sharedDrives, k))
    && (forall k | !NamesOp(db, req, k) :: SameAt(db.pendingOps, after.pendingOps, k))
  }

  lemma CandidateFrame(db: Tables, req: Request, now: Time, st: Statement)
    requires Prepare(req, now) == Ok(Some(st))
    ensures OnlyNamed(db, req, Candidate(db, st))
  {
    forall k | !NamesAccount(req, k) ensures SameAt(db.accounts, Candidate(db, st).accounts, k) {
      AccountFrame(db, req, now, st, k);
    }
    forall k | !NamesTokenRef(req, k) ensures SameAt(db.tokenRefs, Candidate(db, st).tokenRefs, k) {
      TokenRefFrame(db, req, now, st, k);
    }
    forall k | !NamesSyncState(req, k) ensures SameAt(db.syncStates, Candidate(db, st).syncStates, k) {
      SyncStateFrame(db, req, now, st, k);
    }
    forall k | !NamesFile(db, req, k) ensures SameAt(db.files, Candidate(db, st).files, k) {
      FileFrame(db, req, now, st, k);
    }
    forall k | !NamesFolder(db, req, k) ensures SameAt(db.folders, Candidate(db, st).folders, k) {
      FolderFrame(db, req, now, st, k);
    }
    forall k | !NamesDrive(req, k) ensures SameAt(db.sharedDrives, Candidate(db, st).sharedDrives, k) {
      DriveFrame(db, req, now, st, k);
    }
    forall k | !NamesOp(db, req, k) ensures SameAt(db.pendingOps, Candidate(db, st).pendingOps, k) {
      OpFrame(db, req, now, st, k);
    }
  }

  /** Whatever becomes of a request, it adds, changes and removes no row but those it names. */
  lemma ExecFrame(db: Tables, req: Request, now: Time, fault: bool)
    ensures OnlyNamed(db, req, Exec(db, req, now, fault).db)
  {
    ExecCases(db, req, now, fault);
    if Exec(db, req, now, fault).db != db {
      CandidateFrame(db, req, now, Prepare(req, now).value.value);
    }
  }

  lemma ExecCases(db: Tables, req: Request, now: Time, fault: bool)
    ensures var prepared, after := Prepare(req, now), Exec(db, req, now, fault).db;
            after == db || (prepared.Ok? && prepared.value.Some? && after == Candidate(db, prepared.value.value))
  {}

  /** After a successful delete every row it names is gone. */
  lemma DeletesExact(db: Tables, req: Request, now: Time)
    requires Exec(db, req, now, false).err.None?
    requires req.DeleteAccount? || req.DeleteTokenRef? || req.DeleteFile? || req.DeletePendingOp?
    ensures var after := Exec(db, req, now, false).db;
            && (forall k | NamesAccount(req, k) :: k !in after.accounts)
            && (forall k | NamesTokenRef(req, k) :: k !in after.tokenRefs)
            && (forall k | NamesSyncState(req, k) :: k !in after.syncStates)
            && (forall k | NamesFile(db, req, k) :: k !in after.files)
            && (forall k | NamesFolder(db, req, k) :: k !in after.folders)
            && (forall k | NamesOp(db, req, k) :: k !in after.pendingOps)
  {}

  datatype StoreCall = StoreCall(req: Request, now: Time, fault: bool)

  function RunAll(db: Tables, calls: seq<StoreCall>): Tables
    decreases |calls|
  {
    if calls == [] then db else RunAll(Exec(db, calls[0].req, calls[0].now, calls[0].fault).db, calls[1..])
  }

  /** After any calls, successful or failed, emails and paths are unique and every reference names an
      existing account. */
  lemma {:induction false} StaysConsistent(db: Tables, calls: seq<StoreCall>)
    requires Consistent(db)
    ensures Consistent(RunAll(db, calls))
    decreases |calls|
  {
    if calls == [] {
    } else {
      ExecExact(db, calls[0].req, calls[0].now, calls[0].fault);
      StaysConsistent(Exec(db, calls[0].req, calls[0].now, calls[0].fault).db, calls[1..]);
    }
  }

  // ---- Queries ----

  datatype Keyed<Row> = Keyed(id: string, row: Row)

  function MatchingFiles(db: Tables, accountId: string, prefix: string): set<Keyed<FileRow>> {
    set f | f in db.files && db.files[f].accountId == accountId
            && Like.Matches(Like.PrefixPattern(prefix), db.files[f].path) ::
      Keyed(f, db.files[f])
  }

  function MatchingFolders(db: Tables, accountId: string, prefix: string): set<Keyed<FolderRow>> {
    set f | f in db.folders && db.folders[f].accountId == accountId
            && Like.Matches(Like.PrefixPattern(prefix), db.folders[f].path) ::
      Keyed(f, db.folders[f])
  }

  function MatchingOps(db: Tables, accountId: string, state: string): set<Keyed<PendingOpRow>> {
    set o | o in db.pendingOps && db.pendingOps[o].accountId == accountId
            && (state == "" || db.pendingOps[o].state == state) ::
      Keyed(o, db.pendingOps[o])
  }

  function AllAccounts(db: Tables): set<Keyed<AccountRow>> {
    set a | a in db.accounts :: Keyed(a, db.accounts[a])
  }

  predicate FileByPath(a: Keyed<FileRow>, b: Keyed<FileRow>) { LessEq(a.row.path, b.row.path) }

  predicate FolderByPath(a: Keyed<FolderRow>, b: Keyed<FolderRow>) { LessEq(a.row.path, b.row.path) }

  predicate OpByCreation(a: Keyed<PendingOpRow>, b: Keyed<PendingOpRow>) { a.row.createdAt <= b.row.createdAt }

  predicate AccountByCreation(a: Keyed<AccountRow>, b: Keyed<AccountRow>) { a.row.createdAt <= b.row.createdAt }

  /** A prefix listing selects exactly the account's rows whose path begins with the prefix, up to
      the case of ASCII letters. */
  lemma PrefixListing(db: Tables, accountId: string, prefix: string)
    ensures forall f, row :: Keyed(f, row) in MatchingFiles(db, accountId, prefix) <==>
              f in db.files && db.files[f] == row && row.accountId == accountId
              && |prefix| <= |row.path| && forall i | 0 <= i < |prefix| :: Like.Alike(row.path[i], prefix[i])
    ensures forall f, row :: Keyed(f, row) in MatchingFolders(db, accountId, prefix) <==>
              f in db.folders && db.folders[f] == row && row.accountId == accountId
              && |prefix| <= |row.path| && forall i | 0 <= i < |prefix| :: Like.Alike(row.path[i], prefix[i])
  {
    forall s: string
      ensures Like.Matches(Like.PrefixPattern(prefix), s) <==>
              |prefix| <= |s| && forall i | 0 <= i < |prefix| :: Like.Alike(s[i], prefix[i])
    {
      Like.PrefixSearch(prefix, s);
    }
  }

  /** A listing of pending operations selects the account's operations, of one state unless the
      state is empty, and has them by creation time. */
  lemma OpListing(db: Tables, accountId: string, state: string, limit: nat, cursor: seq<Keyed<PendingOpRow>>)
    requires Answers(OpByCreation, MatchingOps(db, accountId, state), limit, cursor)
    ensures forall o, row :: Keyed(o, row) in MatchingOps(db, accountId, state) <==>
              o in db.pendingOps && db.pendingOps[o] == row && row.accountId == accountId
              && (row.state == state || state == "")
    ensures forall i, j | 0 <= i < j < |cursor| :: cursor[i].row.createdAt <= cursor[j].row.createdAt
  {
    assert forall i, j | 0 <= i < j < |cursor| :: OpByCreation(cursor[i], cursor[j]);
  }

  /** Listings of files and folders are by path: each path is before or the same as the next. */
  lemma PathListing(db: Tables, accountId: string, prefix: string, limit: nat,
                    files: seq<Keyed<FileRow>>, folders: seq<Keyed<FolderRow>>)
    requires Answers(FileByPath, MatchingFiles(db, accountId, prefix), limit, files)
    requires Answers(FolderByPath, MatchingFolders(db, accountId, prefix), limit, folders)
    ensures forall i, j | 0 <= i < j < |files| ::
              files[i].row.path == files[j].row.path || Before(files[i].row.path, files[j].row.path)
    ensures forall i, j | 0 <= i < j < |folders| ::
              folders[i].row.path == folders[j].row.path || Before(folders[i].row.path, folders[j].row.path)
  {
    forall a, b | LessEq(a, b) ensures a == b || Before(a, b) {
      LessTotal(a, b);
      LessExact(a, b);
    }
    assert forall i, j | 0 <= i < j < |files| :: FileByPath(files[i], files[j]);
    assert forall i, j | 0 <= i < j < |folders| :: FolderByPath(folders[i], folders[j]);
  }

  /** The unique index on (account, path) makes a file listing deterministic. */
  lemma FileListingUnique(db: Tables, accountId: string, prefix: string, limit: nat,
                          a: seq<Keyed<FileRow>>, b: seq<Keyed<FileRow>>)
    requires Consistent(db)
    requires Answers(FileByPath, MatchingFiles(db, accountId, prefix), limit, a)
    requires Answers(FileByPath, MatchingFiles(db, accountId, prefix), limit, b)
    ensures a == b
  {
    var rows := MatchingFiles(db, accountId, prefix);
    forall r, q | r in rows && q in rows && FileByPath(r, q) && FileByPath(q, r) ensures r == q {
      LessTotal(r.row.path, q.row.path);
    }
    OneAnswer(FileByPath, rows, limit, a, b);
  }

  /** So does the one on folders. */
  lemma FolderListingUnique(db: Tables, accountId: string, prefix: string, limit: nat,
                            a: seq<Keyed<FolderRow>>, b: seq<Keyed<FolderRow>>)
    requires Consistent(db)
    requires Answers(FolderByPath, MatchingFolders(db, accountId, prefix), limit, a)
    requires Answers(FolderByPath, MatchingFolders(db, accountId, prefix), limit, b)
    ensures a == b
  {
    var rows := MatchingFolders(db, accountId, prefix);
    forall r, q | r in rows && q in rows && FolderByPath(r, q) && FolderByPath(q, r) ensures r == q {
      LessTotal(r.row.path, q.row.path);
    }
    OneAnswer(FolderByPath, rows, limit, a, b);
  }

  lemma Orders()
    ensures TotalPreorder(FileByPath) && TotalPreorder(FolderByPath)
    ensures TotalPreorder(OpByCreation) && TotalPreorder(AccountByCreation)
  {
    forall a, b ensures LessEq(a, b) || LessEq(b, a) {
      LessTotal(a, b);
    }
    forall a, b, c | LessEq(a, b) && LessEq(b, c) ensures LessEq(a, c) {
      LessTrans(a, b, c);
    }
  }
}
