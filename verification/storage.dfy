// The Storage object. Every method that writes is proved to be the request of the same name, and
// to fill in the missing times of the record it is given.
module StorageObject {
  import opened Wrappers
  import opened GoTime
  import opened Schema
  import opened Query
  import opened Store

  ghost function Arg<T>(p: Ptr?<T>): Option<T>
    reads p
  {
    if p == null then None else Some(p.val)
  }

  // A row found by a query for at most one row.
  function FoundFile(id: string, row: FileRow): Result<Option<FileRecord>, Error> {
    match FileOfRow(id, row)
    case Ok(file) => Ok(Some(file))
    case Err(error) => Err(error)
  }

  ghost predicate FileAt(db: Tables, f: string, accountId: string, path: string) {
    f in db.files && db.files[f].accountId == accountId && db.files[f].path == path
  }

  ghost predicate FileOfDrive(db: Tables, f: string, accountId: string, driveId: string) {
    f in db.files && db.files[f].accountId == accountId && db.files[f].driveId == driveId
  }

  // Scanning a cursor: all its rows in order, unless one of them has a NULL where a string is wanted.
  ghost predicate Scans(cursor: seq<Keyed<FileRow>>, r: Result<seq<FileRecord>, Error>) {
    match r
    case Ok(out) =>
      |out| == |cursor| && forall k | 0 <= k < |out| :: FileOfRow(cursor[k].id, cursor[k].row) == Ok(out[k])
    case Err(error) =>
      error == NullScan && exists k | 0 <= k < |cursor| :: FileOfRow(cursor[k].id, cursor[k].row).Err?
  }

  class Storage {
    var db: Tables

    constructor (db: Tables)
      ensures this.db == db
    {
      this.db := db;
    }

    method Run(st: Statement, fault: bool) returns (err: Option<Error>)
      modifies this
      ensures Outcome(db, err) == RunStatement(old(db), st, fault)
    {
      if fault {
        return Some(Driver);
      }
      match Execute(db, st)
      case Ok(after) =>
        db := after;
        return None;
      case Err(error) =>
        return Some(error);
    }

    method UpsertAccount(acct: Ptr?<Account>, now: Time, fault: bool) returns (err: Option<Error>)
      modifies this, acct
      ensures Outcome(db, err) == Exec(old(db), Request.UpsertAccount(old(Arg(acct))), now, fault)
      ensures acct != null ==>
                acct.val == if Prepare(Request.UpsertAccount(old(Arg(acct))), now).Ok?
                  then StampAccount(old(acct.val), now) else old(acct.val)
    {
      if acct == null {
        return None;
      }
      if acct.val.id == "" {
        return Some(Empty("id"));
      }
      if acct.val.email == "" {
        return Some(Empty("email"));
      }
      if IsZero(acct.val.createdAt) {
        acct.val := acct.val.(createdAt := now);
      }
      if IsZero(acct.val.updatedAt) {
        acct.val := acct.val.(updatedAt := now);
      }
      err := Run(PutAccount(acct.val.id, AccountToRow(acct.val)), fault);
    }

    method DeleteAccount(id: string, fault: bool) returns (err: Option<Error>)
      modifies this
      ensures forall now :: Outcome(db, err) == Exec(old(db), Request.DeleteAccount(id), now, fault)
    {
      err := Run(DropAccount(id), fault);
    }

    method UpsertTokenRef(ref: Ptr?<TokenRef>, now: Time, fault: bool) returns (err: Option<Error>)
      modifies this, ref
      ensures Outcome(db, err) == Exec(old(db), Request.UpsertTokenRef(old(Arg(ref))), now, fault)
      ensures ref != null ==>
                ref.val == if Prepare(Request.UpsertTokenRef(old(Arg(ref))), now).Ok?
                  then StampTokenRef(old(ref.val), now) else old(ref.val)
    {
      if ref == null {
        return None;
      }
      if ref.val.accountId == "" {
        return Some(Empty("account_id"));
      }
      if ref.val.keyId == "" {
        return Some(Empty("key_id"));
      }
      if IsZero(ref.val.updatedAt) {
        ref.val := ref.val.(updatedAt := now);
      }
      err := Run(PutTokenRef(ref.val.accountId, TokenRefToRow(ref.val)), fault);
    }

    method DeleteTokenRef(accountId: string, fault: bool) returns (err: Option<Error>)
      modifies this
      ensures forall now :: Outcome(db, err) == Exec(old(db), Request.DeleteTokenRef(accountId), now, fault)
    {
      if accountId == "" {
        return Some(Empty("account_id"));
      }
      err := Run(DropTokenRef(accountId), fault);
    }

    method UpsertSyncState(state: Ptr?<SyncState>, now: Time, fault: bool) returns (err: Option<Error>)
      modifies this, state
      ensures Outcome(db, err) == Exec(old(db), Request.UpsertSyncState(old(Arg(state))), now, fault)
      ensures state != null ==>
                state.val == if Prepare(Request.UpsertSyncState(old(Arg(state))), now).Ok?
                  then StampSyncState(old(state.val), now) else old(state.val)
    {
      if state == null {
        return None;
      }
      if state.val.accountId == "" {
        return Some(Empty("account_id"));
      }
      if IsZero(state.val.updatedAt) {
        state.val := state.val.(updatedAt := now);
      }
      err := Run(PutSyncState(state.val.accountId, SyncStateToRow(state.val)), fault);
    }

    method UpsertFile(file: Ptr?<FileRecord>, now: Time, fault: bool) returns (err: Option<Error>)
      modifies this, file
      ensures Outcome(db, err) == Exec(old(db), Request.UpsertFile(old(Arg(file))), now, fault)
      ensures file != null ==>
                file.val == if Prepare(Request.UpsertFile(old(Arg(file))), now).Ok?
                  then StampFile(old(file.val), now) else old(file.val)
    {
      if file == null {
        return None;
      }
      if file.val.id == "" {
        return Some(Empty("id"));
      }
      if file.val.accountId == "" {
        return Some(Empty("account_id"));
      }
      if file.val.path == "" {
        return Some(Empty("path"));
      }
      if file.val.driveId == "" {
        return Some(Empty("drive_id"));
      }
      if IsZero(file.val.createdAt) {
        file.val := file.val.(createdAt := now);
      }
      if IsZero(file.val.modifiedAt) {
        file.val := file.val.(modifiedAt := now);
      }
      err := Run(PutFile(file.val.id, FileToRow(file.val)), fault);
    }

    method DeleteFile(accountId: string, path: string, fault: bool) returns (err: Option<Error>)
      modifies this
      ensures forall now :: Outcome(db, err) == Exec(old(db), Request.DeleteFile(accountId, path), now, fault)
    {
      err := Run(DropFile(accountId, path), fault);
    }

    method UpsertFolder(folder: Ptr?<Folder>, now: Time, fault: bool) returns (err: Option<Error>)
      modifies this, folder
      ensures Outcome(db, err) == Exec(old(db), Request.UpsertFolder(old(Arg(folder))), now, fault)
      ensures folder != null ==>
                folder.val == if Prepare(Request.UpsertFolder(old(Arg(folder))), now).Ok?
                  then StampFolder(old(folder.val), now) else old(folder.val)
    {
      if folder == null {
        return None;
      }
      if folder.val.id == "" {
        return Some(Empty("id"));
      }
      if folder.val.accountId == "" {
        return Some(Empty("account_id"));
      }
      if folder.val.path == "" {
        return Some(Empty("path"));
      }
      if folder.val.driveId == "" {
        return Some(Empty("drive_id"));
      }
      if IsZero(folder.val.createdAt) {
        folder.val := folder.val.(createdAt := now);
      }
      if IsZero(folder.val.modifiedAt) {
        folder.val := folder.val.(modifiedAt := now);
      }
      err := Run(PutFolder(folder.val.id, FolderToRow(folder.val)), fault);
    }

    method UpsertSharedDrive(drive: Ptr?<SharedDrive>, now: Time, fault: bool) returns (err: Option<Error>)
      modifies this, drive
      ensures Outcome(db, err) == Exec(old(db), Request.UpsertSharedDrive(old(Arg(drive))), now, fault)
      ensures drive != null ==>
                drive.val == if Prepare(Request.UpsertSharedDrive(old(Arg(drive))), now).Ok?
                  then StampDrive(old(drive.val), now) else old(drive.val)
    {
      if drive == null {
        return None;
      }
      if drive.val.id == "" {
        return Some(Empty("id"));
      }
      if drive.val.name == "" {
        return Some(Empty("name"));
      }
      if IsZero(drive.val.createdAt) {
        drive.val := drive.val.(createdAt := now);
      }
      if IsZero(drive.val.updatedAt) {
        drive.val := drive.val.(updatedAt := now);
      }
      err := Run(PutSharedDrive(drive.val.id, DriveToRow(drive.val)), fault);
    }

    method AddPendingOp(op: Ptr?<PendingOp>, now: Time, fault: bool) returns (err: Option<Error>)
      modifies this, op
      ensures Outcome(db, err) == Exec(old(db), Request.AddPendingOp(old(Arg(op))), now, fault)
      ensures op != null ==>
                op.val == if Prepare(Request.AddPendingOp(old(Arg(op))), now).Ok?
                  then StampOp(old(op.val), now) else old(op.val)
    {
      if op == null {
        return None;
      }
      if op.val.id == "" {
        return Some(Empty("id"));
      }
      if op.val.accountId == "" {
        return Some(Empty("account_id"));
      }
      if op.val.path == "" {
        return Some(Empty("path"));
      }
      if op.val.opType == "" {
        return Some(Empty("op_type"));
      }
      if IsZero(op.val.createdAt) {
        op.val := op.val.(createdAt := now);
      }
      if IsZero(op.val.updatedAt) {
        op.val := op.val.(updatedAt := now);
      }
      if op.val.state == "" {
        op.val := op.val.(state := "queued");
      }
      err := Run(InsertPendingOp(op.val.id, OpToRow(op.val)), fault);
    }

    method UpdatePendingOp(id: string, state: string, retryCount: int, lastError: string, now: Time, fault: bool)
      returns (err: Option<Error>)
      modifies this
      ensures Outcome(db, err) == Exec(old(db), Request.UpdatePendingOp(id, state, retryCount, lastError), now, fault)
    {
      err := Run(Statement.UpdatePendingOp(id, state, retryCount, lastError, UnixTime(now)), fault);
    }

    method DeletePendingOp(id: string, fault: bool) returns (err: Option<Error>)
      modifies this
      ensures forall now :: Outcome(db, err) == Exec(old(db), Request.DeletePendingOp(id), now, fault)
    {
      err := Run(DropPendingOp(id), fault);
    }

    method GetTokenRef(accountId: string, fault: bool) returns (r: Result<Option<TokenRef>, Error>)
      ensures r == if fault then Err(Driver)
                   else if accountId in db.tokenRefs then Ok(Some(TokenRefOfRow(accountId, db.tokenRefs[accountId])))
                   else Ok(None)
    {
      if fault {
        return Err(Driver);
      }
      if accountId !in db.tokenRefs {
        return Ok(None);
      }
      return Ok(Some(TokenRefOfRow(accountId, db.tokenRefs[accountId])));
    }

    /** The file at a path: by the unique index there is at most one. */
    method GetFileByPath(accountId: string, path: string, fault: bool) returns (r: Result<Option<FileRecord>, Error>)
      requires Consistent(db)
      ensures fault ==> r == Err(Driver)
      ensures !fault ==> forall f | FileAt(db, f, accountId, path) :: r == FoundFile(f, db.files[f])
      ensures !fault && !(exists f :: FileAt(db, f, accountId, path)) ==> r == Ok(None)
    {
      if fault {
        return Err(Driver);
      }
      var found := set f | f in db.files && db.files[f].accountId == accountId && db.files[f].path == path;
      if found == {} {
        assert forall f | FileAt(db, f, accountId, path) :: f in found;
        return Ok(None);
      }
      var f :| f in found;
      assert FileAt(db, f, accountId, path);
      return FoundFile(f, db.files[f]);
    }

    /** A file with a Drive id. The index is not unique: when several rows have it, any of them may
        be returned. */
    method GetFileByDriveID(accountId: string, driveId: string, fault: bool)
      returns (r: Result<Option<FileRecord>, Error>)
      ensures fault ==> r == Err(Driver)
      ensures !fault && (exists f :: FileOfDrive(db, f, accountId, driveId)) ==>
                exists f :: FileOfDrive(db, f, accountId, driveId) && r == FoundFile(f, db.files[f])
      ensures !fault && !(exists f :: FileOfDrive(db, f, accountId, driveId)) ==> r == Ok(None)
    {
      if fault {
        return Err(Driver);
      }
      var found := set f | f in db.files && db.files[f].accountId == accountId && db.files[f].driveId == driveId;
      if found == {} {
        assert forall f | FileOfDrive(db, f, accountId, driveId) :: f in found;
        return Ok(None);
      }
      var f :| f in found;
      assert FileOfDrive(db, f, accountId, driveId);
      return FoundFile(f, db.files[f]);
    }

    method ListAccounts(fault: bool) returns (r: Result<seq<Account>, Error>, ghost cursor: seq<Keyed<AccountRow>>)
      ensures fault ==> r == Err(Driver)
      ensures !fault ==>
                && Answers(AccountByCreation, AllAccounts(db), |AllAccounts(db)|, cursor)
                && r.Ok? && |r.value| == |cursor|
                && forall k | 0 <= k < |cursor| :: r.value[k] == AccountOfRow(cursor[k].id, cursor[k].row)
    {
      cursor := [];
      if fault {
        return Err(Driver), cursor;
      }
      Orders();
      var rows := AllAccounts(db);
      var answer := Select(rows, AccountByCreation, |rows|);
      cursor := answer;
      var out := [];
      for i := 0 to |answer|
        invariant |out| == i
        invariant forall k | 0 <= k < i :: out[k] == AccountOfRow(answer[k].id, answer[k].row)
      {
        out := out + [AccountOfRow(answer[i].id, answer[i].row)];
      }
      r := Ok(out);
    }

    method ListFilesByPrefix(accountId: string, prefix: string, limit: int, fault: bool)
      returns (r: Result<seq<FileRecord>, Error>, ghost cursor: seq<Keyed<FileRow>>)
      ensures fault ==> r == Err(Driver)
      ensures !fault ==>
                var rows, max := MatchingFiles(db, accountId, prefix), if limit <= 0 then 500 else limit;
                Answers(FileByPath, rows, max, cursor) && Scans(cursor, r)
    {
      cursor := [];
      if fault {
        return Err(Driver), cursor;
      }
      var max := limit;
      if max <= 0 {
        max := 500;
      }
      Orders();
      var answer := Select(MatchingFiles(db, accountId, prefix), FileByPath, max);
      cursor := answer;
      var out := [];
      for i := 0 to |answer|
        invariant |out| == i
        invariant forall k | 0 <= k < i :: FileOfRow(answer[k].id, answer[k].row) == Ok(out[k])
      {
        match FileOfRow(answer[i].id, answer[i].row)
        case Ok(file) => out := out + [file];
        case Err(error) => return Err(error), cursor;
      }
      r := Ok(out);
    }

    method ListFoldersByPrefix(accountId: string, prefix: string, limit: int, fault: bool)
      returns (r: Result<seq<Folder>, Error>, ghost cursor: seq<Keyed<FolderRow>>)
      ensures fault ==> r == Err(Driver)
      ensures !fault ==>
                var rows, max := MatchingFolders(db, accountId, prefix), if limit <= 0 then 500 else limit;
                && Answers(FolderByPath, rows, max, cursor)
                && r.Ok? && |r.value| == |cursor|
                && forall k | 0 <= k < |cursor| :: r.value[k] == FolderOfRow(cursor[k].id, cursor[k].row)
    {
      cursor := [];
      if fault {
        return Err(Driver), cursor;
      }
      var max := limit;
      if max <= 0 {
        max := 500;
      }
      Orders();
      var answer := Select(MatchingFolders(db, accountId, prefix), FolderByPath, max);
      cursor := answer;
      var out := [];
      for i := 0 to |answer|
        invariant |out| == i
        invariant forall k | 0 <= k < i :: out[k] == FolderOfRow(answer[k].id, answer[k].row)
      {
        out := out + [FolderOfRow(answer[i].id, answer[i].row)];
      }
      r := Ok(out);
    }

    method ListPendingOps(accountId: string, state: string, limit: int, fault: bool)
      returns (r: Result<seq<PendingOp>, Error>, ghost cursor: seq<Keyed<PendingOpRow>>)
      ensures fault ==> r == Err(Driver)
      ensures !fault ==>
                && Answers(OpByCreation, MatchingOps(db, accountId, state), if limit <= 0 then 500 else limit, cursor)
                && r.Ok? && |r.value| == |cursor|
                && forall k | 0 <= k < |cursor| :: r.value[k] == OpOfRow(cursor[k].id, cursor[k].row)
    {
      cursor := [];
      if fault {
        return Err(Driver), cursor;
      }
      var max := limit;
      if max <= 0 {
        max := 500;
      }
      Orders();
      var answer := Select(MatchingOps(db, accountId, state), OpByCreation, max);
      cursor := answer;
      var out := [];
      for i := 0 to |answer|
        invariant |out| == i
        invariant forall k | 0 <= k < i :: out[k] == OpOfRow(answer[k].id, answer[k].row)
      {
        out := out + [OpOfRow(answer[i].id, answer[i].row)];
      }
      r := Ok(out);
    }
  }

  // ---- Reading back what was written ----

  // What is kept of a given time, or of the time of the call if none is given.
  function Recorded(t: Time, now: Time): Time { Stored(if t == 0 then now else t) }

  // The creation time of an upserted row: that of the row it replaces, if any.
  function CreationTime(before: Option<int>, t: Time, now: Time): Time {
    if before.Some? then FromUnix(before.value) else Recorded(t, now)
  }

  /** After a successful UpsertFile, the one file at its account and path is the record given, with
      its times as the database keeps them, and the creation time of the row it replaced, if any. */
  lemma UpsertThenGetFile(db: Tables, file: FileRecord, now: Time, f: string)
    requires Consistent(db)
    requires Exec(db, Request.UpsertFile(Some(file)), now, false).err.None?
    ensures var after := Exec(db, Request.UpsertFile(Some(file)), now, false).db;
            var before := if file.id in db.files then Some(db.files[file.id].createdAt) else None;
            && (FileAt(after, f, file.accountId, file.path) <==> f == file.id)
            && FileOfDrive(after, file.id, file.accountId, file.driveId)
            && FoundFile(file.id, after.files[file.id]) ==
               Ok(Some(FileRecord(
                 file.id, file.accountId, file.path, file.driveId, file.etag, file.checksum, file.size,
                 Recorded(file.modifiedAt, now), CreationTime(before, file.createdAt, now))))
  {
    ExecExact(db, Request.UpsertFile(Some(file)), now, false);
    EncodeDecode(OrNow(file.modifiedAt, now));
    EncodeDecode(OrNow(file.createdAt, now));
  }

  /** Likewise for accounts, token references, sync states, folders and shared drives. The columns
      that constraints and queries look at hold the given values. */
  lemma UpsertThenGetAccount(db: Tables, a: Account, now: Time)
    requires Exec(db, Request.UpsertAccount(Some(a)), now, false).err.None?
    ensures var after := Exec(db, Request.UpsertAccount(Some(a)), now, false).db;
            var before := if a.id in db.accounts then Some(db.accounts[a.id].createdAt) else None;
            && a.id in after.accounts && after.accounts[a.id].email == a.email
            && (after.accounts[a.id].isPrimary != 0 <==> a.isPrimary)
            && AccountOfRow(a.id, after.accounts[a.id]) ==
               Account(a.id, a.email, a.displayName, a.isPrimary,
                       CreationTime(before, a.createdAt, now), Recorded(a.updatedAt, now))
  {
    EncodeDecode(OrNow(a.createdAt, now));
    EncodeDecode(OrNow(a.updatedAt, now));
  }

  lemma UpsertThenGetTokenRef(db: Tables, r: TokenRef, now: Time)
    requires Exec(db, Request.UpsertTokenRef(Some(r)), now, false).err.None?
    ensures var after := Exec(db, Request.UpsertTokenRef(Some(r)), now, false).db;
            && r.accountId in after.tokenRefs
            && TokenRefOfRow(r.accountId, after.tokenRefs[r.accountId]) ==
               TokenRef(r.accountId, r.keyId, r.tokenType, r.scope, Stored(r.expiry), Recorded(r.updatedAt, now))
  {
    EncodeDecode(r.expiry);
    EncodeDecode(OrNow(r.updatedAt, now));
  }

  lemma UpsertThenGetSyncState(db: Tables, s: SyncState, now: Time)
    requires Exec(db, Request.UpsertSyncState(Some(s)), now, false).err.None?
    ensures var after := Exec(db, Request.UpsertSyncState(Some(s)), now, false).db;
            && s.accountId in after.syncStates
            && SyncStateOfRow(s.accountId, after.syncStates[s.accountId]) ==
               SyncState(s.accountId, s.startPageToken, Stored(s.lastSyncAt), s.lastError, s.paused,
                         Recorded(s.updatedAt, now))
  {
    EncodeDecode(s.lastSyncAt);
    EncodeDecode(OrNow(s.updatedAt, now));
  }

  lemma UpsertThenGetFolder(db: Tables, f: Folder, now: Time)
    requires Exec(db, Request.UpsertFolder(Some(f)), now, false).err.None?
    ensures var after := Exec(db, Request.UpsertFolder(Some(f)), now, false).db;
            var before := if f.id in db.folders then Some(db.folders[f.id].createdAt) else None;
            && f.id in after.folders
            && after.folders[f.id].accountId == f.accountId && after.folders[f.id].path == f.path
            && FolderOfRow(f.id, after.folders[f.id]) ==
               Folder(f.id, f.accountId, f.path, f.driveId, f.parentId,
                      Recorded(f.modifiedAt, now), CreationTime(before, f.createdAt, now))
  {
    EncodeDecode(OrNow(f.modifiedAt, now));
    EncodeDecode(OrNow(f.createdAt, now));
  }

  lemma UpsertThenGetSharedDrive(db: Tables, d: SharedDrive, now: Time)
    requires Exec(db, Request.UpsertSharedDrive(Some(d)), now, false).err.None?
    ensures var after := Exec(db, Request.UpsertSharedDrive(Some(d)), now, false).db;
            var before := if d.id in db.sharedDrives then Some(db.sharedDrives[d.id].createdAt) else None;
            && d.id in after.sharedDrives
            && DriveOfRow(d.id, after.sharedDrives[d.id]) ==
               SharedDrive(d.id, d.name, CreationTime(before, d.createdAt, now), Recorded(d.updatedAt, now))
  {
    EncodeDecode(OrNow(d.createdAt, now));
    EncodeDecode(OrNow(d.updatedAt, now));
  }

  /** An operation added is listed as given, queued if no state is given, and an update then changes
      four of its columns. */
  lemma AddThenListPendingOp(db: Tables, o: PendingOp, now: Time)
    requires Exec(db, Request.AddPendingOp(Some(o)), now, false).err.None?
    ensures var after := Exec(db, Request.AddPendingOp(Some(o)), now, false).db;
            && o.id !in db.pendingOps && o.id in after.pendingOps
            && after.pendingOps[o.id].accountId == o.accountId
            && after.pendingOps[o.id].state == OpOfRow(o.id, after.pendingOps[o.id]).state
            && OpOfRow(o.id, after.pendingOps[o.id]) ==
               PendingOp(o.id, o.accountId, o.path, o.driveId, o.opType, if o.state != "" then o.state else "queued",
                         o.retryCount, o.lastError, Recorded(o.createdAt, now), Recorded(o.updatedAt, now))
  {
    EncodeDecode(OrNow(o.createdAt, now));
    EncodeDecode(OrNow(o.updatedAt, now));
  }

  lemma UpdateThenListPendingOp(db: Tables, id: string, state: string, retryCount: int, lastError: string, now: Time)
    requires id in db.pendingOps
    ensures var after := Exec(db, Request.UpdatePendingOp(id, state, retryCount, lastError), now, false).db;
            && id in after.pendingOps
            && OpOfRow(id, after.pendingOps[id]) ==
               OpOfRow(id, db.pendingOps[id]).(
                 state := state, retryCount := retryCount, lastError := lastError, updatedAt := Stored(now))
  {
    EncodeDecode(now);
  }
}
