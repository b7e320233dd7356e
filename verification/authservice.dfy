// The auth service as an object: each method is proved to be the call of the same name.
module AuthService {
  import opened Wrappers
  import opened GoTime
  import opened Schema
  import opened Query
  import opened Store
  import opened StorageObject
  import opened Auth
  import Scopes

  /** The system keyring, restricted to the application's service name. A failing operation changes
      nothing. */
  class Keyring {
    var entries: map<string, string>

    constructor ()
      ensures entries == map[]
    {
      entries := map[];
    }

    method Set(id: string, secret: string, fault: bool) returns (failed: bool)
      modifies this
      ensures failed == fault && entries == if fault then old(entries) else old(entries)[id := secret]
    {
      if !fault {
        entries := entries[id := secret];
      }
      return fault;
    }

    method Delete(id: string, fault: bool) returns (failed: bool)
      modifies this
      ensures failed == (fault || id !in old(entries))
      ensures entries == if fault then old(entries) else old(entries) - {id}
    {
      failed := fault || id !in entries;
      if !fault {
        entries := entries - {id};
      }
    }

    method Get(id: string, fault: bool) returns (r: Option<string>)
      ensures r == if fault || id !in entries then None else Some(entries[id])
    {
      if fault || id !in entries {
        return None;
      }
      return Some(entries[id]);
    }
  }

  // What a service holds after it has read this listing...
  ghost predicate StartsFrom(db: Tables, state: State, listFault: bool, unreadable: set<string>,
                             accounts: seq<Account>, cursor: seq<Keyed<AccountRow>>) {
    && (listFault || ListsAccounts(db, accounts, cursor))
    && var active := FindActive(db, if listFault then Err(Driver) else Ok(accounts), unreadable);
       state == if active.Some? then SignedIn(active.value) else SignedOut
  }

  // ...and what it may come to hold when it starts.
  ghost predicate Bootstrapped(db: Tables, state: State, listFault: bool, unreadable: set<string>) {
    exists accounts, cursor :: StartsFrom(db, state, listFault, unreadable, accounts, cursor)
  }

  lemma NothingListed(db: Tables, accounts: seq<Account>, cursor: seq<Keyed<AccountRow>>)
    requires ListsAccounts(db, accounts, cursor)
    ensures |accounts| == 0 <==> |db.accounts| == 0
  {
    if a :| a in db.accounts {
      AccountListed(db, accounts, cursor, a);
    }
    if accounts != [] {
      ListedAccount(db, accounts, cursor, accounts[0]);
    }
  }

  class Service {
    const configured: bool
    const store: Storage
    const keyring: Keyring
    var state: State

    ghost function Current(): World
      reads this, store, keyring
    {
      World(store.db, keyring.entries, state)
    }

    // NewService, with bootstrapState.
    constructor (configured: bool, store: Storage, keyring: Keyring, listFault: bool, unreadable: set<string>)
      ensures this.configured == configured && this.store == store && this.keyring == keyring
      ensures Bootstrapped(store.db, state, listFault, unreadable)
    {
      this.configured := configured;
      this.store := store;
      this.keyring := keyring;
      state := SignedOut;
      new;
      var account, accounts, cursor := FindActiveAccount(listFault, unreadable);
      if account.Some? {
        state := SignedIn(account.value);
      }
      assert StartsFrom(store.db, state, listFault, unreadable, accounts, cursor);
    }

    method FindActiveAccount(listFault: bool, unreadable: set<string>)
      returns (account: Option<Account>, ghost accounts: seq<Account>, ghost cursor: seq<Keyed<AccountRow>>)
      ensures listFault || ListsAccounts(store.db, accounts, cursor)
      ensures account == FindActive(store.db, if listFault then Err(Driver) else Ok(accounts), unreadable)
    {
      accounts := [];
      var listed, rows := store.ListAccounts(listFault);
      cursor := rows;
      if listed.Err? || |listed.value| == 0 {
        if listed.Ok? {
          accounts := listed.value;
        }
        return None, accounts, cursor;
      }
      var all := listed.value;
      accounts := all;
      var candidates: seq<Account> := [];
      for i := 0 to |all|
        invariant candidates == Candidates(store.db, all[..i], unreadable)
      {
        assert all[..i + 1][..i] == all[..i];
        var ref := store.GetTokenRef(all[i].id, all[i].id in unreadable);
        if ref.Err? || ref.value.None? {
          continue;
        }
        candidates := candidates + [all[i]];
      }
      assert all[..|all|] == all;
      if |candidates| == 0 {
        return None, accounts, cursor;
      }
      for i := 0 to |candidates|
        invariant FirstPrimary(candidates) == FirstPrimary(candidates[i..])
      {
        if candidates[i].isPrimary {
          return Some(candidates[i]), accounts, cursor;
        }
        assert candidates[i..][1..] == candidates[i + 1..];
      }
      return Some(candidates[0]), accounts, cursor;
    }

    method IsFirstAccount(listFault: bool) returns (first: bool)
      ensures first == (!listFault && |store.db.accounts| == 0)
    {
      var listed, cursor := store.ListAccounts(listFault);
      if listed.Err? {
        return false;
      }
      NothingListed(store.db, listed.value, cursor);
      return |listed.value| == 0;
    }

    // The first write of a sign-in.
    method SaveAccount(flow: Flow, now: Time, faults: Faults) returns (account: Account, failed: Option<Error>)
      requires !IsZero(now) && flow.Granted?
      modifies store
      ensures account == FreshAccount(old(Current()), flow, now, faults.list)
      ensures Outcome(store.db, failed) == Exec(old(store.db), UpsertAccount(Some(account)), now, faults.putAccount)
    {
      var first := IsFirstAccount(faults.list);
      var saved := new Ptr(Account(flow.sub, flow.email, flow.name, first, now, now));
      failed := store.UpsertAccount(saved, now, faults.putAccount);
      account := saved.val;
    }

    // The second.
    method SaveRef(scopes: seq<string>, flow: Flow, now: Time, faults: Faults) returns (failed: Option<Error>)
      requires !IsZero(now) && flow.Granted?
      modifies store
      ensures Outcome(store.db, failed) ==
              Exec(old(store.db), UpsertTokenRef(Some(FreshRef(scopes, flow, now))), now, faults.putRef)
    {
      var requested := scopes;
      if |requested| == 0 {
        requested := DEFAULT_SCOPES;
      }
      var scope := Scopes.ScopeString(requested);
      var ref := new Ptr(TokenRef(flow.sub, flow.sub, "refresh", scope, flow.expiry, now));
      failed := store.UpsertTokenRef(ref, now, faults.putRef);
    }

    method SignIn(scopes: seq<string>, flow: Flow, now: Time, faults: Faults) returns (err: Option<AuthError>)
      requires !IsZero(now)
      modifies this, store, keyring
      ensures (Current(), err) == AfterSignIn(old(Current()), Call.SignIn(configured, scopes, flow, now, faults))
    {
      if !configured {
        return Some(NotConfigured);
      }
      if flow.FlowFailed? {
        return Some(FlowError);
      }
      if flow.NoToken? {
        return Some(TokenMissing);
      }
      if flow.sub == "" {
        return Some(SubMissing);
      }
      var account, failed := SaveAccount(flow, now, faults);
      if failed.Some? {
        return Some(StoreError(failed.value));
      }
      if flow.refreshToken == "" {
        return Some(RefreshMissing);
      }
      failed := SaveRef(scopes, flow, now, faults);
      if failed.Some? {
        return Some(StoreError(failed.value));
      }
      var refused := keyring.Set(flow.sub, flow.refreshToken, faults.setKey);
      if refused {
        var _ := store.DeleteTokenRef(flow.sub, faults.dropRef);
        return Some(KeyringError);
      }
      state := SignedIn(account);
      return None;
    }

    method SignOut(id: string, keepsKey: bool, dropFault: bool) returns (err: Option<AuthError>)
      modifies this, store, keyring
      ensures (Current(), err) == AfterSignOut(old(Current()), Call.SignOut(id, keepsKey, dropFault))
    {
      if id == "" {
        return Some(IdMissing);
      }
      var _ := keyring.Delete(id, keepsKey);
      var failed := store.DeleteAccount(id, dropFault);
      assert Outcome(store.db, failed) == Exec(old(store.db), Request.DeleteAccount(id), ZERO, dropFault);
      if failed.Some? {
        return Some(StoreError(failed.value));
      }
      state := SignedOut;
      return None;
    }

    /** RefreshAccessToken; newExpiry is the expiry of the token the provider returns, if it does. A
        failure to write the reference back is only logged. */
    method Refresh(id: string, getFault: bool, getKeyFault: bool, newExpiry: Option<Time>, now: Time, putFault: bool)
      returns (err: Option<AuthError>)
      requires !IsZero(now)
      modifies store
      ensures (Current(), err) ==
              AfterRefresh(old(Current()),
                           Call.Refresh(id, configured, getFault, getKeyFault, newExpiry, now, putFault))
    {
      if id == "" {
        return Some(IdMissing);
      }
      if !configured {
        return Some(NotConfigured);
      }
      var found := store.GetTokenRef(id, getFault);
      if found.Err? {
        return Some(StoreError(found.error));
      }
      if found.value.None? {
        return Some(RefMissing);
      }
      var secret := keyring.Get(id, getKeyFault);
      if secret.None? {
        return Some(KeyringError);
      }
      if newExpiry.None? {
        return Some(FlowError);
      }
      var ref := new Ptr(found.value.value.(expiry := newExpiry.value, updatedAt := now));
      var _ := store.UpsertTokenRef(ref, now, putFault);
      return None;
    }
  }
}
