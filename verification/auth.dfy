// Sign-in, sign-out and token refresh over the metadata store and an external keyring, each call as
// a function of the world and of what the outside does. Calls come one after another.
module Auth {
  import opened Wrappers
  import opened GoTime
  import opened Schema
  import opened Query
  import opened Store
  import Scopes
  import Migrations
  import Text

  datatype State = SignedOut | SignedIn(account: Account)

  datatype World = World(db: Tables, keys: map<string, string>, state: State)

  /** The result of the OAuth flow. */
  datatype Flow =
    | FlowFailed
    | NoToken
    | Granted(sub: string, email: string, name: string, refreshToken: string, expiry: Time)

  /** Which of the steps of a sign-in fail for reasons of the outside. */
  datatype Faults = Faults(list: bool, putAccount: bool, putRef: bool, setKey: bool, dropRef: bool)

  datatype AuthError =
    | NotConfigured | FlowError | TokenMissing | SubMissing | RefreshMissing | IdMissing | RefMissing
    | KeyringError | StoreError(error: Error)

  const DEFAULT_SCOPES: seq<string> := ["openid", "email", "profile", "https://www.googleapis.com/auth/drive"]

  datatype Call =
    | SignIn(configured: bool, scopes: seq<string>, flow: Flow, now: Time, faults: Faults)
    | SignOut(id: string, keepsKey: bool, dropFault: bool)
    | Refresh(id: string, configured: bool, getFault: bool, getKeyFault: bool,
              newExpiry: Option<Time>, now: Time, putFault: bool)
    | Restart(listing: Result<seq<Account>, Error>, unreadable: set<string>)

  // ---- Sign-in ----

  function FreshAccount(w: World, flow: Flow, now: Time, listFault: bool): Account
    requires flow.Granted?
  {
    Account(flow.sub, flow.email, flow.name, !listFault && |w.db.accounts| == 0, now, now)
  }

  function FreshRef(scopes: seq<string>, flow: Flow, now: Time): TokenRef
    requires flow.Granted?
  {
    var requested := if |scopes| == 0 then DEFAULT_SCOPES else scopes;
    TokenRef(flow.sub, flow.sub, "refresh", Scopes.Canonical(requested), flow.expiry, now)
  }

  /** What the store answers to the three writes of a sign-in, each made on the tables the one before
      left: the account, the token reference, and taking the reference back when the keyring refuses
      the secret. */
  datatype Stages = Stages(account: Outcome, ref: Outcome, rollback: Outcome)

  function StagesOf(w: World, c: Call): Stages
    requires c.SignIn? && c.flow.Granted?
  {
    var account := Exec(w.db, UpsertAccount(Some(FreshAccount(w, c.flow, c.now, c.faults.list))),
                       c.now, c.faults.putAccount);
    var ref := Exec(account.db, UpsertTokenRef(Some(FreshRef(c.scopes, c.flow, c.now))), c.now, c.faults.putRef);
    Stages(account, ref, Exec(ref.db, DeleteTokenRef(c.flow.sub), c.now, c.faults.dropRef))
  }

  function SignInStages(w: World, c: Call, st: Stages): (World, Option<AuthError>)
    requires c.SignIn? && c.flow.Granted?
  {
    if c.flow.sub == "" then (w, Some(SubMissing))
    else if st.account.err.Some? then (w, Some(StoreError(st.account.err.value)))
    else if c.flow.refreshToken == "" then (w.(db := st.account.db), Some(RefreshMissing))
    else if st.ref.err.Some? then (w.(db := st.account.db), Some(StoreError(st.ref.err.value)))
    else if c.faults.setKey then (w.(db := st.rollback.db), Some(KeyringError))
    else
      (World(st.ref.db, w.keys[c.flow.sub := c.flow.refreshToken],
             SignedIn(FreshAccount(w, c.flow, c.now, c.faults.list))), None)
  }

  function AfterSignIn(w: World, c: Call): (World, Option<AuthError>)
    requires c.SignIn?
  {
    if !c.configured then (w, Some(NotConfigured))
    else if c.flow.FlowFailed? then (w, Some(FlowError))
    else if c.flow.NoToken? then (w, Some(TokenMissing))
    else SignInStages(w, c, StagesOf(w, c))
  }

  /** Everything a sign-in needs from the flow and the store has succeeded; only the keyring and the
      in-memory state are left. */
  predicate ReachesKeyring(w: World, c: Call) {
    && c.SignIn? && c.configured && c.flow.Granted? && c.flow.sub != "" && c.flow.refreshToken != ""
    && StagesOf(w, c).account.err.None? && StagesOf(w, c).ref.err.None?
  }

  // ---- Sign-out, refresh, restart ----

  function AfterSignOut(w: World, c: Call): (World, Option<AuthError>)
    requires c.SignOut?
  {
    if c.id == "" then (w, Some(IdMissing))
    else
      var keys := if c.keepsKey then w.keys else w.keys - {c.id};
      var dropped := RunStatement(w.db, DropAccount(c.id), c.dropFault);
      if dropped.err.Some? then (w.(keys := keys), Some(StoreError(dropped.err.value)))
      else (World(dropped.db, keys, SignedOut), None)
  }

  // The reference a refresh writes back, and the store's answer.
  function RefreshOutcome(w: World, c: Call): Outcome
    requires c.Refresh? && c.id in w.db.tokenRefs && c.newExpiry.Some?
  {
    var ref := TokenRefOfRow(c.id, w.db.tokenRefs[c.id]).(expiry := c.newExpiry.value, updatedAt := c.now);
    Exec(w.db, UpsertTokenRef(Some(ref)), c.now, c.putFault)
  }

  function AfterRefresh(w: World, c: Call): (World, Option<AuthError>)
    requires c.Refresh?
  {
    if c.id == "" then (w, Some(IdMissing))
    else if !c.configured then (w, Some(NotConfigured))
    else if c.getFault then (w, Some(StoreError(Driver)))
    else if c.id !in w.db.tokenRefs then (w, Some(RefMissing))
    else if c.getKeyFault || c.id !in w.keys then (w, Some(KeyringError))
    else if c.newExpiry.None? then (w, Some(FlowError))
    else (w.(db := RefreshOutcome(w, c).db), None)
  }

  // findActiveAccount: the accounts with a readable token reference, then the first primary one
  // among them, or else the first.
  function Candidates(db: Tables, accounts: seq<Account>, unreadable: set<string>): seq<Account> {
    if accounts == [] then []
    else
      var init := Candidates(db, accounts[..|accounts| - 1], unreadable);
      var last := accounts[|accounts| - 1];
      if last.id in db.tokenRefs && last.id !in unreadable then init + [last] else init
  }

  function FirstPrimary(candidates: seq<Account>): Option<Account> {
    if candidates == [] then None
    else if candidates[0].isPrimary then Some(candidates[0])
    else FirstPrimary(candidates[1..])
  }

  function Pick(candidates: seq<Account>): Option<Account> {
    if candidates == [] then None
    else if FirstPrimary(candidates).Some? then FirstPrimary(candidates)
    else Some(candidates[0])
  }

  function FindActive(db: Tables, listing: Result<seq<Account>, Error>, unreadable: set<string>): Option<Account> {
    if listing.Err? then None else Pick(Candidates(db, listing.value, unreadable))
  }

  // A new Service over the same store and keyring.
  function AfterRestart(w: World, c: Call): World
    requires c.Restart?
  {
    var active := FindActive(w.db, c.listing, c.unreadable);
    w.(state := if active.Some? then SignedIn(active.value) else SignedOut)
  }

  // What ListAccounts returns when it succeeds: the accounts by creation time, in any order among
  // those created in the same second.
  ghost predicate ListsAccounts(db: Tables, accounts: seq<Account>, cursor: seq<Keyed<AccountRow>>) {
    && Answers(AccountByCreation, AllAccounts(db), |AllAccounts(db)|, cursor)
    && |accounts| == |cursor|
    && forall k | 0 <= k < |cursor| :: accounts[k] == AccountOfRow(cursor[k].id, cursor[k].row)
  }

  function After(w: World, c: Call): World {
    match c
    case SignIn(_, _, _, _, _) => AfterSignIn(w, c).0
    case SignOut(_, _, _) => AfterSignOut(w, c).0
    case Refresh(_, _, _, _, _, _, _) => AfterRefresh(w, c).0
    case Restart(_, _) => AfterRestart(w, c)
  }

  // ---- Safety ----

  /** Every token reference has its secret in the keyring. */
  ghost predicate Covered(w: World) {
    forall id | id in w.db.tokenRefs :: id in w.keys
  }

  ghost predicate OnePrimary(accounts: map<string, AccountRow>) {
    forall a, b | a in accounts && b in accounts && accounts[a].isPrimary != 0 && accounts[b].isPrimary != 0 :: a == b
  }

  ghost predicate Backed(w: World) {
    w.state.SignedIn? ==> w.state.account.id in w.db.accounts
  }

  ghost predicate Safe(w: World) {
    Consistent(w.db) && OnePrimary(w.db.accounts) && Backed(w)
  }

  // What the statements on token references do.
  lemma PutRefKeeps(db: Tables, ref: TokenRef, now: Time, fault: bool)
    requires Consistent(db)
    ensures var after := Exec(db, UpsertTokenRef(Some(ref)), now, fault);
            && Consistent(after.db) && after.db.accounts == db.accounts
            && after.db.tokenRefs.Keys == if after.err.None? then db.tokenRefs.Keys + {ref.accountId}
               else db.tokenRefs.Keys
  {
    ExecExact(db, UpsertTokenRef(Some(ref)), now, fault);
  }

  lemma DropRefKeeps(db: Tables, id: string, now: Time, fault: bool)
    requires Consistent(db) && id != ""
    ensures var after := Exec(db, DeleteTokenRef(id), now, fault);
            && Consistent(after.db) && after.db.accounts == db.accounts
            && after.db.tokenRefs == if fault then db.tokenRefs else db.tokenRefs - {id}
  {
    ExecExact(db, DeleteTokenRef(id), now, fault);
  }

  lemma PutAccountKeeps(db: Tables, a: Account, now: Time, fault: bool)
    requires Consistent(db) && OnePrimary(db.accounts) && (a.isPrimary ==> db.accounts == map[])
    ensures var after := Exec(db, UpsertAccount(Some(a)), now, fault);
            && Consistent(after.db) && OnePrimary(after.db.accounts)
            && after.db.tokenRefs == db.tokenRefs
            && after.db.accounts.Keys == if after.err.None? then db.accounts.Keys + {a.id} else db.accounts.Keys
  {
    ExecExact(db, UpsertAccount(Some(a)), now, fault);
  }

  /** How the stages of a sign-in relate to the tables before it: their accounts... */
  ghost predicate SoundAccounts(w: World, c: Call, st: Stages)
    requires c.SignIn? && c.flow.Granted?
  {
    var one, two, three := st.account, st.ref, st.rollback;
    && Consistent(one.db) && Consistent(two.db) && Consistent(three.db) && OnePrimary(one.db.accounts)
    && two.db.accounts == one.db.accounts && three.db.accounts == one.db.accounts
    && one.db.accounts.Keys == if one.err.None? then w.db.accounts.Keys + {c.flow.sub} else w.db.accounts.Keys
  }

  // ...and their token references.
  ghost predicate SoundRefs(w: World, c: Call, st: Stages)
    requires c.SignIn? && c.flow.Granted?
  {
    var one, two, three := st.account, st.ref, st.rollback;
    && one.db.tokenRefs == w.db.tokenRefs
    && two.db.tokenRefs.Keys == (if two.err.None? then w.db.tokenRefs.Keys + {c.flow.sub} else w.db.tokenRefs.Keys)
    && three.db.tokenRefs == if c.faults.dropRef then two.db.tokenRefs else two.db.tokenRefs - {c.flow.sub}
  }

  lemma StagesSound(w: World, c: Call)
    requires Safe(w) && c.SignIn? && c.flow.Granted? && c.flow.sub != ""
    ensures SoundAccounts(w, c, StagesOf(w, c)) && SoundRefs(w, c, StagesOf(w, c))
  {
    var st := StagesOf(w, c);
    PutAccountKeeps(w.db, FreshAccount(w, c.flow, c.now, c.faults.list), c.now, c.faults.putAccount);
    PutRefKeeps(st.account.db, FreshRef(c.scopes, c.flow, c.now), c.now, c.faults.putRef);
    DropRefKeeps(st.ref.db, c.flow.sub, c.now, c.faults.dropRef);
  }

  lemma SignInSafe(w: World, c: Call)
    requires Safe(w) && c.SignIn?
    ensures Safe(AfterSignIn(w, c).0)
  {
    SignInCases(w, c);
    if AfterSignIn(w, c).0 != w {
      RealStagesSafe(w, c);
    }
  }

  lemma SignInCases(w: World, c: Call)
    requires c.SignIn?
    ensures AfterSignIn(w, c).0 == w ||
            (c.flow.Granted? && c.flow.sub != "" && AfterSignIn(w, c) == SignInStages(w, c, StagesOf(w, c)))
  {}

  lemma RealStagesSafe(w: World, c: Call)
    requires Safe(w) && c.SignIn? && c.flow.Granted? && c.flow.sub != ""
    ensures Safe(SignInStages(w, c, StagesOf(w, c)).0)
  {
    StagesSound(w, c);
    StagesSafe(w, c, StagesOf(w, c));
  }

  lemma StagesSafe(w: World, c: Call, st: Stages)
    requires Safe(w) && c.SignIn? && c.flow.Granted? && SoundAccounts(w, c, st)
    ensures Safe(SignInStages(w, c, st).0)
  {
    StagesTables(w, c, st);
    StagesBacked(w, c, st);
  }

  lemma StagesTables(w: World, c: Call, st: Stages)
    requires Safe(w) && c.SignIn? && c.flow.Granted? && SoundAccounts(w, c, st)
    ensures Consistent(SignInStages(w, c, st).0.db) && OnePrimary(SignInStages(w, c, st).0.db.accounts)
  {
    StagesStop(w, c, st);
  }

  lemma StagesStop(w: World, c: Call, st: Stages)
    requires c.SignIn? && c.flow.Granted?
    ensures SignInStages(w, c, st).0.db in [w.db, st.account.db, st.ref.db, st.rollback.db]
  {}

  lemma StagesBacked(w: World, c: Call, st: Stages)
    requires Backed(w) && c.SignIn? && c.flow.Granted? && SoundAccounts(w, c, st)
    ensures Backed(SignInStages(w, c, st).0)
  {
    var accounts := st.account.db.accounts;
    assert forall a | a in w.db.accounts :: a in accounts;
    assert st.account.err.None? ==> c.flow.sub in accounts;
  }

  lemma SignOutSafe(w: World, c: Call)
    requires Safe(w) && c.SignOut?
    ensures Safe(AfterSignOut(w, c).0)
  {
    DropAccountConsistent(w.db, c.id);
  }

  lemma RefreshSafe(w: World, c: Call)
    requires Safe(w) && c.Refresh?
    ensures Safe(AfterRefresh(w, c).0)
  {
    if c.id in w.db.tokenRefs && c.newExpiry.Some? {
      RefreshKeeps(w, c);
      SameAccountsSafe(w, RefreshOutcome(w, c).db);
    }
  }

  lemma RefreshCovers(w: World, c: Call)
    requires Consistent(w.db) && Covered(w) && c.Refresh?
    ensures Covered(AfterRefresh(w, c).0)
  {
    if c.id in w.db.tokenRefs && c.newExpiry.Some? {
      RefreshKeeps(w, c);
    }
  }

  lemma SameAccountsSafe(w: World, db: Tables)
    requires Safe(w) && Consistent(db) && db.accounts == w.db.accounts
    ensures Safe(w.(db := db))
  {}

  lemma RefreshKeeps(w: World, c: Call)
    requires Consistent(w.db) && c.Refresh? && c.id in w.db.tokenRefs && c.newExpiry.Some?
    ensures var after := RefreshOutcome(w, c).db;
            Consistent(after) && after.accounts == w.db.accounts && after.tokenRefs.Keys == w.db.tokenRefs.Keys
  {
    var ref := TokenRefOfRow(c.id, w.db.tokenRefs[c.id]).(expiry := c.newExpiry.value, updatedAt := c.now);
    PutRefKeeps(w.db, ref, c.now, c.putFault);
  }

  lemma {:induction false} CandidateListed(db: Tables, accounts: seq<Account>, unreadable: set<string>, a: Account)
    ensures a in Candidates(db, accounts, unreadable) <==>
            a in accounts && a.id in db.tokenRefs && a.id !in unreadable
  {
    if accounts == [] {
    } else {
      var n := |accounts| - 1;
      CandidateListed(db, accounts[..n], unreadable, a);
      assert accounts == accounts[..n] + [accounts[n]];
    }
  }

  lemma PickFrom(candidates: seq<Account>)
    ensures Pick(candidates).Some? <==> candidates != []
    ensures Pick(candidates).Some? ==> Pick(candidates).value in candidates
    ensures (exists a | a in candidates :: a.isPrimary) ==> Pick(candidates).value.isPrimary
    ensures candidates != [] && !(exists a | a in candidates :: a.isPrimary) ==> Pick(candidates) == Some(candidates[0])
  {
    FirstPrimaryFound(candidates);
  }

  lemma {:induction false} FirstPrimaryFound(candidates: seq<Account>)
    ensures FirstPrimary(candidates).Some? <==> exists a | a in candidates :: a.isPrimary
    ensures FirstPrimary(candidates).Some? ==>
              FirstPrimary(candidates).value in candidates && FirstPrimary(candidates).value.isPrimary
  {
    if candidates == [] {
    } else {
      FirstPrimaryFound(candidates[1..]);
      assert candidates == [candidates[0]] + candidates[1..];
    }
  }

  lemma RestartSafe(w: World, c: Call)
    requires Safe(w) && c.Restart?
    ensures Safe(AfterRestart(w, c))
  {
    if c.listing.Ok? {
      var candidates := Candidates(w.db, c.listing.value, c.unreadable);
      PickFrom(candidates);
      if Pick(candidates).Some? {
        CandidateListed(w.db, c.listing.value, c.unreadable, Pick(candidates).value);
      }
    }
  }

  /** Whatever fails, every call keeps the tables consistent, at most one account primary, and a
      signed-in state naming an account that exists. */
  lemma CallSafe(w: World, c: Call)
    requires Safe(w)
    ensures Safe(After(w, c))
  {
    match c
    case SignIn(_, _, _, _, _) => SignInSafe(w, c);
    case SignOut(_, _, _) => SignOutSafe(w, c);
    case Refresh(_, _, _, _, _, _, _) => RefreshSafe(w, c);
    case Restart(_, _) => RestartSafe(w, c);
  }

  /** The two ways to leave a token reference without a secret: the keyring refuses the secret and
      then the store refuses the rollback, with no older secret to fall back on; or the secret is
      deleted and then the store refuses to delete the account, whose reference stays. */
  predicate LosesSecret(w: World, c: Call) {
    || (ReachesKeyring(w, c) && c.faults.setKey && c.faults.dropRef && c.flow.sub !in w.keys)
    || (c.SignOut? && c.id != "" && !c.keepsKey && c.dropFault && c.id in w.db.tokenRefs)
  }

  lemma SignInCovers(w: World, c: Call)
    requires Safe(w) && Covered(w) && c.SignIn?
    ensures Covered(AfterSignIn(w, c).0) <==> !LosesSecret(w, c)
  {
    if c.configured && c.flow.Granted? && c.flow.sub != "" {
      StagesSound(w, c);
      StagesCover(w, c, StagesOf(w, c));
    }
  }

  lemma StagesCover(w: World, c: Call, st: Stages)
    requires Covered(w) && c.SignIn? && c.flow.Granted? && c.flow.sub != "" && SoundRefs(w, c, st)
    ensures Covered(SignInStages(w, c, st).0) <==>
            !(c.flow.refreshToken != "" && st.account.err.None? && st.ref.err.None?
              && c.faults.setKey && c.faults.dropRef && c.flow.sub !in w.keys)
  {
    var w' := SignInStages(w, c, st).0;
    assert forall id | id in w'.db.tokenRefs :: id in w.db.tokenRefs || id == c.flow.sub;
    assert st.ref.err.None? ==> c.flow.sub in st.ref.db.tokenRefs;
  }

  lemma SignOutCovers(w: World, c: Call)
    requires Safe(w) && Covered(w) && c.SignOut?
    ensures Covered(AfterSignOut(w, c).0) <==> !LosesSecret(w, c)
  {
    if LosesSecret(w, c) {
      assert c.id in AfterSignOut(w, c).0.db.tokenRefs && c.id !in AfterSignOut(w, c).0.keys;
    }
  }

  /** References stay covered by the keyring exactly unless a store write fails at the wrong moment.
      Failures of the OAuth flow and of the keyring alone do no harm. */
  lemma CallCovers(w: World, c: Call)
    requires Safe(w) && Covered(w)
    ensures Covered(After(w, c)) <==> !LosesSecret(w, c)
  {
    match c
    case SignIn(_, _, _, _, _) => SignInCovers(w, c);
    case SignOut(_, _, _) => SignOutCovers(w, c);
    case Refresh(_, _, _, _, _, _, _) => RefreshCovers(w, c);
    case Restart(_, _) =>
  }

  // A world with one account, which is primary and signed in.
  const ALICE: AccountRow := AccountRow("alice@example.com", "Alice", 1, 1, 1)

  function OneAccount(): World {
    var refs := map["alice" := TokenRefRow("alice", "refresh", "openid", 1, 1)];
    World(Tables(map["alice" := ALICE], refs, map[], map[], map[], map[], map[]), map["alice" := "secret"],
          SignedIn(AccountOfRow("alice", ALICE)))
  }

  function AliceSignsIn(faults: Faults): Call {
    Call.SignIn(true, [], Granted("alice", "alice@example.com", "Alice", "secret", 1), 1, faults)
  }

  lemma OneAccountSafe()
    ensures Safe(OneAccount()) && Covered(OneAccount())
  {}

  ghost predicate Uncovers(w: World, c: Call) {
    Safe(w) && Covered(w) && !Covered(After(w, c))
  }

  /** Both ways to lose a secret can be taken: at the sign-out of an account... */
  lemma SecretCanBeLost()
    ensures exists w, c: Call :: c.SignOut? && Uncovers(w, c)
  {
    OneAccountSafe();
    var c := Call.SignOut("alice", false, true);
    SignOutCovers(OneAccount(), c);
    assert Uncovers(OneAccount(), c);
  }

  /** ...and at the first sign-in on empty tables. */
  lemma SecretCanBeRefused()
    ensures exists w, c: Call :: c.SignIn? && Uncovers(w, c)
  {
    var w := World(Tables(map[], map[], map[], map[], map[], map[], map[]), map[], SignedOut);
    var c := AliceSignsIn(Faults(false, false, false, true, true));
    AliceReachesKeyring(w, c);
    assert Safe(w) && Covered(w);
    SignInCovers(w, c);
    assert Uncovers(w, c);
  }

  // With working store writes the sign-in reaches the keyring.
  lemma AliceReachesKeyring(w: World, c: Call)
    requires c.SignIn? && c == AliceSignsIn(c.faults) && !c.faults.putAccount && !c.faults.putRef
    requires w.db.accounts == map[] || w.db.accounts == map["alice" := ALICE]
    ensures ReachesKeyring(w, c)
  {
    var st := StagesOf(w, c);
    assert !EmailTaken(w.db, "alice", "alice@example.com");
    assert st.account.err.None?;
    assert "alice" in st.account.db.accounts;
  }

  predicate StoreWrites(c: Call) {
    match c
    case SignIn(_, _, _, _, faults) => !faults.putAccount && !faults.putRef && !faults.dropRef
    case SignOut(_, _, dropFault) => !dropFault
    case _ => true
  }

  function RunCalls(w: World, calls: seq<Call>): World
    decreases |calls|
  {
    if calls == [] then w else RunCalls(After(w, calls[0]), calls[1..])
  }

  /** Over any sequence of sign-ins, sign-outs, refreshes and restarts. */
  lemma {:induction false} RunSafe(w: World, calls: seq<Call>)
    requires Safe(w)
    ensures Safe(RunCalls(w, calls))
    ensures Covered(w) && (forall c | c in calls :: StoreWrites(c)) ==> Covered(RunCalls(w, calls))
    decreases |calls|
  {
    if calls == [] {
    } else {
      CallSafe(w, calls[0]);
      assert calls[0] in calls && forall c | c in calls[1..] :: c in calls;
      if Covered(w) {
        CallCovers(w, calls[0]);
      }
      RunSafe(After(w, calls[0]), calls[1..]);
    }
  }

  // ---- What the calls achieve ----

  /** A successful sign-in leaves the account and its reference in the store and the secret in the
      keyring; an unsuccessful one touches neither the keyring nor the in-memory state. */
  lemma SignInOutcome(w: World, c: Call)
    requires Safe(w) && c.SignIn?
    ensures var (after, err) := AfterSignIn(w, c);
            if err.Some? then after.keys == w.keys && after.state == w.state
            else
              && c.flow.Granted? && ReachesKeyring(w, c) && !c.faults.setKey
              && after.state.SignedIn? && after.state.account.id == c.flow.sub
              && c.flow.sub in after.db.accounts && c.flow.sub in after.db.tokenRefs
              && after.keys == w.keys[c.flow.sub := c.flow.refreshToken]
  {
    if c.configured && c.flow.Granted? && c.flow.sub != "" {
      StagesSound(w, c);
      StagesOutcome(w, c, StagesOf(w, c));
    }
  }

  lemma StagesOutcome(w: World, c: Call, st: Stages)
    requires c.SignIn? && c.flow.Granted? && SoundAccounts(w, c, st) && SoundRefs(w, c, st)
    ensures var (after, err) := SignInStages(w, c, st);
            if err.Some? then after.keys == w.keys && after.state == w.state
            else
              && c.flow.sub != "" && c.flow.refreshToken != ""
              && st.account.err.None? && st.ref.err.None? && !c.faults.setKey
              && after.state.SignedIn? && after.state.account.id == c.flow.sub
              && c.flow.sub in after.db.accounts && c.flow.sub in after.db.tokenRefs
              && after.keys == w.keys[c.flow.sub := c.flow.refreshToken]
  {}

  // The account can be written: the store works, and the email is given and not another account's.
  predicate AccountSaved(w: World, c: Call)
    requires c.SignIn? && c.flow.Granted?
  {
    && c.flow.sub != "" && c.flow.email != "" && !c.faults.putAccount
    && forall a | a in w.db.accounts && a != c.flow.sub :: w.db.accounts[a].email != c.flow.email
  }

  /** When a sign-in succeeds, and what it reports when it does not. */
  lemma SignInResult(w: World, c: Call)
    requires Safe(w) && c.SignIn?
    ensures AfterSignIn(w, c).1 ==
            if !c.configured then Some(NotConfigured)
            else if c.flow.FlowFailed? then Some(FlowError)
            else if c.flow.NoToken? then Some(TokenMissing)
            else if c.flow.sub == "" then Some(SubMissing)
            else if c.flow.email == "" then Some(StoreError(Empty("email")))
            else if c.faults.putAccount then Some(StoreError(Driver))
            else if !AccountSaved(w, c) then Some(StoreError(UniqueViolation))
            else if c.flow.refreshToken == "" then Some(RefreshMissing)
            else if c.faults.putRef then Some(StoreError(Driver))
            else if c.faults.setKey then Some(KeyringError)
            else None
  {
    if c.configured && c.flow.Granted? && c.flow.sub != "" {
      FirstStage(w, c);
      if AccountSaved(w, c) {
        SecondStage(w, c);
      }
    }
  }

  lemma FirstStage(w: World, c: Call)
    requires c.SignIn? && c.flow.Granted? && c.flow.sub != ""
    ensures StagesOf(w, c).account.err ==
            if c.flow.email == "" then Some(Empty("email"))
            else if c.faults.putAccount then Some(Driver)
            else if !AccountSaved(w, c) then Some(UniqueViolation)
            else None
  {}

  lemma SecondStage(w: World, c: Call)
    requires c.SignIn? && c.flow.Granted? && AccountSaved(w, c)
    ensures StagesOf(w, c).ref.err == if c.faults.putRef then Some(Driver) else None
  {
    FirstStage(w, c);
    AccountWritten(w.db, FreshAccount(w, c.flow, c.now, c.faults.list), c.now, c.faults.putAccount);
  }

  lemma AccountWritten(db: Tables, a: Account, now: Time, fault: bool)
    requires Exec(db, UpsertAccount(Some(a)), now, fault).err.None?
    ensures var after := Exec(db, UpsertAccount(Some(a)), now, fault).db;
            var created, updated := UnixTime(OrNow(a.createdAt, now)), UnixTime(OrNow(a.updatedAt, now));
            var kept := if a.id in db.accounts then db.accounts[a.id].createdAt else created;
            var row := AccountRow(a.email, a.displayName, if a.isPrimary then 1 else 0, kept, updated);
            after == db.(accounts := db.accounts[a.id := row])
  {}

  // The account as the first write leaves it.
  lemma SavedAccount(w: World, c: Call)
    requires c.SignIn? && c.flow.Granted? && AccountSaved(w, c)
    ensures var before, id := w.db.accounts, c.flow.sub;
            var primary := if before == map[] && !c.faults.list then 1 else 0;
            var created := if id in before then before[id].createdAt else UnixTime(c.now);
            var row := AccountRow(c.flow.email, c.flow.name, primary, created, UnixTime(c.now));
            StagesOf(w, c).account == Outcome(w.db.(accounts := before[id := row]), None)
  {
    FirstStage(w, c);
    AccountWritten(w.db, FreshAccount(w, c.flow, c.now, c.faults.list), c.now, c.faults.putAccount);
    assert |w.db.accounts| == 0 <==> w.db.accounts == map[];
  }

  lemma StagesAccounts(w: World, c: Call)
    requires Safe(w) && c.SignIn? && c.configured && c.flow.Granted?
    ensures AfterSignIn(w, c).0.db.accounts ==
            if AccountSaved(w, c) then StagesOf(w, c).account.db.accounts else w.db.accounts
  {
    if c.flow.sub != "" {
      FirstStage(w, c);
      StagesSound(w, c);
      AccountsAtStop(w, c, StagesOf(w, c));
    }
  }

  lemma AccountsAtStop(w: World, c: Call, st: Stages)
    requires c.SignIn? && c.flow.Granted? && c.flow.sub != ""
    requires st.ref.db.accounts == st.account.db.accounts && st.rollback.db.accounts == st.account.db.accounts
    ensures SignInStages(w, c, st).0.db.accounts ==
            if st.account.err.None? then st.account.db.accounts else w.db.accounts
  {}

  /** The account is stored with the email and name that the flow returned, even if a later step
      fails; no other account changes. It is primary exactly if there was no account. */
  lemma SignInAccounts(w: World, c: Call)
    requires Safe(w) && c.SignIn? && c.configured && c.flow.Granted?
    ensures var before, after, id := w.db.accounts, AfterSignIn(w, c).0.db.accounts, c.flow.sub;
            if !AccountSaved(w, c) then after == before
            else
              && id in after && after == before[id := after[id]]
              && after[id].email == c.flow.email && after[id].displayName == c.flow.name
              && (after[id].isPrimary != 0 <==> before == map[] && !c.faults.list)
              && after[id].updatedAt == UnixTime(c.now)
              && after[id].createdAt == if id in before then before[id].createdAt else UnixTime(c.now)
  {
    StagesAccounts(w, c);
    if AccountSaved(w, c) {
      SavedAccount(w, c);
    }
  }

  // The reference is written.
  predicate RefSaved(w: World, c: Call)
    requires c.SignIn? && c.flow.Granted?
  {
    AccountSaved(w, c) && c.flow.refreshToken != "" && !c.faults.putRef
  }

  /** The account's reference is written if nothing fails before it, and taken back if the keyring
      refuses the secret, unless the store fails again. No other table changes. */
  lemma SignInTables(w: World, c: Call)
    requires Safe(w) && c.SignIn? && c.configured && c.flow.Granted?
    ensures var db, refs, id := AfterSignIn(w, c).0.db, w.db.tokenRefs, c.flow.sub;
            && db == w.db.(accounts := db.accounts, tokenRefs := db.tokenRefs)
            && if !RefSaved(w, c) then db.tokenRefs == refs
               else if c.faults.setKey && !c.faults.dropRef then db.tokenRefs == refs - {id}
               else id in db.tokenRefs && db.tokenRefs == refs[id := db.tokenRefs[id]]
  {
    if AccountSaved(w, c) {
      SavedAccount(w, c);
      SecondStage(w, c);
      RefStages(w, c);
    } else if c.flow.sub != "" {
      FirstStage(w, c);
    }
  }

  lemma RefStages(w: World, c: Call)
    requires c.SignIn? && c.flow.Granted? && AccountSaved(w, c)
    ensures var one, two, three := StagesOf(w, c).account.db, StagesOf(w, c).ref, StagesOf(w, c).rollback.db;
            && (two.err.Some? ==> two.db == one)
            && (two.err.None? ==>
                  c.flow.sub in two.db.tokenRefs
                  && two.db == one.(tokenRefs := one.tokenRefs[c.flow.sub := two.db.tokenRefs[c.flow.sub]])
                  && three == if c.faults.dropRef then two.db else one.(tokenRefs := one.tokenRefs - {c.flow.sub}))
  {
    var st := StagesOf(w, c);
    if st.ref.err.None? {
      RefWritten(st.account.db, FreshRef(c.scopes, c.flow, c.now), c.now, c.faults.putRef);
      RefDropped(st.ref.db, c.flow.sub, c.now, c.faults.dropRef);
      var row := st.ref.db.tokenRefs[c.flow.sub];
      assert st.account.db.tokenRefs[c.flow.sub := row] - {c.flow.sub} == st.account.db.tokenRefs - {c.flow.sub};
    }
  }

  lemma RefDropped(db: Tables, id: string, now: Time, fault: bool)
    requires id != ""
    ensures Exec(db, DeleteTokenRef(id), now, fault).db ==
            if fault then db else db.(tokenRefs := db.tokenRefs - {id})
  {}

  /** In memory the service then holds the account of the flow. */
  lemma SignInState(w: World, c: Call)
    requires Safe(w) && c.SignIn? && AfterSignIn(w, c).1.None?
    ensures var id, first := c.flow.sub, w.db.accounts == map[] && !c.faults.list;
            AfterSignIn(w, c).0.state == SignedIn(Account(id, c.flow.email, c.flow.name, first, c.now, c.now))
  {
    SignInOutcome(w, c);
    assert |w.db.accounts| == 0 <==> w.db.accounts == map[];
  }

  lemma SignInSucceeds(w: World, c: Call)
    requires c.SignIn? && AfterSignIn(w, c).1.None?
    ensures c.flow.Granted? && c.flow.sub != ""
    ensures StagesOf(w, c).account.err.None? && StagesOf(w, c).ref.err.None?
    ensures AfterSignIn(w, c).0.db == StagesOf(w, c).ref.db
  {}

  /** The account of a successful sign-in is primary exactly if no account existed before (and the
      store could say so). In particular an account that signs in again stops being primary. */
  lemma SignInPrimary(w: World, c: Call)
    requires Safe(w) && c.SignIn? && AfterSignIn(w, c).1.None?
    ensures var after := AfterSignIn(w, c).0;
            && c.flow.sub in after.db.accounts
            && (after.db.accounts[c.flow.sub].isPrimary != 0 <==> w.db.accounts == map[] && !c.faults.list)
  {
    SignInResult(w, c);
    SignInAccounts(w, c);
  }

  /** The second case occurs: a primary account signs in again without any failure, and is primary
      no more. */
  lemma PrimaryCanBeLost()
    ensures exists w, c: Call ::
              && Safe(w) && c.SignIn? && c.flow.Granted? && AfterSignIn(w, c).1.None?
              && c.flow.sub in w.db.accounts && w.db.accounts[c.flow.sub].isPrimary != 0
              && c.flow.sub in After(w, c).db.accounts && After(w, c).db.accounts[c.flow.sub].isPrimary == 0
  {
    OneAccountSafe();
    var w, c := OneAccount(), AliceSignsIn(Faults(false, false, false, false, false));
    AliceReachesKeyring(w, c);
    assert AfterSignIn(w, c).1.None?;
    SignInPrimary(w, c);
    assert w.db.accounts != map[];
  }

  /** The stored reference names the account's own key and carries the requested scopes in canonical
      form. */
  lemma SignInReference(w: World, c: Call)
    requires Safe(w) && c.SignIn? && AfterSignIn(w, c).1.None?
    ensures var after := AfterSignIn(w, c).0;
            && c.flow.sub in after.db.tokenRefs
            && TokenRefOfRow(c.flow.sub, after.db.tokenRefs[c.flow.sub]) ==
               TokenRef(c.flow.sub, c.flow.sub, "refresh", Scopes.Canonical(Requested(c)),
                        Stored(c.flow.expiry), Stored(c.now))
  {
    SignInSucceeds(w, c);
    RefWritten(StagesOf(w, c).account.db, FreshRef(c.scopes, c.flow, c.now), c.now, c.faults.putRef);
  }

  // The given scopes, or the default ones.
  function Requested(c: Call): seq<string>
    requires c.SignIn?
  {
    if |c.scopes| > 0 then c.scopes else ["openid", "email", "profile", "https://www.googleapis.com/auth/drive"]
  }

  lemma RefWritten(db: Tables, ref: TokenRef, now: Time, fault: bool)
    requires Exec(db, UpsertTokenRef(Some(ref)), now, fault).err.None?
    ensures var after := Exec(db, UpsertTokenRef(Some(ref)), now, fault).db;
            && after == db.(tokenRefs := after.tokenRefs)
            && after.tokenRefs == db.tokenRefs[ref.accountId := after.tokenRefs[ref.accountId]]
            && TokenRefOfRow(ref.accountId, after.tokenRefs[ref.accountId]) ==
               ref.(expiry := Stored(ref.expiry), updatedAt := Stored(OrNow(ref.updatedAt, now)))
  {
    EncodeDecode(ref.expiry);
    EncodeDecode(OrNow(ref.updatedAt, now));
  }

  /** A refresh never touches the keyring or the in-memory state. It changes the tables only if it
      succeeds, and then nothing but the expiry and the update time of one reference. It succeeds,
      with the tables as they were, even if the store refuses to write these. */
  lemma RefreshChanges(w: World, c: Call)
    requires c.Refresh?
    ensures var (after, err) := AfterRefresh(w, c);
            && after.keys == w.keys && after.state == w.state && (err.Some? ==> after == w)
            && err == (if c.id == "" then Some(IdMissing)
                       else if !c.configured then Some(NotConfigured)
                       else if c.getFault then Some(StoreError(Driver))
                       else if c.id !in w.db.tokenRefs then Some(RefMissing)
                       else if c.getKeyFault || c.id !in w.keys then Some(KeyringError)
                       else if c.newExpiry.None? then Some(FlowError)
                       else None)
            && (err.None? ==> after.db == w.db.(tokenRefs := w.db.tokenRefs[c.id := RefreshedRow(w, c)]))
  {
    if AfterRefresh(w, c).1.None? {
      assert w.db.tokenRefs == w.db.tokenRefs[c.id := w.db.tokenRefs[c.id]];
      RefreshWrites(w, c);
    }
  }

  function RefreshedRow(w: World, c: Call): TokenRefRow
    requires c.Refresh? && c.id in w.db.tokenRefs && c.newExpiry.Some?
  {
    var row := w.db.tokenRefs[c.id];
    if c.putFault || row.keyId == "" then row
    else row.(expiry := UnixTime(c.newExpiry.value), updatedAt := UnixTime(c.now))
  }

  lemma RefreshWrites(w: World, c: Call)
    requires c.Refresh? && c.id != "" && c.id in w.db.tokenRefs && c.newExpiry.Some?
    ensures RefreshOutcome(w, c).db ==
            if c.putFault || w.db.tokenRefs[c.id].keyId == "" then w.db
            else w.db.(tokenRefs := w.db.tokenRefs[c.id := RefreshedRow(w, c)])
  {}

  /** A sign-out deletes the secret first, unless the keyring refuses, and no other secret. If then
      the store works, the account goes with everything that depends on it and the service is
      signed out, even if another account was the one signed in; otherwise tables and state stay. */
  lemma SignOutOutcome(w: World, c: Call)
    requires c.SignOut?
    ensures var (after, err) := AfterSignOut(w, c);
            if c.id == "" then after == w && err == Some(IdMissing) else
            && (c.id in after.keys <==> c.keepsKey && c.id in w.keys)
            && (forall k | k != c.id :: k in after.keys <==> k in w.keys)
            && (forall k | k in after.keys :: after.keys[k] == w.keys[k])
            && if c.dropFault then err == Some(StoreError(Driver)) && after.db == w.db && after.state == w.state
               else err.None? && after.state == SignedOut && after.db == WithoutAccount(w.db, c.id)
                    && c.id !in after.db.accounts && c.id !in after.db.tokenRefs
  {}

  // ---- Restart ----

  ghost predicate Holder(db: Tables, id: string) {
    id in db.accounts && id in db.tokenRefs
  }

  lemma ListedAccount(db: Tables, accounts: seq<Account>, cursor: seq<Keyed<AccountRow>>, a: Account)
    requires ListsAccounts(db, accounts, cursor) && a in accounts
    ensures a.id in db.accounts && a == AccountOfRow(a.id, db.accounts[a.id])
  {
    var k :| 0 <= k < |accounts| && accounts[k] == a;
    assert cursor[k] in AllAccounts(db);
  }

  lemma AccountListed(db: Tables, accounts: seq<Account>, cursor: seq<Keyed<AccountRow>>, id: string)
    requires ListsAccounts(db, accounts, cursor) && id in db.accounts
    ensures AccountOfRow(id, db.accounts[id]) in accounts
  {
    var row := Keyed(id, db.accounts[id]);
    assert row in AllAccounts(db);
    CompleteListing(db, cursor, row);
    var k :| 0 <= k < |cursor| && cursor[k] == row;
    assert accounts[k] == AccountOfRow(id, db.accounts[id]);
  }

  // A listing without limit misses nothing.
  lemma CompleteListing(db: Tables, cursor: seq<Keyed<AccountRow>>, row: Keyed<AccountRow>)
    requires Answers(AccountByCreation, AllAccounts(db), |AllAccounts(db)|, cursor) && row in AllAccounts(db)
    ensures row in cursor
  {
    if row !in cursor {
      SizeOfList(cursor);
      assert forall r | r in Text.Elements(cursor) :: r in AllAccounts(db) - {row};
      SubsetSize(Text.Elements(cursor), AllAccounts(db) - {row});
    }
  }

  /** The order of the listing is kept: candidates come by creation time. */
  lemma {:induction false} CandidatesOrdered(db: Tables, accounts: seq<Account>, cursor: seq<Keyed<AccountRow>>, n: nat)
    requires ListsAccounts(db, accounts, cursor) && n <= |accounts|
    ensures var cs := Candidates(db, accounts[..n], {});
            && (forall a | a in cs :: a in accounts[..n])
            && forall i, j | 0 <= i < j < |cs| ::
                 cs[i].id in db.accounts && cs[j].id in db.accounts
                 && db.accounts[cs[i].id].createdAt <= db.accounts[cs[j].id].createdAt
  {
    if n == 0 {
    } else {
      var last := accounts[n - 1];
      assert accounts[..n][..n - 1] == accounts[..n - 1];
      CandidatesOrdered(db, accounts, cursor, n - 1);
      var cs := Candidates(db, accounts[..n - 1], {});
      ListedAccount(db, accounts, cursor, last);
      forall i | 0 <= i < |cs|
        ensures cs[i].id in db.accounts && db.accounts[cs[i].id].createdAt <= db.accounts[last.id].createdAt
      {
        EarlierListed(db, accounts, cursor, n - 1, cs[i]);
      }
    }
  }

  lemma EarlierListed(db: Tables, accounts: seq<Account>, cursor: seq<Keyed<AccountRow>>, n: nat, a: Account)
    requires ListsAccounts(db, accounts, cursor) && n < |accounts| && a in accounts[..n]
    ensures a.id in db.accounts && accounts[n].id in db.accounts
            && db.accounts[a.id].createdAt <= db.accounts[accounts[n].id].createdAt
  {
    var k :| 0 <= k < n && accounts[..n][k] == a;
    assert cursor[k] in AllAccounts(db) && cursor[n] in AllAccounts(db);
    assert AccountByCreation(cursor[k], cursor[n]);
  }

  /** A service started without store errors is signed in exactly if some token reference exists. It
      then names a primary account that holds one, if there is such an account, and otherwise one of
      the earliest created among those that hold one. */
  lemma RestartAgreement(db: Tables, accounts: seq<Account>, cursor: seq<Keyed<AccountRow>>)
    requires Consistent(db) && ListsAccounts(db, accounts, cursor)
    ensures var active := FindActive(db, Ok(accounts), {});
            && (active.Some? <==> db.tokenRefs != map[])
            && (active.Some? ==>
                  var id := active.value.id;
                  && Holder(db, id) && active.value == AccountOfRow(id, db.accounts[id])
                  && if exists p | Holder(db, p) :: db.accounts[p].isPrimary != 0
                     then db.accounts[id].isPrimary != 0
                     else forall h | Holder(db, h) :: db.accounts[id].createdAt <= db.accounts[h].createdAt)
  {
    var cs := Candidates(db, accounts, {});
    PickFrom(cs);
    forall a ensures a in cs <==> a in accounts && a.id in db.tokenRefs {
      CandidateListed(db, accounts, {}, a);
    }
    forall h | Holder(db, h) ensures AccountOfRow(h, db.accounts[h]) in cs {
      AccountListed(db, accounts, cursor, h);
    }
    if db.tokenRefs != map[] {
      var h :| h in db.tokenRefs;
      assert Holder(db, h);
      PickedIsRight(db, accounts, cursor, cs);
    }
  }

  lemma PickedIsRight(db: Tables, accounts: seq<Account>, cursor: seq<Keyed<AccountRow>>, cs: seq<Account>)
    requires ListsAccounts(db, accounts, cursor) && cs == Candidates(db, accounts, {}) && cs != []
    requires forall a :: a in cs <==> a in accounts && a.id in db.tokenRefs
    requires forall h | Holder(db, h) :: AccountOfRow(h, db.accounts[h]) in cs
    ensures var a := Pick(cs).value;
            && Holder(db, a.id) && a == AccountOfRow(a.id, db.accounts[a.id])
            && if exists p | Holder(db, p) :: db.accounts[p].isPrimary != 0
               then db.accounts[a.id].isPrimary != 0
               else forall h | Holder(db, h) :: db.accounts[a.id].createdAt <= db.accounts[h].createdAt
  {
    PickFrom(cs);
    var a := Pick(cs).value;
    ListedAccount(db, accounts, cursor, a);
    if exists p | Holder(db, p) :: db.accounts[p].isPrimary != 0 {
      var p :| Holder(db, p) && db.accounts[p].isPrimary != 0;
      assert AccountOfRow(p, db.accounts[p]).isPrimary;
    } else {
      forall c | c in cs ensures !c.isPrimary {
        ListedAccount(db, accounts, cursor, c);
        assert Holder(db, c.id);
      }
      assert accounts[..|accounts|] == accounts;
      CandidatesOrdered(db, accounts, cursor, |accounts|);
      forall h | Holder(db, h) ensures db.accounts[a.id].createdAt <= db.accounts[h].createdAt {
        var k :| 0 <= k < |cs| && cs[k] == AccountOfRow(h, db.accounts[h]);
        assert k > 0 ==> db.accounts[cs[0].id].createdAt <= db.accounts[cs[k].id].createdAt;
      }
    }
  }

  /** The in-memory state is not always what a restart would find. After a sign-out the two agree
      exactly if no other account has a token reference. */
  lemma RestartAfterSignOut(w: World, c: Call, accounts: seq<Account>, cursor: seq<Keyed<AccountRow>>)
    requires Safe(w) && c.SignOut? && c.id != "" && !c.dropFault
    requires ListsAccounts(After(w, c).db, accounts, cursor)
    ensures AfterRestart(After(w, c), Restart(Ok(accounts), {})).state == After(w, c).state <==>
            forall id | id in w.db.tokenRefs :: id == c.id
  {
    SignOutSafe(w, c);
    var db := After(w, c).db;
    RestartAgreement(db, accounts, cursor);
    assert forall id :: id in db.tokenRefs <==> id in w.db.tokenRefs && id != c.id;
  }

  /** For instance, signing out some other account ends the session that a restart brings back. */
  lemma RestartDisagrees()
    ensures exists w, c: Call, accounts, cursor ::
              && Safe(w) && c.SignOut? && After(w, c).db == w.db && ListsAccounts(w.db, accounts, cursor)
              && AfterRestart(w, Restart(Ok(accounts), {})).state == w.state
              && AfterRestart(After(w, c), Restart(Ok(accounts), {})).state != After(w, c).state
  {
    OneAccountSafe();
    var w, c := OneAccount(), Call.SignOut("bob", false, false);
    var accounts, cursor := [AccountOfRow("alice", ALICE)], [Keyed("alice", ALICE)];
    AliceListed(accounts, cursor);
    OnlyCandidate(w.db, accounts[0]);
    BobUnknown(w, c);
  }

  lemma AliceListed(accounts: seq<Account>, cursor: seq<Keyed<AccountRow>>)
    requires accounts == [AccountOfRow("alice", ALICE)] && cursor == [Keyed("alice", ALICE)]
    ensures ListsAccounts(OneAccount().db, accounts, cursor)
  {
    var db := OneAccount().db;
    assert "alice" in db.accounts && db.accounts["alice"] == ALICE;
    assert AllAccounts(db) == {cursor[0]};
  }

  lemma OnlyCandidate(db: Tables, a: Account)
    requires a.id in db.tokenRefs
    ensures FindActive(db, Ok([a]), {}) == Some(a)
  {
    assert [a][..0] == [];
    assert Candidates(db, [], {}) == [];
    assert Candidates(db, [a], {}) == [a];
    PickFrom([a]);
  }

  lemma BobUnknown(w: World, c: Call)
    requires w == OneAccount() && c == Call.SignOut("bob", false, false)
    ensures After(w, c) == World(w.db, w.keys, SignedOut)
  {
    assert WithoutAccount(w.db, "bob") == w.db;
    assert w.keys - {"bob"} == w.keys;
  }

  // ---- A new database ----

  /** The account that migration 2 creates is there, and no other one is primary. */
  ghost predicate DefaultPrimary(db: Tables) {
    && Migrations.DEFAULT_ACCOUNT in db.accounts
    && forall a | a in db.accounts && db.accounts[a].isPrimary != 0 :: a == Migrations.DEFAULT_ACCOUNT
  }

  // Every call but a sign-out that deletes that account.
  predicate KeepsDefault(c: Call) { !(c.SignOut? && c.id == Migrations.DEFAULT_ACCOUNT && !c.dropFault) }

  lemma PutAccountDefault(db: Tables, a: Account, now: Time, fault: bool)
    requires DefaultPrimary(db) && !a.isPrimary
    ensures DefaultPrimary(Exec(db, UpsertAccount(Some(a)), now, fault).db)
  {}

  lemma SignInDefault(w: World, c: Call)
    requires Safe(w) && DefaultPrimary(w.db) && c.SignIn?
    ensures DefaultPrimary(AfterSignIn(w, c).0.db)
  {
    SignInCases(w, c);
    if AfterSignIn(w, c).0 != w {
      StagesSound(w, c);
      PutAccountDefault(w.db, FreshAccount(w, c.flow, c.now, c.faults.list), c.now, c.faults.putAccount);
    }
  }

  lemma CallDefault(w: World, c: Call)
    requires Safe(w) && DefaultPrimary(w.db)
    ensures DefaultPrimary(After(w, c).db) <==> KeepsDefault(c)
  {
    match c
    case SignIn(_, _, _, _, _) => SignInDefault(w, c);
    case SignOut(_, _, _) =>
    case Refresh(_, _, _, _, _, _, _) => RefreshChanges(w, c);
    case Restart(_, _) =>
  }

  lemma {:induction false} RunDefault(w: World, calls: seq<Call>)
    requires Safe(w) && DefaultPrimary(w.db) && forall c | c in calls :: KeepsDefault(c)
    ensures DefaultPrimary(RunCalls(w, calls).db)
    decreases |calls|
  {
    if calls == [] {
    } else {
      CallSafe(w, calls[0]);
      assert calls[0] in calls && forall c | c in calls[1..] :: c in calls;
      CallDefault(w, calls[0]);
      RunDefault(After(w, calls[0]), calls[1..]);
    }
  }

  /** A new database has a primary account of its own, so in any run, until that one is deleted, no
      account that signs in is primary. */
  lemma FreshDatabase(files: map<string, Migrations.OldFile>, created: int, keys: map<string, string>, calls: seq<Call>)
    requires Migrations.PathsUnique(files)
    ensures var w := World(Migrations.Upgraded(files, created), keys, SignedOut);
            && Safe(w) && Covered(w)
            && ((forall c | c in calls :: KeepsDefault(c)) ==> DefaultPrimary(RunCalls(w, calls).db))
  {
    Migrations.UpgradedConsistent(files, created);
    var w := World(Migrations.Upgraded(files, created), keys, SignedOut);
    assert Safe(w) && DefaultPrimary(w.db);
    if forall c | c in calls :: KeepsDefault(c) {
      RunDefault(w, calls);
    }
  }
}
