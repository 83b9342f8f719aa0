/** The identity state machine of `useAuth`: minting and reusing a local guest profile,
    loading, creating or upgrading the profile of a signed-in user, and signing out. The two
    browser storage keys are an explicit `GuestStorage` value; every remote answer, the fresh
    guest id and the clock are parameters. */
module Auth {
  import opened Common

  datatype Profile = Profile(id: string, email: Option<string>, fullName: Option<string>,
                             avatarUrl: Option<string>, isGuest: bool, guestUpgradedAt: Option<string>)

  /** A signed-in user; the optional metadata fields come from the identity provider. */
  datatype User = User(id: string, email: Option<string>, isAnonymous: bool,
                       metaFullName: Option<string>, metaName: Option<string>, metaAvatarUrl: Option<string>)

  datatype Session = Session(token: string, user: User)

  datatype AuthState = AuthState(user: Option<User>, profile: Option<Profile>, session: Option<Session>,
                                 loading: bool, isGuest: bool)

  const Initial := AuthState(None, None, None, true, false)

  /** The stored guest profile: absent (or empty), a parsable profile, or text that does not parse. */
  datatype StoredProfile = NoStoredProfile | StoredAs(profile: Profile) | Unparseable

  /** The two storage keys: the serialised guest profile and the guest id. */
  datatype GuestStorage = GuestStorage(profile: StoredProfile, guestId: Option<string>)

  /** The remote writes the hook issues. */
  datatype Call =
    | TransferGuestData(guestId: string, newUserId: string)
    | UpsertProfile(profile: Profile)
    | MarkUpgraded(userId: string, at: string)

  /** The answer to the profile query: the row, if any, and the error code, if any. */
  datatype ProfileFetch = ProfileFetch(data: Option<Profile>, errorCode: Option<string>)

  /** Everything the environment decides during one transition. `storageAccepts` is how many
      `setItem` calls browser storage takes before one throws (a full quota, say). */
  datatype Outcomes = Outcomes(fetch: ProfileFetch, transferFails: bool, upsertFails: bool,
                               now: string, freshGuestId: string, storageAccepts: nat)

  datatype AuthRun = AuthRun(state: AuthState, storage: GuestStorage, calls: seq<Call>)

  /** `x || null` for an optional string. */
  function OrNull(o: Option<string>): (r: Option<string>)
    ensures r.Some? <==> Truthy(o)
    ensures r.Some? ==> r == o
  {
    if Truthy(o) then o else None
  }

  /** The number of guest-data transfers among some calls. */
  function Transfers(calls: seq<Call>): nat
    decreases |calls|
  {
    if |calls| == 0 then 0
    else (if calls[0].TransferGuestData? then 1 else 0) + Transfers(calls[1..])
  }

  lemma {:induction false} TransfersAppend(a: seq<Call>, b: seq<Call>)
    ensures Transfers(a + b) == Transfers(a) + Transfers(b)
    decreases |a|
  {
    if |a| > 0 {
      assert (a + b)[1..] == a[1..] + b;
      TransfersAppend(a[1..], b);
    } else {
      assert a + b == b;
    }
  }

  /** `initializeGuestSession`: mint a guest profile with a fresh id, store it under both keys
      and make it the current profile, keeping the rest of the state. When storage throws on
      either write, only `loading` is cleared in the state, and a first write that went through
      stays in storage. */
  function InitializeGuestSession(prev: AuthState, storage: GuestStorage, o: Outcomes): (r: AuthRun)
    ensures r.calls == [] && !r.state.loading
    ensures r.state.user == prev.user && r.state.session == prev.session
    ensures o.storageAccepts >= 2 ==>
      && r.state.isGuest && r.state.profile.Some?
      && var p := r.state.profile.value;
      && p.id == o.freshGuestId && p.isGuest
      && p.email.None? && p.fullName.None? && p.avatarUrl.None? && p.guestUpgradedAt.None?
      && r.storage == GuestStorage(StoredAs(p), Some(o.freshGuestId))
    ensures o.storageAccepts < 2 ==> r.state == prev.(loading := false)
    ensures o.storageAccepts == 0 ==> r.storage == storage
    ensures o.storageAccepts == 1 ==>
      && r.storage.guestId == storage.guestId && r.storage.profile.StoredAs?
      && var p := r.storage.profile.profile;
      && p.id == o.freshGuestId && p.isGuest
  {
    var guest := Profile(o.freshGuestId, None, None, None, true, None);
    if o.storageAccepts >= 2 then
      AuthRun(prev.(profile := Some(guest), isGuest := true, loading := false),
              GuestStorage(StoredAs(guest), Some(o.freshGuestId)), [])
    else if o.storageAccepts == 1 then
      AuthRun(prev.(loading := false), storage.(profile := StoredAs(guest)), [])
    else AuthRun(prev.(loading := false), storage, [])
  }

  /** `loadUserProfile`: the stored profile; "no rows" (`PGRST116`) is not an error, any other
      error is logged and reads as no profile. */
  function LoadUserProfile(fetch: ProfileFetch): (p: Option<Profile>)
    ensures fetch.errorCode.Some? && fetch.errorCode.value != "PGRST116" ==> p.None?
    ensures p.Some? ==> p == fetch.data
    ensures (fetch.errorCode.None? || fetch.errorCode == Some("PGRST116")) ==> p == fetch.data
  {
    if fetch.errorCode.Some? && fetch.errorCode.value != "PGRST116" then None else fetch.data
  }

  /** The profile `createUserProfile` writes for a user: falsy provider fields become null,
      the full name falls back to the plain name. */
  function ProfileFor(user: User): (p: Profile)
    ensures p.id == user.id && !p.isGuest && p.guestUpgradedAt.None?
    ensures p.email.Some? <==> Truthy(user.email)
    ensures p.fullName.Some? <==> Truthy(user.metaFullName) || Truthy(user.metaName)
    ensures Truthy(user.metaFullName) ==> p.fullName == user.metaFullName
    ensures !Truthy(user.metaFullName) && Truthy(user.metaName) ==> p.fullName == user.metaName
    ensures p.email == OrNull(user.email) && p.avatarUrl == OrNull(user.metaAvatarUrl)
  {
    Profile(user.id, OrNull(user.email),
            if Truthy(user.metaFullName) then user.metaFullName else OrNull(user.metaName),
            OrNull(user.metaAvatarUrl), false, None)
  }

  /** The calls made and the profile returned (`None` for `null`/`undefined`). */
  datatype ProfileRun = ProfileRun(calls: seq<Call>, storage: GuestStorage, profile: Option<Profile>)

  /** `createUserProfile`: upsert the profile; an upsert error is logged and yields no profile. */
  function CreateUserProfile(user: User, storage: GuestStorage, o: Outcomes): (r: ProfileRun)
    ensures r.calls == [UpsertProfile(ProfileFor(user))] && r.storage == storage
    ensures r.profile.Some? <==> !o.upsertFails
    ensures r.profile.Some? ==> r.profile.value == ProfileFor(user)
  {
    ProfileRun([UpsertProfile(ProfileFor(user))], storage, if o.upsertFails then None else Some(ProfileFor(user)))
  }

  /** `upgradeGuestToUser`: with a stored guest id, transfer the guest's data (a failure is only
      logged), drop both guest keys, create the profile and stamp `guest_upgraded_at` when that
      worked. Without a guest id nothing happens. */
  function UpgradeGuestToUser(user: User, storage: GuestStorage, o: Outcomes): (r: ProfileRun)
    ensures !Truthy(storage.guestId) ==> r == ProfileRun([], storage, None)
    ensures Truthy(storage.guestId) ==>
      && r.storage == GuestStorage(NoStoredProfile, None)
      && |r.calls| >= 2
      && r.calls[0] == TransferGuestData(storage.guestId.value, user.id)
      && r.calls[1] == UpsertProfile(ProfileFor(user))
      && r.profile == CreateUserProfile(user, storage, o).profile
      && (r.profile.Some? <==> |r.calls| == 3)
      && (r.profile.Some? ==> r.calls[2] == MarkUpgraded(user.id, o.now))
  {
    if !Truthy(storage.guestId) then ProfileRun([], storage, None)
    else
      var transfer := TransferGuestData(storage.guestId.value, user.id);
      var cleared := GuestStorage(NoStoredProfile, None);
      var created := CreateUserProfile(user, cleared, o);
      var stamp := if created.profile.Some? then [MarkUpgraded(user.id, o.now)] else [];
      ProfileRun([transfer] + created.calls + stamp, cleared, created.profile)
  }

  /** A failed transfer changes nothing the upgrade does afterwards. */
  lemma TransferErrorOnlyLogged(user: User, storage: GuestStorage, o: Outcomes)
    ensures UpgradeGuestToUser(user, storage, o.(transferFails := true))
         == UpgradeGuestToUser(user, storage, o.(transferFails := false))
  {
  }

  /** An upgrade transfers at most once, and only while a guest id is stored; afterwards no
      guest id is left. */
  lemma UpgradeTransfersOnce(user: User, storage: GuestStorage, o: Outcomes)
    ensures var r := UpgradeGuestToUser(user, storage, o);
      && Transfers(r.calls) <= 1
      && (Transfers(r.calls) == 1 <==> Truthy(storage.guestId))
      && (Transfers(r.calls) == 1 ==> r.storage.guestId.None?)
  {
    var r := UpgradeGuestToUser(user, storage, o);
    if Truthy(storage.guestId) {
      var created := CreateUserProfile(user, GuestStorage(NoStoredProfile, None), o);
      var stamp := if created.profile.Some? then [MarkUpgraded(user.id, o.now)] else [];
      TransfersAppend([TransferGuestData(storage.guestId.value, user.id)] + created.calls, stamp);
      TransfersAppend([TransferGuestData(storage.guestId.value, user.id)], created.calls);
    }
  }

  /** The signed-in branch shared by startup and the `SIGNED_IN` event: use the stored profile;
      without one, upgrade when a guest id was stored before the query, create otherwise. */
  function ResolveSignedIn(session: Session, storage: GuestStorage, o: Outcomes): (r: AuthRun)
    ensures r.state.user == Some(session.user) && r.state.session == Some(session)
    ensures !r.state.loading && !r.state.isGuest
    ensures LoadUserProfile(o.fetch).Some? ==> r.state.profile == LoadUserProfile(o.fetch) && r.calls == [] && r.storage == storage
    ensures LoadUserProfile(o.fetch).None? && Truthy(storage.guestId) ==>
      var up := UpgradeGuestToUser(session.user, storage, o);
      r.state.profile == up.profile && r.calls == up.calls && r.storage == up.storage
    ensures LoadUserProfile(o.fetch).None? && !Truthy(storage.guestId) ==>
      r.state.profile == CreateUserProfile(session.user, storage, o).profile
      && r.calls == [UpsertProfile(ProfileFor(session.user))] && r.storage == storage
  {
    var wasGuest := Truthy(storage.guestId);
    var loaded := LoadUserProfile(o.fetch);
    var run :=
      if loaded.Some? then ProfileRun([], storage, loaded)
      else if wasGuest then UpgradeGuestToUser(session.user, storage, o)
      else CreateUserProfile(session.user, storage, o);
    AuthRun(AuthState(Some(session.user), run.profile, Some(session), false, false), run.storage, run.calls)
  }

  /** Resolving a signed-in session transfers at most once and only with a stored guest id,
      which is gone afterwards. */
  lemma ResolveTransfersOnce(session: Session, storage: GuestStorage, o: Outcomes)
    ensures var r := ResolveSignedIn(session, storage, o);
      && Transfers(r.calls) <= 1
      && (Transfers(r.calls) == 1 ==> Truthy(storage.guestId) && r.storage.guestId.None?)
      && (Transfers(r.calls) == 0 ==> r.storage == storage || r.storage.guestId.None?)
  {
    UpgradeTransfersOnce(session.user, storage, o);
    assert Transfers([UpsertProfile(ProfileFor(session.user))]) == 0;
  }

  /** `initializeAuth`: a session resolves the signed-in profile; without one, a stored guest
      profile is reused as it is, and otherwise a new guest is minted. State updates (but not
      remote calls) are skipped once the hook has unmounted; a stored profile that does not
      parse only clears `loading`. */
  function InitializeAuth(prev: AuthState, storage: GuestStorage, session: Option<Session>,
                          mounted: bool, o: Outcomes): (r: AuthRun)
    ensures session.Some? ==>
      var resolved := ResolveSignedIn(session.value, storage, o);
      r.calls == resolved.calls && r.storage == resolved.storage
      && r.state == (if mounted then resolved.state else prev)
    ensures session.None? && storage.profile.StoredAs? ==>
      r.calls == [] && r.storage == storage
      && r.state == (if mounted then AuthState(None, Some(storage.profile.profile), None, false, true) else prev)
    ensures session.None? && storage.profile.Unparseable? ==>
      r.calls == [] && r.storage == storage && r.state == (if mounted then prev.(loading := false) else prev)
    ensures session.None? && storage.profile.NoStoredProfile? ==> r == InitializeGuestSession(prev, storage, o)
  {
    match session
    case Some(s) =>
      var resolved := ResolveSignedIn(s, storage, o);
      AuthRun(if mounted then resolved.state else prev, resolved.storage, resolved.calls)
    case None =>
      match storage.profile
      case StoredAs(p) =>
        AuthRun(if mounted then AuthState(None, Some(p), None, false, true) else prev, storage, [])
      case Unparseable => AuthRun(if mounted then prev.(loading := false) else prev, storage, [])
      case NoStoredProfile => InitializeGuestSession(prev, storage, o)
  }

  /** A guest minted on one start is the guest found on the next start without a session. */
  lemma GuestReusedOnNextStart(prev: AuthState, storage: GuestStorage, o: Outcomes, later: AuthState, o2: Outcomes)
    requires o.storageAccepts >= 2
    requires storage.profile.NoStoredProfile?
    ensures var first := InitializeAuth(prev, storage, None, true, o);
      var second := InitializeAuth(later, first.storage, None, true, o2);
      second.state.profile == first.state.profile && second.state.isGuest
      && second.state.profile.value.id == o.freshGuestId && second.calls == []
  {
  }

  /** When storage takes the profile but throws on the guest id, the next start reuses that
      guest profile, yet signing in later finds no guest id and transfers nothing: the guest's
      data stays behind. */
  lemma HalfWrittenGuestIsStranded(prev: AuthState, later: AuthState, o: Outcomes, o2: Outcomes,
                                   session: Session)
    requires o.storageAccepts == 1
    requires LoadUserProfile(o2.fetch).None?
    ensures var empty := GuestStorage(NoStoredProfile, None);
      var first := InitializeAuth(prev, empty, None, true, o);
      var second := InitializeAuth(later, first.storage, None, true, o2);
      && first.state == prev.(loading := false)
      && second.state.isGuest && second.state.profile.Some?
      && second.state.profile.value.id == o.freshGuestId
      && Transfers(ResolveSignedIn(session, first.storage, o2).calls) == 0
  {
    var first := InitializeAuth(prev, GuestStorage(NoStoredProfile, None), None, true, o);
    assert !Truthy(first.storage.guestId);
    assert Transfers([UpsertProfile(ProfileFor(session.user))]) == 0;
  }

  datatype AuthEvent = SignedIn | SignedOut | OtherEvent(name: string)

  /** The auth-state listener: ignored once unmounted; `SIGNED_IN` with a session resolves the
      profile; `SIGNED_OUT` mints a new guest; other events change nothing. */
  function OnAuthStateChange(prev: AuthState, storage: GuestStorage, event: AuthEvent,
                             session: Option<Session>, mounted: bool, o: Outcomes): (r: AuthRun)
    ensures !mounted ==> r == AuthRun(prev, storage, [])
    ensures mounted && event == SignedIn && session.Some? ==> r == ResolveSignedIn(session.value, storage, o)
    ensures mounted && event == SignedOut ==> r == InitializeGuestSession(prev, storage, o)
    ensures event.OtherEvent? || (event == SignedIn && session.None?) ==> r == AuthRun(prev, storage, [])
  {
    if !mounted then AuthRun(prev, storage, [])
    else if event == SignedIn && session.Some? then ResolveSignedIn(session.value, storage, o)
    else if event == SignedOut then InitializeGuestSession(prev, storage, o)
    else AuthRun(prev, storage, [])
  }

  /** Two `SIGNED_IN` events in a row (a token refresh re-announcing the user, say) transfer
      guest data at most once between them. */
  lemma AtMostOneTransfer(s0: AuthState, st0: GuestStorage, a: Session, b: Session, o1: Outcomes, o2: Outcomes)
    ensures var r1 := OnAuthStateChange(s0, st0, SignedIn, Some(a), true, o1);
      var r2 := OnAuthStateChange(r1.state, r1.storage, SignedIn, Some(b), true, o2);
      Transfers(r1.calls + r2.calls) <= 1
  {
    var r1 := OnAuthStateChange(s0, st0, SignedIn, Some(a), true, o1);
    var r2 := OnAuthStateChange(r1.state, r1.storage, SignedIn, Some(b), true, o2);
    ResolveTransfersOnce(a, st0, o1);
    ResolveTransfersOnce(b, r1.storage, o2);
    TransfersAppend(r1.calls, r2.calls);
  }

  /** `signOut`: only a successful remote sign-out mints a new guest; an error leaves
      everything as it was. */
  function SignOut(prev: AuthState, storage: GuestStorage, signOutFails: bool, o: Outcomes): (r: AuthRun)
    ensures signOutFails ==> r == AuthRun(prev, storage, [])
    ensures !signOutFails ==> r == InitializeGuestSession(prev, storage, o)
  {
    if signOutFails then AuthRun(prev, storage, []) else InitializeGuestSession(prev, storage, o)
  }

  /** A successful sign-out keeps the signed-in user and session in the state (the guest
      profile is spread over the previous state), and the `SIGNED_OUT` event that follows mints
      a second guest, which is the one left in storage. */
  lemma SignOutThenEvent(prev: AuthState, storage: GuestStorage, o1: Outcomes, o2: Outcomes)
    requires o1.storageAccepts >= 2 && o2.storageAccepts >= 2
    ensures var out := SignOut(prev, storage, false, o1);
      var ev := OnAuthStateChange(out.state, out.storage, SignedOut, None, true, o2);
      && out.state.user == prev.user && out.state.session == prev.session && out.state.isGuest
      && ev.storage.guestId == Some(o2.freshGuestId)
      && ev.state.profile.value.id == o2.freshGuestId
  {
  }
}
