/** The session hook (`useSession`): an anonymous session on first load, the id of the previous
    user remembered across auth events, and the guest-data migration triggered when a real
    account replaces a different previous user. */
module SessionHook {
  import opened Common
  import Auth

  /** The session slot starts `undefined`, distinct from an explicit `null`. */
  datatype Slot = Unset | NoSession | Current(session: Auth.Session)

  datatype Hook = Hook(session: Slot, prevUser: Option<string>, mounted: bool)

  const Mounted := Hook(Unset, None, true)

  /** The answer of the anonymous sign-in: its user and its session, each possibly missing. */
  datatype AnonSignIn = AnonSignIn(user: Option<Auth.User>, session: Option<Auth.Session>)

  /** The data migration `upgradeGuestToUser(newUserId, oldUserId)`. */
  datatype Migration = Migration(newUser: string, oldUser: string)

  /** What one auth event did: the hook afterwards, the migration requested, and whether the
      "synced to your account" alert was shown. */
  datatype Step = Step(hook: Hook, migration: Option<Migration>, alerted: bool)

  function SlotOf(s: Option<Auth.Session>): (slot: Slot)
    ensures slot.Current? <==> s.Some?
    ensures slot.Current? ==> slot.session == s.value
  {
    match s
    case Some(x) => Current(x)
    case None => NoSession
  }

  /** The initial `getSession`: an existing session is adopted and its user remembered;
      otherwise the app signs in anonymously and remembers the anonymous user, if any. The
      answer is ignored once unmounted. */
  function Initialize(h: Hook, existing: Option<Auth.Session>, anon: AnonSignIn): (r: Hook)
    ensures !h.mounted ==> r == h
    ensures h.mounted && existing.Some? ==>
      r.session == Current(existing.value) && r.prevUser == Some(existing.value.user.id)
    ensures h.mounted && existing.None? ==>
      r.session == SlotOf(anon.session)
      && (r.prevUser.Some? <==> anon.user.Some?)
      && (anon.user.Some? ==> r.prevUser == Some(anon.user.value.id))
    ensures r.mounted == h.mounted
  {
    if !h.mounted then h
    else match existing
      case Some(s) => h.(session := Current(s), prevUser := Some(s.user.id))
      case None =>
        h.(session := SlotOf(anon.session),
           prevUser := if anon.user.Some? then Some(anon.user.value.id) else None)
  }

  /** The migration condition: a previous user was remembered, the new session has a user,
      it is someone else, and that someone is a real (not anonymous) account. */
  predicate ShouldMigrate(prevUser: Option<string>, next: Option<Auth.Session>) {
    Common.Truthy(prevUser) && next.Some? && prevUser.value != next.value.user.id && !next.value.user.isAnonymous
  }

  /** One auth event: adopt the new session, migrate `(new, old)` when the condition holds (a
      failing migration is only logged, a successful one alerts), then remember the new user
      or null. Events after unmount are ignored. */
  function OnAuthEvent(h: Hook, next: Option<Auth.Session>, migrationFails: bool): (r: Step)
    ensures !h.mounted ==> r == Step(h, None, false)
    ensures h.mounted ==> r.hook.session == SlotOf(next) && r.hook.mounted
    ensures h.mounted ==> r.hook.prevUser == (if next.Some? then Some(next.value.user.id) else None)
    ensures r.migration.Some? <==> h.mounted && ShouldMigrate(h.prevUser, next)
    ensures r.migration.Some? ==> r.migration.value == Migration(next.value.user.id, h.prevUser.value)
    ensures r.alerted <==> r.migration.Some? && !migrationFails
  {
    if !h.mounted then Step(h, None, false)
    else
      var migrate := ShouldMigrate(h.prevUser, next);
      var migration := if migrate then Some(Migration(next.value.user.id, h.prevUser.value)) else None;
      var after := h.(session := SlotOf(next), prevUser := if next.Some? then Some(next.value.user.id) else None);
      Step(after, migration, migrate && !migrationFails)
  }

  /** The cleanup function: later answers and events are ignored. */
  function Unmount(h: Hook): (r: Hook)
    ensures !r.mounted && r.session == h.session && r.prevUser == h.prevUser
  {
    h.(mounted := false)
  }

  /** The same session announced twice migrates at most once: after the first event the
      remembered user is the new user, whichever way the migration went. */
  lemma NoRepeatedMigration(h: Hook, next: Option<Auth.Session>, f1: bool, f2: bool)
    ensures OnAuthEvent(OnAuthEvent(h, next, f1).hook, next, f2).migration.None?
  {
  }

  /** Going from an anonymous session to a real account migrates exactly the anonymous user's
      data to the real account. */
  lemma AnonymousToRealMigrates(h: Hook, anonUser: Auth.User, anonSession: Auth.Session, account: Auth.Session, fails: bool)
    requires h.mounted && anonUser.id != "" && anonUser.id != account.user.id && !account.user.isAnonymous
    ensures var start := Initialize(h, None, AnonSignIn(Some(anonUser), Some(anonSession)));
      OnAuthEvent(start, Some(account), fails).migration == Some(Migration(account.user.id, anonUser.id))
  {
  }

  /** Nothing that happens after unmount changes the hook or migrates. */
  lemma UnmountedIgnoresAll(h: Hook, existing: Option<Auth.Session>, anon: AnonSignIn, next: Option<Auth.Session>, fails: bool)
    ensures var u := Unmount(h);
      Initialize(u, existing, anon) == u && OnAuthEvent(u, next, fails) == Step(u, None, false)
  {
  }
}
