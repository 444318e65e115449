/**
 * The presence tracker of the face-recognition module, as pure transitions on
 * its state: the logged-in `users`, the `timouts` map from user to logout timer
 * handle, the timers still waiting to fire, and the notifications sent so far.
 *
 * The transitions follow the code as written:
 *  - `login_user` only announces the profile and `logout_user` only announces
 *    "default"; neither changes `users`;
 *  - re-arming a logout timer overwrites the handle in `timouts` without
 *    clearing the earlier timer;
 *  - a timer callback reads the handler's function-scoped `user` variable when
 *    it fires, by which time the loop has left it at the batch's last entry;
 *  - the logout counter is only incremented by callbacks, so the batch-level
 *    `USERS_LOGOUT` is never sent by the handler.
 */
module Presence {
  import opened Wrappers
  import opened Notifications

  type UserId = string

  /** An entry of a detector batch: a user id, or `null`. */
  type Entry = Option<UserId>

  /** A `setTimeout` handle. */
  type Handle = nat

  /** A pending logout callback; `user` is what the callback's `user` variable holds when it runs. */
  datatype Timer = Timer(user: Entry)

  /** A message from the detector: `{action, users}`. */
  datatype Payload = Payload(action: string, users: seq<Entry>)

  datatype Tracker = Tracker(
    users: seq<UserId>,
    multiUser: int,
    timouts: map<UserId, Handle>,
    pending: map<Handle, Timer>,
    nextHandle: Handle,
    log: seq<Notification>)

  /** Browsers hand out positive timer handles. */
  const FIRST_HANDLE: Handle := 1

  /** Every handle in use was handed out before `nextHandle`. */
  ghost predicate Valid(t: Tracker) {
    && (forall h :: h in t.pending ==> h < t.nextHandle)
    && (forall u :: u in t.timouts ==> t.timouts[u] < t.nextHandle)
  }

  function Init(multiUser: int): (t: Tracker)
    ensures Valid(t) && t.users == [] && t.multiUser == multiUser
  {
    Tracker([], multiUser, map[], map[], FIRST_HANDLE, [])
  }

  // ---------------------------------------------------------------------------
  // Primitive steps

  function LoginUser(t: Tracker, name: UserId): Tracker {
    t.(log := t.log + [CurrentProfile(name)])
  }

  function LogoutUser(t: Tracker, name: Entry): Tracker {
    t.(log := t.log + [CurrentProfile(DEFAULT_PROFILE)])
  }

  /** `clearTimeout`: a handle that is not pending is left alone. */
  function ClearTimeout(t: Tracker, h: Handle): Tracker {
    t.(pending := t.pending - {h})
  }

  /** `setTimeout`: a fresh handle for a new pending timer. */
  function SetTimeout(t: Tracker, timer: Timer): (Tracker, Handle) {
    (t.(pending := t.pending[t.nextHandle := timer], nextHandle := t.nextHandle + 1), t.nextHandle)
  }

  // ---------------------------------------------------------------------------
  // Login batch

  /** No user is logged in, or fewer than `multiUser` are. */
  predicate Admits(t: Tracker) {
    |t.users| == 0 || |t.users| < t.multiUser
  }

  /** One iteration of the login loop; the number is 1 when the login was admitted. */
  function LoginOne(t: Tracker, e: Entry): (Tracker, nat) {
    match e
    case None => (t, 0)
    case Some(u) =>
      var admit := Admits(t) && u !in t.users;
      var t1 := if admit then LoginUser(t, u) else t;
      var t2 := if u in t1.timouts then ClearTimeout(t1, t1.timouts[u]) else t1;
      (t2, if admit then 1 else 0)
  }

  /** The login loop over the batch; the number is `loginCount`. */
  function LoginEntries(t: Tracker, b: seq<Entry>): (Tracker, nat)
    decreases |b|
  {
    if b == [] then (t, 0)
    else
      var (t1, n1) := LoginEntries(t, b[..|b| - 1]);
      var (t2, n2) := LoginOne(t1, b[|b| - 1]);
      (t2, n1 + n2)
  }

  function Login(t: Tracker, b: seq<Entry>): Tracker {
    var (t1, loginCount) := LoginEntries(t, b);
    if loginCount > 0 then t1.(log := t1.log + [UsersLogin(b)]) else t1
  }

  // ---------------------------------------------------------------------------
  // Logout batch

  /** One iteration of the logout loop; `captured` is what the armed callback will read. */
  function LogoutOne(t: Tracker, e: Entry, captured: Entry): Tracker {
    match e
    case None => t
    case Some(u) =>
      if u in t.users then
        var (t1, h) := SetTimeout(t, Timer(captured));
        t1.(timouts := t1.timouts[u := h])
      else t
  }

  function LogoutEntries(t: Tracker, b: seq<Entry>, captured: Entry): Tracker
    decreases |b|
  {
    if b == [] then t
    else LogoutOne(LogoutEntries(t, b[..|b| - 1], captured), b[|b| - 1], captured)
  }

  /** The value the loop variable holds after the loop; `undefined` for an empty batch. */
  function LastEntry(b: seq<Entry>): Entry {
    if b == [] then None else b[|b| - 1]
  }

  function Logout(t: Tracker, b: seq<Entry>): Tracker {
    LogoutEntries(t, b, LastEntry(b))
  }

  // ---------------------------------------------------------------------------
  // Timer callback, queries and dispatch

  /** The event loop runs the callback of pending timer `h`; a handle that is not pending does nothing. */
  function FireTimer(t: Tracker, h: Handle): Tracker {
    if h in t.pending then
      var user := t.pending[h].user;
      var t1 := t.(pending := t.pending - {h}, log := t.log + [UsersLogoutModules(user)]);
      LogoutUser(t1, user)
    else t
  }

  function GetLoggedInUsers(t: Tracker): Tracker {
    t.(log := t.log + [LoggedInUsers(t.users)])
  }

  /** socketNotificationReceived: the notification name is not inspected, only the payload's action. */
  function SocketNotificationReceived(t: Tracker, notification: string, p: Payload): Tracker {
    if p.action == "login" then Login(t, p.users)
    else if p.action == "logout" then Logout(t, p.users)
    else t
  }

  /** notificationReceived, without the display part (`DOM_OBJECTS_CREATED`). */
  function NotificationReceived(t: Tracker, notification: string): Tracker {
    if notification == "GET_LOGGED_IN_USERS" then GetLoggedInUsers(t) else t
  }

  // ---------------------------------------------------------------------------
  // Reference definitions

  /** The non-null entries of a batch, in batch order. */
  function Present(b: seq<Entry>): (r: seq<UserId>)
    ensures forall u :: u in r <==> Some(u) in b
    ensures |r| <= |b|
    decreases |b|
  {
    if b == [] then []
    else
      assert b == b[..|b| - 1] + [b[|b| - 1]];
      Present(b[..|b| - 1]) + (match b[|b| - 1] case Some(u) => [u] case None => [])
  }

  /** The users of `us`, in order, that are (`loggedIn`) or are not (`!loggedIn`) in `users`. */
  function Filter(us: seq<UserId>, users: seq<UserId>, loggedIn: bool): (r: seq<UserId>)
    ensures forall u :: u in r <==> u in us && (u in users <==> loggedIn)
    ensures |r| <= |us|
    decreases |us|
  {
    if us == [] then []
    else
      var u := us[|us| - 1];
      assert us == us[..|us| - 1] + [u];
      Filter(us[..|us| - 1], users, loggedIn) + (if (u in users) == loggedIn then [u] else [])
  }

  /** The users of `us` for whom `CURRENT_PROFILE` is sent: those not logged in yet, provided
      the tracker admits a login at all. */
  function Admissions(t: Tracker, us: seq<UserId>): seq<UserId> {
    if Admits(t) then Filter(us, t.users, false) else []
  }

  /** The users of a login batch for whom `CURRENT_PROFILE` is sent, in batch order. */
  function Admitted(t: Tracker, b: seq<Entry>): seq<UserId> {
    Admissions(t, Present(b))
  }

  /** The users of a logout batch for whom a timer is armed, in batch order. */
  function Armed(t: Tracker, b: seq<Entry>): seq<UserId> {
    Filter(Present(b), t.users, true)
  }

  function Profiles(us: seq<UserId>): seq<Notification> {
    seq(|us|, i requires 0 <= i < |us| => CurrentProfile(us[i]))
  }

  /** The handles a login batch of `us` clears. */
  function Cancelled(timouts: map<UserId, Handle>, us: seq<UserId>): set<Handle> {
    set u | u in us && u in timouts :: timouts[u]
  }

  /** `t` after a login loop over the non-null users `us`. */
  function LoggedIn(t: Tracker, us: seq<UserId>): Tracker {
    t.(pending := t.pending - Cancelled(t.timouts, us), log := t.log + Profiles(Admissions(t, us)))
  }

  /** The position of the last occurrence of `u` in `s`. */
  function LastIndexOf(s: seq<UserId>, u: UserId): (k: nat)
    requires u in s
    ensures k < |s| && s[k] == u && u !in s[k + 1..]
    decreases |s|
  {
    if s[|s| - 1] == u then |s| - 1
    else
      var init := s[..|s| - 1];
      assert s == init + [s[|s| - 1]];
      var k := LastIndexOf(init, u);
      assert s[k + 1..] == init[k + 1..] + [s[|s| - 1]];
      k
  }

  /** `r` is `t` after a logout loop that armed a timer for each of `armed`, in order, each
      running the callback that reports `captured`. */
  ghost predicate ArmedFrom(t: Tracker, r: Tracker, armed: seq<UserId>, captured: Entry) {
    && r.users == t.users && r.multiUser == t.multiUser && r.log == t.log
    && r.nextHandle == t.nextHandle + |armed|
    && PendingFrom(t, r, captured)
    && TimoutsFrom(t, r, armed)
  }

  /** The pending timers of `r` are those of `t` and one fresh timer per handle from
      `t.nextHandle` up to `r.nextHandle`, each reporting `captured`. */
  ghost predicate PendingFrom(t: Tracker, r: Tracker, captured: Entry) {
    && (forall h :: h in r.pending <==> h in t.pending || t.nextHandle <= h < r.nextHandle)
    && (forall h :: t.nextHandle <= h < r.nextHandle ==> r.pending[h] == Timer(captured))
    && (forall h :: h in t.pending && !(t.nextHandle <= h < r.nextHandle) ==> r.pending[h] == t.pending[h])
  }

  /** The handle of each armed user is overwritten with the fresh handle armed for that user's
      last occurrence in `armed`. */
  ghost predicate TimoutsFrom(t: Tracker, r: Tracker, armed: seq<UserId>) {
    && (forall u :: u in r.timouts <==> u in t.timouts || u in armed)
    && (forall u :: u in armed ==> r.timouts[u] == t.nextHandle + LastIndexOf(armed, u))
    && (forall u :: u in t.timouts && u !in armed ==> r.timouts[u] == t.timouts[u])
  }

  /** The notifications an operation appended. */
  function Sent(before: Tracker, after: Tracker): seq<Notification>
    requires |before.log| <= |after.log|
  {
    after.log[|before.log|..]
  }

  // ---------------------------------------------------------------------------
  // Login properties

  lemma {:induction false} PresentSnoc(b: seq<Entry>, e: Entry)
    ensures Present(b + [e]) == Present(b) + (match e case Some(u) => [u] case None => [])
  {
    assert (b + [e])[..|b|] == b;
  }

  lemma {:induction false} FilterSnoc(us: seq<UserId>, u: UserId, users: seq<UserId>, loggedIn: bool)
    ensures Filter(us + [u], users, loggedIn)
         == Filter(us, users, loggedIn) + (if (u in users) == loggedIn then [u] else [])
  {
    assert (us + [u])[..|us|] == us;
  }

  lemma CancelledSnoc(timouts: map<UserId, Handle>, us: seq<UserId>, u: UserId)
    ensures Cancelled(timouts, us + [u])
         == Cancelled(timouts, us) + (if u in timouts then {timouts[u]} else {})
  {
    var c, c' := Cancelled(timouts, us), Cancelled(timouts, us + [u]);
    forall h | h in c' ensures h in c + (if u in timouts then {timouts[u]} else {}) {
      var v :| v in us + [u] && v in timouts && timouts[v] == h;
      if v != u { assert v in us; }
    }
  }

  lemma ProfilesSnoc(us: seq<UserId>, u: UserId)
    ensures Profiles(us + [u]) == Profiles(us) + [CurrentProfile(u)]
  {
  }

  lemma AdmissionsSnoc(t: Tracker, us: seq<UserId>, u: UserId)
    ensures Admissions(t, us + [u]) == Admissions(t, us) + (if Admits(t) && u !in t.users then [u] else [])
  {
    FilterSnoc(us, u, t.users, false);
  }

  /** One iteration of the login loop extends the reference result by one user. */
  lemma LoginStep(t: Tracker, us: seq<UserId>, u: UserId)
    ensures LoginOne(LoggedIn(t, us), Some(u))
         == (LoggedIn(t, us + [u]), if Admits(t) && u !in t.users then 1 else 0)
    ensures |Admissions(t, us + [u])| == |Admissions(t, us)| + if Admits(t) && u !in t.users then 1 else 0
  {
    var l, l' := LoggedIn(t, us), LoggedIn(t, us + [u]);
    var admit := Admits(t) && u !in t.users;
    AdmissionsSnoc(t, us, u);
    var l1 := if admit then LoginUser(l, u) else l;
    assert l1.log == l'.log by {
      ProfilesSnoc(Admissions(t, us), u);
    }
    var l2 := if u in l1.timouts then ClearTimeout(l1, l1.timouts[u]) else l1;
    assert l2.pending == l'.pending by {
      CancelledSnoc(t.timouts, us, u);
    }
    assert l2 == l';
  }

  lemma {:induction false} LoginEntriesSnoc(t: Tracker, b: seq<Entry>, e: Entry)
    ensures LoginEntries(t, b + [e])
         == (LoginOne(LoginEntries(t, b).0, e).0, LoginEntries(t, b).1 + LoginOne(LoginEntries(t, b).0, e).1)
  {
    assert (b + [e])[..|b|] == b;
  }

  /** The login loop sends `CURRENT_PROFILE` for each admitted user in batch order, clears the
      recorded timer of every non-null user, and changes nothing else. */
  lemma {:induction false} LoginEntriesEffect(t: Tracker, b: seq<Entry>)
    ensures LoginEntries(t, b) == (LoggedIn(t, Present(b)), |Admitted(t, b)|)
    decreases |b|
  {
    if b == [] {
      assert Cancelled(t.timouts, []) == {};
      assert Profiles(Admissions(t, [])) == [];
      assert LoggedIn(t, []) == t;
    } else {
      var init, e := b[..|b| - 1], b[|b| - 1];
      assert b == init + [e];
      LoginEntriesSnoc(t, init, e);
      LoginEntriesEffect(t, init);
      PresentSnoc(init, e);
      var p := Present(init);
      match e
      case None =>
        assert Present(b) == p;
      case Some(u) =>
        assert Present(b) == p + [u];
        LoginStep(t, p, u);
    }
  }

  /** A login batch, with the batch-level `USERS_LOGIN` appended once when any login was admitted. */
  lemma LoginEffect(t: Tracker, b: seq<Entry>)
    ensures Login(t, b)
         == t.(pending := t.pending - Cancelled(t.timouts, Present(b)),
               log := t.log + Profiles(Admitted(t, b))
                            + (if Admitted(t, b) != [] then [UsersLogin(b)] else []))
  {
    LoginEntriesEffect(t, b);
  }

  /** What a login batch sends: the profiles of the admitted users, then `USERS_LOGIN` if any. */
  lemma LoginLog(t: Tracker, b: seq<Entry>)
    ensures Login(t, b).log
         == t.log + Profiles(Admitted(t, b)) + (if Admitted(t, b) != [] then [UsersLogin(b)] else [])
  {
    LoginEntriesEffect(t, b);
  }

  /** `CURRENT_PROFILE(u)` is sent exactly when `u` is in the batch, the tracker admits a login,
      and `u` is not logged in already. */
  lemma LoginProfileIff(t: Tracker, b: seq<Entry>, u: UserId)
    ensures |t.log| <= |Login(t, b).log|
    ensures CurrentProfile(u) in Sent(t, Login(t, b)) <==> Some(u) in b && Admits(t) && u !in t.users
  {
    LoginEffect(t, b);
    var a := Admitted(t, b);
    assert Sent(t, Login(t, b)) == Profiles(a) + (if a != [] then [UsersLogin(b)] else []);
    if Some(u) in b && Admits(t) && u !in t.users {
      assert u in a;
      var i :| 0 <= i < |a| && a[i] == u;
      assert Profiles(a)[i] == CurrentProfile(u);
    }
  }

  /** `USERS_LOGIN` carries the original batch, is sent at most once and only after every
      `CURRENT_PROFILE` of the batch, and is sent exactly when some login was admitted. */
  lemma LoginBatchSignal(t: Tracker, b: seq<Entry>)
    ensures |t.log| <= |Login(t, b).log|
    ensures var sent := Sent(t, Login(t, b));
      && (forall i :: 0 <= i < |sent| - 1 ==> sent[i].CurrentProfile?)
      && (forall i :: 0 <= i < |sent| && sent[i].UsersLogin? ==> i == |sent| - 1 && sent[i] == UsersLogin(b))
      && (|sent| > 0 && sent[|sent| - 1] == UsersLogin(b) <==> Admitted(t, b) != [])
  {
    LoginEffect(t, b);
  }

  /** Logins never change who is logged in, the handle map, or the handle counter; they only
      remove pending timers. */
  lemma LoginKeepsState(t: Tracker, b: seq<Entry>)
    ensures var r := Login(t, b);
      && r.users == t.users && r.multiUser == t.multiUser
      && r.timouts == t.timouts && r.nextHandle == t.nextHandle
      && r.pending.Keys <= t.pending.Keys
      && (forall u :: Some(u) in b && u in t.timouts ==> t.timouts[u] !in r.pending)
  {
    LoginEffect(t, b);
  }

  /** The keys of `timouts` are never deleted, so a second identical login batch clears nothing more. */
  lemma LoginCancelIdempotent(t: Tracker, b: seq<Entry>)
    ensures Login(Login(t, b), b).pending == Login(t, b).pending
  {
    LoginEffect(t, b);
    LoginEffect(Login(t, b), b);
  }

  /** A null entry in a login batch has no effect on the loop. */
  lemma {:induction false} LoginSkipsNull(t: Tracker, a: seq<Entry>, c: seq<Entry>)
    ensures LoginEntries(t, a + [None] + c) == LoginEntries(t, a + c)
    decreases |c|
  {
    if c == [] {
      assert (a + [None])[..|a|] == a;
      assert a + [None] + c == a + [None] && a + c == a;
    } else {
      var init, e := c[..|c| - 1], c[|c| - 1];
      LoginSkipsNull(t, a, init);
      assert (a + [None] + c)[..|a + [None] + c| - 1] == a + [None] + init;
      assert (a + c)[..|a + c| - 1] == a + init;
    }
  }

  // ---------------------------------------------------------------------------
  // Logout properties

  /** One iteration of the logout loop for a logged-in user arms one more timer. */
  lemma LogoutStep(t: Tracker, r: Tracker, armed: seq<UserId>, captured: Entry, u: UserId)
    requires ArmedFrom(t, r, armed, captured) && u in t.users
    ensures ArmedFrom(t, LogoutOne(r, Some(u), captured), armed + [u], captured)
    ensures LogoutOne(r, Some(u), captured).timouts[u] == r.nextHandle
  {
    var r' := LogoutOne(r, Some(u), captured);
    assert r' == r.(pending := r.pending[r.nextHandle := Timer(captured)],
                    timouts := r.timouts[u := r.nextHandle],
                    nextHandle := r.nextHandle + 1);
    PendingStep(t, r, captured);
    TimoutsStep(t, r, armed, u);
  }

  lemma PendingStep(t: Tracker, r: Tracker, captured: Entry)
    requires PendingFrom(t, r, captured) && t.nextHandle <= r.nextHandle
    ensures PendingFrom(t, r.(pending := r.pending[r.nextHandle := Timer(captured)],
                              nextHandle := r.nextHandle + 1), captured)
  {
  }

  lemma TimoutsStep(t: Tracker, r: Tracker, armed: seq<UserId>, u: UserId)
    requires TimoutsFrom(t, r, armed) && r.nextHandle == t.nextHandle + |armed|
    ensures TimoutsFrom(t, r.(timouts := r.timouts[u := r.nextHandle], nextHandle := r.nextHandle + 1),
                        armed + [u])
  {
    var armed' := armed + [u];
    var r' := r.(timouts := r.timouts[u := r.nextHandle], nextHandle := r.nextHandle + 1);
    assert armed'[..|armed|] == armed;
    forall v | v in armed'
      ensures r'.timouts[v] == t.nextHandle + LastIndexOf(armed', v)
    {
      if v != u {
        assert v in armed;
        assert LastIndexOf(armed', v) == LastIndexOf(armed, v);
      }
    }
  }

  /** The logout loop arms one new timer per logged-in non-null entry, each running the same
      callback, points `timouts` of those users at new timers, and changes nothing else. */
  lemma {:induction false} LogoutEntriesEffect(t: Tracker, b: seq<Entry>, captured: Entry)
    ensures ArmedFrom(t, LogoutEntries(t, b, captured), Armed(t, b), captured)
    decreases |b|
  {
    if b != [] {
      var init, e := b[..|b| - 1], b[|b| - 1];
      assert b == init + [e];
      LogoutEntriesEffect(t, init, captured);
      LogoutEntriesSnoc(t, init, e, captured);
    }
  }

  /** One more entry extends the relation by the armed user, if any. */
  lemma LogoutEntriesSnoc(t: Tracker, init: seq<Entry>, e: Entry, captured: Entry)
    requires ArmedFrom(t, LogoutEntries(t, init, captured), Armed(t, init), captured)
    ensures ArmedFrom(t, LogoutEntries(t, init + [e], captured), Armed(t, init + [e]), captured)
  {
    var b := init + [e];
    assert b[..|b| - 1] == init;
    var r := LogoutEntries(t, init, captured);
    assert LogoutEntries(t, b, captured) == LogoutOne(r, e, captured);
    PresentSnoc(init, e);
    match e
    case None =>
      assert Present(b) == Present(init);
    case Some(u) =>
      assert Present(b) == Present(init) + [u];
      FilterSnoc(Present(init), u, t.users, true);
      if u in t.users {
        assert Armed(t, b) == Armed(t, init) + [u];
        LogoutStep(t, r, Armed(t, init), captured, u);
      } else {
        assert Armed(t, b) == Armed(t, init);
        assert LogoutOne(r, e, captured) == r;
      }
  }

  lemma LogoutEffect(t: Tracker, b: seq<Entry>)
    ensures ArmedFrom(t, Logout(t, b), Armed(t, b), LastEntry(b))
  {
    LogoutEntriesEffect(t, b, LastEntry(b));
  }

  /** A logout batch sends nothing: in particular no `USERS_LOGOUT`. */
  lemma LogoutSendsNothing(t: Tracker, b: seq<Entry>)
    ensures Logout(t, b).log == t.log && Logout(t, b).users == t.users
  {
    LogoutEffect(t, b);
  }

  /** A logout batch of users who are not logged in (or nulls) leaves the tracker unchanged. */
  lemma {:induction false} LogoutEntriesIgnoreAbsent(t: Tracker, b: seq<Entry>, captured: Entry)
    requires forall u :: Some(u) in b ==> u !in t.users
    ensures LogoutEntries(t, b, captured) == t
    decreases |b|
  {
    if b != [] {
      assert b == b[..|b| - 1] + [b[|b| - 1]];
      LogoutEntriesIgnoreAbsent(t, b[..|b| - 1], captured);
    }
  }

  lemma LogoutIgnoresAbsent(t: Tracker, b: seq<Entry>)
    requires forall u :: Some(u) in b ==> u !in t.users
    ensures Logout(t, b) == t
  {
    LogoutEntriesIgnoreAbsent(t, b, LastEntry(b));
  }

  /** Every timer a logout batch arms will report the batch's last entry, whichever user it
      was armed for. */
  lemma LogoutTimerCapturesLast(t: Tracker, b: seq<Entry>, h: Handle)
    requires Valid(t)
    requires h in Logout(t, b).pending && h !in t.pending
    ensures Logout(t, b).pending[h] == Timer(LastEntry(b))
  {
    LogoutEffect(t, b);
  }

  /** Re-arming does not clear: every timer pending before a logout batch is still pending after
      it, while the re-armed user's handle now points elsewhere. */
  lemma RearmKeepsEarlierTimer(t: Tracker, b: seq<Entry>, u: UserId)
    requires Valid(t)
    requires u in t.timouts && t.timouts[u] in t.pending
    requires Some(u) in b && u in t.users
    ensures u in Armed(t, b)
    ensures var r := Logout(t, b);
      && u in r.timouts
      && t.timouts[u] in r.pending && r.pending[t.timouts[u]] == t.pending[t.timouts[u]]
      && r.timouts[u] != t.timouts[u]
      && r.timouts[u] == t.nextHandle + LastIndexOf(Armed(t, b), u)
      && r.timouts[u] in r.pending && r.pending[r.timouts[u]] == Timer(LastEntry(b))
  {
    LogoutEffect(t, b);
    assert u in Armed(t, b);
  }

  /** A login batch clears only handles recorded in `timouts`: any other pending timer survives. */
  lemma LoginSparesUnrecorded(t: Tracker, b: seq<Entry>, h: Handle)
    requires h in t.pending && forall v :: v in t.timouts ==> t.timouts[v] != h
    ensures h in Login(t, b).pending && Login(t, b).pending[h] == t.pending[h]
  {
    assert h !in Cancelled(t.timouts, Present(b));
    LoginEffect(t, b);
  }

  /** A user who occurs twice among the armed users of one logout batch leaves an orphan: the
      timer armed for the earlier occurrence stays pending, no recorded handle names it, and so
      no later login batch clears it. */
  lemma LogoutOrphansEarlierTimer(t: Tracker, b: seq<Entry>, k: nat, later: seq<Entry>)
    requires Valid(t)
    requires k < |Armed(t, b)| && Armed(t, b)[k] in Armed(t, b)[k + 1..]
    ensures var r := Logout(t, b);
      && t.nextHandle + k in r.pending && r.pending[t.nextHandle + k] == Timer(LastEntry(b))
      && (forall v :: v in r.timouts ==> r.timouts[v] != t.nextHandle + k)
      && t.nextHandle + k in Login(r, later).pending
  {
    LogoutEffect(t, b);
    var r, armed, h := Logout(t, b), Armed(t, b), t.nextHandle + k;
    assert h in r.pending;
    forall v | v in r.timouts
      ensures r.timouts[v] != h
    {
      if v in armed {
        var j := LastIndexOf(armed, v);
        assert r.timouts[v] == t.nextHandle + j;
        assert j != k;
      } else {
        assert r.timouts[v] == t.timouts[v];
      }
    }
    LoginSparesUnrecorded(r, later, h);
  }

  /** A null entry before the last one has no effect on a logout batch. */
  lemma {:induction false} LogoutEntriesSkipNull(t: Tracker, a: seq<Entry>, c: seq<Entry>, captured: Entry)
    ensures LogoutEntries(t, a + [None] + c, captured) == LogoutEntries(t, a + c, captured)
    decreases |c|
  {
    if c == [] {
      assert (a + [None])[..|a|] == a;
      assert a + [None] + c == a + [None] && a + c == a;
    } else {
      var init := c[..|c| - 1];
      LogoutEntriesSkipNull(t, a, init, captured);
      assert (a + [None] + c)[..|a + [None] + c| - 1] == a + [None] + init;
      assert (a + c)[..|a + c| - 1] == a + init;
    }
  }

  lemma LogoutSkipsNull(t: Tracker, a: seq<Entry>, c: seq<Entry>)
    requires c != []
    ensures Logout(t, a + [None] + c) == Logout(t, a + c)
  {
    LogoutEntriesSkipNull(t, a, c, LastEntry(c));
  }

  // ---------------------------------------------------------------------------
  // Timer and whole-module properties

  /** A firing timer sends `USERS_LOGOUT_MODULES` with its captured entry, then
      `CURRENT_PROFILE("default")`, and leaves `users` and `timouts` as they were. */
  lemma FireTimerEffect(t: Tracker, h: Handle)
    ensures var r := FireTimer(t, h);
      && r.users == t.users && r.timouts == t.timouts && r.nextHandle == t.nextHandle
      && (h in t.pending ==>
            r.pending == t.pending - {h}
            && r.log == t.log + [UsersLogoutModules(t.pending[h].user), CurrentProfile(DEFAULT_PROFILE)])
      && (h !in t.pending ==> r == t)
  {
  }

  /** Every transition keeps the handle invariant. */
  lemma {:induction false} ValidPreserved(t: Tracker, notification: string, p: Payload, h: Handle)
    requires Valid(t)
    ensures Valid(SocketNotificationReceived(t, notification, p))
    ensures Valid(NotificationReceived(t, notification))
    ensures Valid(FireTimer(t, h))
  {
    LoginEffect(t, p.users);
    LogoutEffect(t, p.users);
  }

  /** No transition changes `users`, and `GET_LOGGED_IN_USERS` replies with it unchanged. */
  lemma {:induction false} UsersNeverChange(t: Tracker, notification: string, p: Payload, h: Handle)
    ensures SocketNotificationReceived(t, notification, p).users == t.users
    ensures NotificationReceived(t, notification).users == t.users
    ensures FireTimer(t, h).users == t.users
    ensures NotificationReceived(t, "GET_LOGGED_IN_USERS").log == t.log + [LoggedInUsers(t.users)]
  {
    LoginEffect(t, p.users);
    LogoutEffect(t, p.users);
  }

  /** A login batch sends only `CURRENT_PROFILE` and `USERS_LOGIN`. */
  lemma LoginSendsNoLogout(t: Tracker, b: seq<Entry>)
    ensures |t.log| <= |Login(t, b).log|
    ensures forall n :: n in Sent(t, Login(t, b)) ==> !n.UsersLogout?
  {
    LoginLog(t, b);
    var a := Admitted(t, b);
    var extra := if a != [] then [UsersLogin(b)] else [];
    assert Login(t, b).log == t.log + (Profiles(a) + extra);
    assert Sent(t, Login(t, b)) == Profiles(a) + extra;
  }

  /** The batch-level `USERS_LOGOUT` is never sent by any transition. */
  lemma {:induction false} UsersLogoutNeverSent(t: Tracker, notification: string, p: Payload, h: Handle)
    ensures var r := SocketNotificationReceived(t, notification, p);
      |t.log| <= |r.log| && forall n :: n in Sent(t, r) ==> !n.UsersLogout?
    ensures var r := FireTimer(t, h);
      |t.log| <= |r.log| && forall n :: n in Sent(t, r) ==> !n.UsersLogout?
  {
    if p.action == "login" {
      LoginSendsNoLogout(t, p.users);
    } else if p.action == "logout" {
      LogoutSendsNothing(t, p.users);
    }
  }

  /** Since `users` starts empty and nothing fills it, every reachable tracker admits each
      non-null login and ignores every logout. */
  lemma EmptyUsersConsequences(t: Tracker, b: seq<Entry>)
    requires t.users == []
    ensures Admitted(t, b) == Present(b)
    ensures Logout(t, b) == t
  {
    assert Admits(t);
    FilterNoneLoggedIn(Present(b), t.users);
    LogoutIgnoresAbsent(t, b);
  }

  lemma {:induction false} FilterNoneLoggedIn(us: seq<UserId>, users: seq<UserId>)
    requires forall u :: u in us ==> u !in users
    ensures Filter(us, users, false) == us
    decreases |us|
  {
    if us != [] {
      assert us == us[..|us| - 1] + [us[|us| - 1]];
      FilterNoneLoggedIn(us[..|us| - 1], users);
    }
  }

  // ---------------------------------------------------------------------------
  // Debounce scenarios

  /** A logout batch holding one logged-in user arms one timer under the next handle. */
  lemma LogoutSingle(t: Tracker, u: UserId)
    requires u in t.users
    ensures Logout(t, [Some(u)])
         == t.(pending := t.pending[t.nextHandle := Timer(Some(u))],
               timouts := t.timouts[u := t.nextHandle],
               nextHandle := t.nextHandle + 1)
  {
    var b := [Some(u)];
    assert b[..0] == [];
    assert LogoutEntries(t, b, Some(u)) == LogoutOne(t, Some(u), Some(u));
    var (t1, h) := SetTimeout(t, Timer(Some(u)));
    assert LogoutOne(t, Some(u), Some(u)) == t1.(timouts := t1.timouts[u := h]);
  }

  /** A login batch holding one logged-in user clears that user's recorded timer and sends nothing. */
  lemma LoginSinglePresent(t: Tracker, u: UserId)
    requires u in t.users
    ensures Login(t, [Some(u)])
         == if u in t.timouts then t.(pending := t.pending - {t.timouts[u]}) else t
  {
    var b := [Some(u)];
    assert b[..0] == [];
    assert LoginEntries(t, b) == LoginOne(t, Some(u));
  }

  /** A login batch holding one user who is not logged in, when a login is admitted, announces
      that user and then the batch. */
  lemma LoginSingleFresh(t: Tracker, u: UserId)
    requires Admits(t) && u !in t.users
    ensures Login(t, [Some(u)]).log == t.log + [CurrentProfile(u), UsersLogin([Some(u)])]
    ensures Login(t, [Some(u)]).users == t.users
  {
    var b := [Some(u)];
    assert b[..0] == [];
    assert LoginEntries(t, b) == LoginOne(t, Some(u));
  }

  /** Logout then a firing timer: the user is announced to the modules and the profile falls
      back to "default", but the user stays in `users`. */
  lemma DebounceFire(t: Tracker, u: UserId)
    requires u in t.users
    ensures var t1 := Logout(t, [Some(u)]);
      && u in t1.timouts && t1.timouts[u] == t.nextHandle && t.nextHandle in t1.pending
      && FireTimer(t1, t.nextHandle).log
         == t.log + [UsersLogoutModules(Some(u)), CurrentProfile(DEFAULT_PROFILE)]
      && FireTimer(t1, t.nextHandle).users == t.users
  {
    LogoutSingle(t, u);
  }

  /** Logout then login of the same present user before the delay: the armed timer is cleared
      and nothing is sent. */
  lemma DebounceCancel(t: Tracker, u: UserId)
    requires Valid(t) && u in t.users
    ensures var t2 := Login(Logout(t, [Some(u)]), [Some(u)]);
      t2.pending == t.pending && t2.log == t.log && t2.users == t.users
  {
    LogoutSingle(t, u);
    var t1 := Logout(t, [Some(u)]);
    LoginSinglePresent(t1, u);
    assert t.nextHandle !in t.pending;
    assert t1.pending - {t.nextHandle} == t.pending;
  }

  /** Two logouts of the same user before a login: the login clears only the second timer, and
      the first still fires and announces the logout. */
  lemma RepeatedLogoutOrphansTimer(t: Tracker, u: UserId)
    requires Valid(t) && u in t.users
    ensures var t2 := Login(Logout(t, [Some(u), Some(u)]), [Some(u)]);
      && t.nextHandle in t2.pending
      && FireTimer(t2, t.nextHandle).log[|t2.log|..]
         == [UsersLogoutModules(Some(u)), CurrentProfile(DEFAULT_PROFILE)]
  {
    var b := [Some(u), Some(u)];
    var b1 := [Some(u)];
    assert b[..1] == b1 && b1[..0] == [];
    var t0 := LogoutEntries(t, b1, Some(u));
    LogoutSingle(t, u);
    assert t0 == Logout(t, b1);
    var t1 := Logout(t, b);
    assert t1 == LogoutOne(t0, Some(u), Some(u));
    var (s2, h2) := SetTimeout(t0, Timer(Some(u)));
    assert t1 == s2.(timouts := s2.timouts[u := h2]);
    assert t1.pending[t.nextHandle] == Timer(Some(u));
    assert t1.timouts[u] == t.nextHandle + 1;
    LoginSinglePresent(t1, u);
  }

  /** With `multiUser` 0 or 1 a login is admitted only while nobody is logged in. */
  lemma SingleUserMode(t: Tracker)
    requires t.multiUser <= 1
    ensures Admits(t) <==> t.users == []
  {
  }

  /** A batch of users none of whom is logged in, when a login is admitted: one `CURRENT_PROFILE`
      per non-null entry in batch order, then one `USERS_LOGIN` with the whole batch. */
  lemma LoginFreshBatch(t: Tracker, b: seq<Entry>)
    requires Admits(t) && Present(b) != []
    requires forall u :: Some(u) in b ==> u !in t.users
    ensures Login(t, b).log == t.log + Profiles(Present(b)) + [UsersLogin(b)]
  {
    FilterNoneLoggedIn(Present(b), t.users);
    LoginLog(t, b);
  }

  /** Because `login_user` never records the user, logging the same user in twice from an empty
      tracker announces the profile twice. */
  lemma RepeatedLoginAnnouncedAgain(t: Tracker, u: UserId)
    requires t.users == []
    ensures var t1 := Login(t, [Some(u)]);
      Login(t1, [Some(u)]).log
      == t.log + [CurrentProfile(u), UsersLogin([Some(u)]), CurrentProfile(u), UsersLogin([Some(u)])]
  {
    LoginSingleFresh(t, u);
    LoginSingleFresh(Login(t, [Some(u)]), u);
  }
}
