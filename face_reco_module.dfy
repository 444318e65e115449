/**
 * The module instance: its configuration, the class lists `start` derives, and
 * the presence state that the two notification handlers and the logout timers
 * update in place. Each method is proved against the transition of the same
 * name in `Presence`, whose properties are proved there.
 */
module FaceRecoModule {
  import opened Wrappers
  import opened Notifications
  import opened ClassSets
  import opened Presence

  class FaceReco {
    const labels: Labels
    const multiUser: int
    /** `config.classes_noface/unknown/known`; undefined until `start` runs. */
    var classes: Option<StateClasses>
    var users: seq<UserId>
    var timouts: map<UserId, Handle>
    /** The timers armed with `setTimeout` that have neither fired nor been cleared. */
    var pending: map<Handle, Timer>
    var nextHandle: Handle
    /** Every notification sent so far, oldest first. */
    var log: seq<Notification>

    function Snapshot(): Tracker
      reads this
    {
      Tracker(users, multiUser, timouts, pending, nextHandle, log)
    }

    ghost predicate Valid()
      reads this
    {
      Presence.Valid(Snapshot())
    }

    /** A fresh instance: nobody logged in, no timers, nothing sent. */
    constructor (labels: Labels, multiUser: int)
      ensures Valid() && Snapshot() == Init(multiUser)
      ensures this.labels == labels && classes == None
    {
      this.labels := labels;
      this.multiUser := multiUser;
      classes := None;
      users, timouts, pending, nextHandle, log := [], map[], map[], FIRST_HANDLE, [];
    }

    /** start: derives the three per-state class lists from the configured labels. */
    method Start()
      modifies this`classes
      ensures classes == Some(DeriveClasses(labels))
    {
      classes := Some(DeriveClasses(labels));
    }

    method LoginUser(name: UserId)
      modifies this`log
      ensures Snapshot() == Presence.LoginUser(old(Snapshot()), name)
      ensures log == old(log) + [CurrentProfile(name)]
    {
      log := log + [CurrentProfile(name)];
    }

    /** logout_user: the name is not used. */
    method LogoutUser(name: Entry)
      modifies this`log
      ensures Snapshot() == Presence.LogoutUser(old(Snapshot()), name)
      ensures log == old(log) + [CurrentProfile(DEFAULT_PROFILE)]
    {
      log := log + [CurrentProfile(DEFAULT_PROFILE)];
    }

    method ClearTimeout(h: Handle)
      modifies this`pending
      ensures Snapshot() == Presence.ClearTimeout(old(Snapshot()), h)
      ensures h !in pending
    {
      pending := pending - {h};
    }

    method SetTimeout(timer: Timer) returns (h: Handle)
      modifies this`pending, this`nextHandle
      ensures (Snapshot(), h) == Presence.SetTimeout(old(Snapshot()), timer)
      ensures h == old(nextHandle) && pending == old(pending)[h := timer] && nextHandle == h + 1
    {
      h := nextHandle;
      pending := pending[h := timer];
      nextHandle := nextHandle + 1;
    }

    /** socketNotificationReceived: a login or logout batch from the detector. */
    method SocketNotificationReceived(notification: string, payload: Payload)
      requires Valid()
      modifies this`log, this`pending, this`nextHandle, this`timouts
      ensures Valid()
      ensures Snapshot() == Presence.SocketNotificationReceived(old(Snapshot()), notification, payload)
      ensures users == old(users)
    {
      if payload.action == "login" {
        HandleLogin(payload.users);
      } else if payload.action == "logout" {
        HandleLogout(payload.users);
      }
      ValidPreserved(old(Snapshot()), notification, payload, 0);
      UsersNeverChange(old(Snapshot()), notification, payload, 0);
    }

    /** The `login` branch: announce admitted users, clear their logout timers, then announce the batch. */
    method HandleLogin(batch: seq<Entry>)
      modifies this`log, this`pending
      ensures Snapshot() == Presence.Login(old(Snapshot()), batch)
    {
      var user: Entry := None;
      var loginCount: nat := 0;
      var i := 0;
      while i < |batch|
        invariant 0 <= i <= |batch|
        invariant (Snapshot(), loginCount) == LoginEntries(old(Snapshot()), batch[..i])
      {
        assert batch[..i + 1][..i] == batch[..i];
        user := batch[i];
        if user.Some? {
          var name := user.value;
          if |users| == 0 || |users| < multiUser {
            if name !in users {
              LoginUser(name);
              loginCount := loginCount + 1;
            }
          }
          // clear any timeout so that the user stays logged in
          if name in timouts {
            ClearTimeout(timouts[name]);
          }
        }
        i := i + 1;
      }
      assert batch[..i] == batch;
      if loginCount > 0 {
        log := log + [UsersLogin(batch)];
      }
    }

    /** The `logout` branch: arm a logout timer for every logged-in user of the batch. */
    method HandleLogout(batch: seq<Entry>)
      modifies this`pending, this`nextHandle, this`timouts
      ensures Snapshot() == Presence.Logout(old(Snapshot()), batch)
    {
      var user: Entry := None;
      var i := 0;
      while i < |batch|
        invariant 0 <= i <= |batch|
        invariant Snapshot() == LogoutEntries(old(Snapshot()), batch[..i], LastEntry(batch))
      {
        assert batch[..i + 1][..i] == batch[..i];
        user := batch[i];
        if user.Some? && user.value in users {
          // The callback reads `user` only when it fires, after this loop has left it at the
          // batch's last entry.
          var h := SetTimeout(Timer(LastEntry(batch)));
          timouts := timouts[user.value := h];
        }
        i := i + 1;
      }
      assert batch[..i] == batch;
    }

    /** The event loop runs the callback of timer `h`; `fired` is false when `h` is no longer pending. */
    method FireTimer(h: Handle) returns (fired: bool)
      requires Valid()
      modifies this`log, this`pending
      ensures Valid()
      ensures fired == (h in old(pending))
      ensures Snapshot() == Presence.FireTimer(old(Snapshot()), h)
    {
      fired := h in pending;
      if fired {
        var user := pending[h].user;
        pending := pending - {h};
        log := log + [UsersLogoutModules(user)];
        LogoutUser(user);
      }
    }

    /** notificationReceived: replies to `GET_LOGGED_IN_USERS` with `users` as stored. */
    method NotificationReceived(notification: string)
      requires Valid()
      modifies this`log
      ensures Valid()
      ensures Snapshot() == Presence.NotificationReceived(old(Snapshot()), notification)
      ensures notification == "GET_LOGGED_IN_USERS" ==> log == old(log) + [LoggedInUsers(users)]
      ensures notification != "GET_LOGGED_IN_USERS" ==> log == old(log)
    {
      if notification == "GET_LOGGED_IN_USERS" {
        log := log + [LoggedInUsers(users)];
      }
    }
  }
}
