# MMM-Face-Reco-DNN: presence tracking and class sets

A Dafny model of the browser-side part of the MagicMirror module MMM-Face-Reco-DNN.
An external detector reports batches of recognised users as `login` and `logout`
events. The module announces profiles to the other mirror modules, debounces
logouts with timers, and answers queries for the logged-in users. It also derives
the class lists that select which mirror modules each state shows.

Files:

- `wrappers.dfy`: `Option`, standing for a user id that may be `null`.
- `notifications.dfy`: the notifications the module broadcasts (`CURRENT_PROFILE`,
  `USERS_LOGIN`, `USERS_LOGOUT_MODULES`, `USERS_LOGOUT`, `LOGGED_IN_USERS`).
- `class_sets.dfy`: the per-state class lists built in `start`, and `get_class_set`
  as a loop proved against a set-union specification.
- `presence.dfy`: the presence state as a value (`Tracker`), each handler as a pure
  transition, reference definitions of what a batch does, and the lemmas.
- `face_reco_module.dfy`: the module instance as a class. Its fields are updated in
  place by the handlers. Each method is proved to produce the `Presence` transition.

Timers are a map from handle to pending callback. `setTimeout` hands out the next
handle and `clearTimeout` removes a handle. `FireTimer` runs one pending callback;
the event loop may pick any pending handle. Notifications are an append-only log.

The model follows the code as written. In four ways the code does not do what its own
comments and log messages describe:

- The comments say a detected user is logged in (MMM-Face-Reco-DNN.js:219, :230) and that only
  logged-in users can log out (:262). But logging a user in never adds them to `users`,
  and logging out never removes them. No code in this file ever changes `users`, so it
  stays empty unless another module changes the array it receives with `LOGGED_IN_USERS`. Every non-null login is announced, even a repeated one
  (`RepeatedLoginAnnouncedAgain`). No logout ever arms a timer (`EmptyUsersConsequences`).
- The comments say a detection during the delay starts the delay again (:12-13) and that
  clearing the timers keeps the user logged in (:241). But re-arming a logout timer
  overwrites the handle without clearing the earlier timer. A later login then clears
  only the newest timer, and the older one still fires (`RepeatedLogoutOrphansTimer`). The
  same happens within one batch that names a user twice (`LogoutOrphansEarlierTimer`).
- The log message at :264 names the user the timer is set for. But the callback reads the
  handler's function-scoped `user` variable only when it fires. It therefore reports the
  last entry of its batch, which may be `null` (`LogoutTimerCapturesLast`).
- The log message at :280 reports the number of logouts. But the logout counter is only
  incremented inside callbacks, so the handler never sends `USERS_LOGOUT`
  (`LogoutSendsNothing`, `UsersLogoutNeverSent`).

## Model

| member | source | states |
|---|---|---|
| ClassSets.DeriveClasses | MMM-Face-Reco-DNN.js:78-80 | every state list holds the "always" class; unknown and known hold "everyone"; no-face and unknown hold "default"; each list holds its own state class and nothing else |
| ClassSets.DefaultStatesSeparate | MMM-Face-Reco-DNN.js:18-28 | with the default labels the known state does not show "default" modules, and each state's own class appears in no other state's list |
| ClassSets.KnownLacksDefault | MMM-Face-Reco-DNN.js:80 | for any labels, the known list holds the default class iff it equals the known, everyone or always class |
| ClassSets.GetClassSet | MMM-Face-Reco-DNN.js:113-137 | the result has no duplicates, holds exactly the labels of all input lists, and its length is the number of distinct labels |
| ClassSets.PushKeys | MMM-Face-Reco-DNN.js:131-134 | every key of the class set is pushed exactly once, so the result has no duplicates and holds exactly the set |
| ClassSets.CoveredContributorAbsorbed | MMM-Face-Reco-DNN.js:122-128 | adding a user whose labels all occur among the other users' labels leaves the union unchanged |
| ClassSets.RepeatedContributorAbsorbed | MMM-Face-Reco-DNN.js:122-128 | adding a copy of an existing user's label list leaves the union unchanged |
| Presence.Init | MMM-Face-Reco-DNN.js:65-66 | the initial state has no logged-in users and satisfies the handle invariant |
| Presence.Present | MMM-Face-Reco-DNN.js:222-223 | the non-null entries of a batch are exactly the users named in it |
| Presence.Filter | MMM-Face-Reco-DNN.js:229 | keeps exactly the users whose membership in `users` is as asked |
| Presence.LoginStep | MMM-Face-Reco-DNN.js:223-249 | one login iteration extends the reference result by one user and counts 1 exactly when that login is admitted |
| Presence.LoginEntriesEffect | MMM-Face-Reco-DNN.js:222-251 | the login loop sends `CURRENT_PROFILE` for the admitted users in batch order, clears the recorded timer of every non-null user, changes nothing else, and counts the admitted users |
| Presence.LoginEffect | MMM-Face-Reco-DNN.js:220-257 | a login batch is that loop followed by one `USERS_LOGIN` with the original batch exactly when a login was admitted |
| Presence.LoginLog | MMM-Face-Reco-DNN.js:221-257 | the notifications of a login batch are the `CURRENT_PROFILE`s of the admitted users in batch order, then `USERS_LOGIN` iff there was at least one |
| Presence.LoginProfileIff | MMM-Face-Reco-DNN.js:227-239 | `CURRENT_PROFILE(u)` is sent iff `u` is in the batch, nobody or fewer than `multiUser` users are logged in, and `u` is not logged in |
| Presence.LoginBatchSignal | MMM-Face-Reco-DNN.js:253-257 | `USERS_LOGIN` is sent at most once per batch, after every `CURRENT_PROFILE`, carrying the batch, and iff some login was admitted |
| Presence.LoginKeepsState | MMM-Face-Reco-DNN.js:241-249 | a login batch leaves `users`, `timouts` and the handle counter unchanged and clears the recorded timer of each non-null user, admitted or not |
| Presence.LoginCancelIdempotent | MMM-Face-Reco-DNN.js:242-249 | the `timouts` key is not deleted, so repeating a login batch clears nothing more |
| Presence.LoginSkipsNull | MMM-Face-Reco-DNN.js:223 | a null entry in a login batch has no effect on the loop |
| Presence.SingleUserMode | MMM-Face-Reco-DNN.js:227 | with `multiUser` 0 or 1 a login is admitted only while nobody is logged in |
| Presence.LoginFreshBatch | MMM-Face-Reco-DNN.js:220-257 | when a login is admitted and nobody in the batch is logged in, every non-null entry gets a `CURRENT_PROFILE` in batch order, followed by one `USERS_LOGIN` with the batch |
| Presence.FilterNoneLoggedIn | MMM-Face-Reco-DNN.js:229 | users none of whom is logged in all pass the "not already logged in" test, in order |
| Presence.LoginSingleFresh | MMM-Face-Reco-DNN.js:227-256 | logging in one user who is not logged in, with room for a login, sends `CURRENT_PROFILE(u)` then `USERS_LOGIN` and leaves `users` unchanged |
| Presence.LoginSinglePresent | MMM-Face-Reco-DNN.js:227-249 | logging in a user who is already present sends nothing and only clears their recorded timer |
| Presence.LogoutStep | MMM-Face-Reco-DNN.js:263-272 | one logout iteration for a logged-in user arms one more timer under the next handle and records exactly that handle for that user |
| Presence.LogoutEntriesEffect | MMM-Face-Reco-DNN.js:260-277 | the logout loop arms one fresh timer per logged-in non-null entry, keeps every earlier timer, points each of those users at the handle armed for their last occurrence in the batch, leaves other `timouts` entries alone, and sends nothing |
| Presence.LogoutEffect | MMM-Face-Reco-DNN.js:258-277 | the same for a whole logout batch, with every timer reporting the batch's last entry |
| Presence.LogoutSendsNothing | MMM-Face-Reco-DNN.js:279-282 | a logout batch sends no notification, in particular no `USERS_LOGOUT`, and leaves `users` unchanged |
| Presence.LogoutEntriesIgnoreAbsent | MMM-Face-Reco-DNN.js:261-275 | a logout loop over users who are not logged in changes nothing |
| Presence.LogoutIgnoresAbsent | MMM-Face-Reco-DNN.js:263-275 | a logout batch of users who are not logged in leaves the whole state unchanged |
| Presence.LogoutSingle | MMM-Face-Reco-DNN.js:263-272 | logging out one present user arms exactly one timer under the next handle and records it for that user |
| Presence.LogoutTimerCapturesLast | MMM-Face-Reco-DNN.js:265-272 | every timer a logout batch arms reports the batch's last entry, whichever user it was armed for |
| Presence.RearmKeepsEarlierTimer | MMM-Face-Reco-DNN.js:265 | re-arming a user keeps their earlier pending timer unchanged, while their handle now names a fresh pending timer armed in this batch, the one for their last occurrence, reporting the batch's last entry |
| Presence.LogoutOrphansEarlierTimer | MMM-Face-Reco-DNN.js:242-272 | when one logout batch arms a user twice, the earlier timer stays pending, no recorded handle names it, and no later login batch clears it |
| Presence.LoginSparesUnrecorded | MMM-Face-Reco-DNN.js:242-249 | a login batch clears only handles recorded in `timouts`; any other pending timer survives unchanged |
| Presence.LogoutEntriesSkipNull | MMM-Face-Reco-DNN.js:261 | a null entry has no effect on the logout loop |
| Presence.LogoutSkipsNull | MMM-Face-Reco-DNN.js:261 | a null entry that is not the last one has no effect on a logout batch |
| Presence.FireTimerEffect | MMM-Face-Reco-DNN.js:265-272 | a firing timer sends `USERS_LOGOUT_MODULES` with its captured entry, then `CURRENT_PROFILE("default")`, and removes only itself; a handle that is not pending does nothing |
| Presence.ValidPreserved | MMM-Face-Reco-DNN.js:215-284 | every handler and timer keeps every used handle below the next handle |
| Presence.UsersNeverChange | MMM-Face-Reco-DNN.js:104-110 | no handler or timer changes `users`, and `GET_LOGGED_IN_USERS` replies with `users` as stored |
| Presence.LoginSendsNoLogout | MMM-Face-Reco-DNN.js:220-257 | a login batch only appends to the log, and nothing it appends is `USERS_LOGOUT` |
| Presence.UsersLogoutNeverSent | MMM-Face-Reco-DNN.js:279-282 | no handler or timer ever sends `USERS_LOGOUT` |
| Presence.EmptyUsersConsequences | MMM-Face-Reco-DNN.js:66 | while `users` is empty every non-null login is admitted and every logout batch changes nothing |
| Presence.RepeatedLoginAnnouncedAgain | MMM-Face-Reco-DNN.js:104-106 | from an empty `users`, logging the same user in twice announces the profile twice |
| Presence.DebounceFire | MMM-Face-Reco-DNN.js:263-272 | logging out a present user and letting its timer fire sends `USERS_LOGOUT_MODULES(u)` then `CURRENT_PROFILE("default")`, and the user stays in `users` |
| Presence.DebounceCancel | MMM-Face-Reco-DNN.js:242-249 | logout followed by login of the same present user clears the armed timer and sends nothing |
| Presence.RepeatedLogoutOrphansTimer | MMM-Face-Reco-DNN.js:265 | after two logouts and a login of one user the first timer is still pending and, when it fires, announces the logout |
| FaceRecoModule.FaceReco.constructor | MMM-Face-Reco-DNN.js:65-66 | a new instance has no users, no timers and an empty log |
| FaceRecoModule.FaceReco.Start | MMM-Face-Reco-DNN.js:70-82 | the class lists are set to those derived from the configured labels |
| FaceRecoModule.FaceReco.LoginUser | MMM-Face-Reco-DNN.js:104-106 | sends `CURRENT_PROFILE(name)` and changes nothing else |
| FaceRecoModule.FaceReco.LogoutUser | MMM-Face-Reco-DNN.js:108-110 | sends `CURRENT_PROFILE("default")` whatever the name and changes nothing else |
| FaceRecoModule.FaceReco.ClearTimeout | MMM-Face-Reco-DNN.js:246 | the handle is no longer pending; any other timer is untouched |
| FaceRecoModule.FaceReco.SetTimeout | MMM-Face-Reco-DNN.js:265-272 | a new timer is pending under the next handle, which is returned |
| FaceRecoModule.FaceReco.SocketNotificationReceived | MMM-Face-Reco-DNN.js:215-284 | dispatches on the payload action to the login or logout branch; the result is the `Presence` transition, keeps the handle invariant and leaves `users` unchanged |
| FaceRecoModule.FaceReco.HandleLogin | MMM-Face-Reco-DNN.js:220-257 | the login loop, updating the fields in place, yields exactly `Presence.Login` of the batch |
| FaceRecoModule.FaceReco.HandleLogout | MMM-Face-Reco-DNN.js:258-283 | the logout loop, arming timers in place, yields exactly `Presence.Logout` of the batch |
| FaceRecoModule.FaceReco.FireTimer | MMM-Face-Reco-DNN.js:265-272 | runs the callback of a pending timer as `Presence.FireTimer` does, and reports whether the handle was pending |
| FaceRecoModule.FaceReco.NotificationReceived | MMM-Face-Reco-DNN.js:300-303 | `GET_LOGGED_IN_USERS` appends `LOGGED_IN_USERS` with `users` exactly as stored; any other notification sends nothing |

## Left out

- `show_modules`, `hide_modules` and the `DOM_OBJECTS_CREATED` branch: they only call the mirror's module selection and animation API, whose behaviour is not part of this model.
- Debug logging, the `CONFIG` socket notification sent by `start`, and `getTranslations`: output and static tables.
- The camera, Python, dataset and `tolerance` settings: they configure the external detector process.
- Real time: `logoutDelay` and `checkInterval` are not modelled. A pending timer may fire at any later point, in any order relative to other timers.
- Payloads without a `users` array. The code would throw on them; in the model every payload carries one.
- `logoutCount++` inside the callback: it changes a variable of a handler run that has already finished, so nothing can observe it.
- ClassSets.GetClassSet: the order of the result is not specified. The source returns integer-like labels first, in ascending order, then the others in first-seen order.
- ClassSets.GetClassSet: labels are plain keys. A label that names a special property of a JavaScript array (`length`, `__proto__`) is not treated specially.
- Presence.LoginOne, Presence.LogoutOne: `timouts` keys are plain map keys. In the code `timouts` is a plain object, so a user named `__proto__` behaves differently; it is the only accessor property of `Object.prototype`. Storing a handle under `__proto__` is ignored, and the `!= null` test then reads the prototype, so `clearTimeout` receives no handle and the timer survives the login. The model records and clears that handle like any other, so `DebounceCancel` and the login lemmas do not describe such user names.
- `LOGGED_IN_USERS` hands out the `users` array by reference (MMM-Face-Reco-DNN.js:302). The model sends a copy and does not model another module changing it, which would change the admission guard (:227) and the logout test (:263). The `Presence` lemmas hold for any `users`.
- MMM-Face-Reco-DNN.js:103 lacks its `//`, so as written the file does not parse. The model reads the line as the separator comment its neighbours (:102, :107) are.
- Loose equality: `user != null` also skips `undefined`. Both are the model's `None`.
- Timer handles: the code only stores a handle and passes it to `clearTimeout`, so only its freshness matters. The model counts handles per instance from 1. In a browser, every timer on the page shares one counter, so this module's handles need not start at 1 or be consecutive. The exact handles named in `LogoutSingle`, `DebounceFire` and `RepeatedLogoutOrphansTimer` describe the model's counter, not the browser's. Node.js timer objects are not modelled.
