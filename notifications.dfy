/**
 * The notifications the module broadcasts to the other modules of the mirror
 * (`sendNotification`). The model keeps them as an append-only log.
 */
module Notifications {
  import opened Wrappers

  /** The profile name `logout_user` announces; it is a literal, not the configured default class. */
  const DEFAULT_PROFILE: string := "default"

  datatype Notification =
    | CurrentProfile(profile: string)
    | UsersLogin(batch: seq<Option<string>>)
    | UsersLogoutModules(user: Option<string>)
    | UsersLogout(batch: seq<Option<string>>)
    | LoggedInUsers(users: seq<string>)
}
