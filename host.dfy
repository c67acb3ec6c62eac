/**
 * What the plugin sees of the server and of the login backend. Players are
 * handles with a name and a UUID; the backend is a table of the answers its
 * wrapper methods give for one player (each wrapper answers false when the
 * backend is disabled or its call throws, so a disabled backend is a table of
 * false answers).
 */
module Host {
  import opened Wrappers

  type Uuid = nat

  datatype Player = Player(name: string, uuid: Uuid)

  /** What the plugin makes the server do for a player: the effect of a
      configured action string, or a message sent by its key. */
  datatype Effect =
    | Kick(reason: string)     // player.kickPlayer
    | Tell(text: string)       // player.sendMessage
    | Dispatch(command: string) // console command
    | Notify(key: string, placeholders: Option<map<string, string>>) // messageManager.sendMessage

  /** The answers of the backend wrapper (AuthMeManager) about one player. */
  datatype PlayerAuth = PlayerAuth(
    enabled: bool,                // isAuthMeEnabled()
    registered: bool,             // the backend's own isRegistered
    loggedIn: bool,               // the backend's own isAuthenticated
    accepts: string -> bool,      // checkPassword answers for each password
    forceLoginWorks: bool,        // forceLogin did not throw
    registerWorks: string -> bool // registerPlayer did not throw, per password
  )

  predicate IsPlayerRegistered(a: PlayerAuth) { a.enabled && a.registered }

  predicate IsPlayerLoggedIn(a: PlayerAuth) { a.enabled && a.loggedIn }

  predicate CheckPassword(a: PlayerAuth, password: string) { a.enabled && a.accepts(password) }

  predicate ForceLogin(a: PlayerAuth) { a.enabled && a.forceLoginWorks }

  predicate RegisterPlayer(a: PlayerAuth, password: string) { a.enabled && a.registerWorks(password) }

  /** An iteration order of a hash map's or set's keys: each key exactly
      once, in an order the model does not fix. */
  predicate Enumerates<K>(order: seq<K>, keys: set<K>) {
    && |order| == |keys|
    && (forall k :: k in order ==> k in keys)
    && (forall k :: k in keys ==> k in order)
  }
}
