/**
 * The wallet session that the front end keeps in the browser's `localStorage`
 * under the single key "walletConnection": the connected account and the
 * time (integer milliseconds) of the last activity. A session is good for 15
 * days after the last activity; every qualifying action rewrites it.
 */
module Session {
  import opened Wrappers

  /** The one storage key the session uses. */
  const StorageKey: string := "walletConnection"

  /** 15 days, in milliseconds. */
  const SessionWindowMs: int := 15 * 24 * 60 * 60 * 1000

  /**
   * What `JSON.parse` makes of the stored text: a session record, or text it
   * cannot read (the source's catch-all error path).
   */
  datatype StoredItem = WalletData(account: string, timestamp: int) | Unparsable

  /** The browser's key-value store: each key holds one item. */
  type Store = map<string, StoredItem>

  /** A record written at `timestamp` is still valid at `now`. */
  predicate WithinWindow(timestamp: int, now: int) {
    now - timestamp < SessionWindowMs
  }

  /**
   * The account whose session the store holds at `now`: present when the key
   * holds a readable record that is still within its window.
   */
  function SessionAccount(store: Store, now: int): Option<string> {
    if StorageKey in store && store[StorageKey].WalletData? && WithinWindow(store[StorageKey].timestamp, now)
    then Some(store[StorageKey].account)
    else None
  }

  /**
   * The 15-day boundary: a record exactly 15 days old, or older, is expired;
   * one a millisecond younger is not.
   */
  lemma WindowBoundary(now: int)
    ensures !WithinWindow(now - SessionWindowMs - 1, now)
    ensures !WithinWindow(now - SessionWindowMs, now)
    ensures WithinWindow(now - SessionWindowMs + 1, now)
  {
  }

  /**
   * A record rewritten at time `written` vouches for its account until 15
   * days later and not after: the window slides with every rewrite.
   */
  lemma RefreshedSessionLasts(store: Store, account: string, written: int, now: int)
    requires written <= now
    ensures SessionAccount(store[StorageKey := WalletData(account, written)], now) ==
            if now < written + SessionWindowMs then Some(account) else None
  {
  }
}
