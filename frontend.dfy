/**
 * The game page's state and its handlers. `App` holds the page's state
 * (`useState` variables) and the browser's key-value store; each handler is
 * one atomic step. The clock, the wallet's replies and the outcome of
 * contract calls are parameters.
 */
module Frontend {
  import opened Wrappers
  import opened Scores
  import opened Leaderboard
  import opened LeaderboardProperties
  import opened Session

  /** Length of a round, in seconds. */
  const RoundSeconds: int := 60

  /** Number of cells on the board; hamsters appear in cells 0 to 15. */
  const GridCells: int := 16

  /** One element of the contract's `getTopScores` reply: player, score, timestamp. */
  datatype ScoreTuple = ScoreTuple(player: Address, score: int, timestamp: int)

  /** fetchLeaderboard's mapping of tuples to records, each with a play count of 1. */
  function FormatScores(topScores: seq<ScoreTuple>): (records: seq<Entry>)
    ensures |records| == |topScores|
    ensures forall k :: 0 <= k < |records| ==>
              && records[k].player == topScores[k].player
              && records[k].score == topScores[k].score
              && records[k].timestamp == topScores[k].timestamp
              && records[k].playCount == 1
  {
    seq(|topScores|, k requires 0 <= k < |topScores| =>
      Entry(topScores[k].player, topScores[k].score, topScores[k].timestamp, 1))
  }

  /** Every fetched tuple counts as one play. */
  lemma {:induction false} FormattedPlays(topScores: seq<ScoreTuple>)
    ensures TotalPlays(FormatScores(topScores)) == |topScores|
  {
    if topScores != [] {
      var init := topScores[..|topScores| - 1];
      FormattedPlays(init);
      assert FormatScores(topScores)[..|topScores| - 1] == FormatScores(init);
    }
  }

  /**
   * The fetched leaderboard accounts for every tuple of the reply: its play
   * counts add up to the number of tuples.
   */
  lemma FetchedBoardCountsEveryTuple(topScores: seq<ScoreTuple>)
    ensures TotalPlays(Ranked(FormatScores(topScores))) == |topScores|
  {
    RankedCountsEveryRecord(FormatScores(topScores));
  }

  /** Bonus points a score earns: one per full ten points. */
  function BonusPoints(score: int): (bonus: int)
    ensures 10 * bonus <= score < 10 * bonus + 10
  {
    score / 10
  }

  /** A higher score never earns fewer bonus points. */
  lemma BonusPointsMonotone(a: int, b: int)
    requires a <= b
    ensures BonusPoints(a) <= BonusPoints(b)
  {
  }

  class App {
    // Game state.
    var gameActive: bool
    var gameOver: bool
    var gameStarted: bool
    var score: int
    var timeLeft: int
    var activeHamster: Option<int>
    var bonusPointsEarned: int
    var showLeaderboard: bool
    var leaderboard: seq<Entry>

    // Wallet state; `hasContract` stands for a non-null `contract`.
    var walletConnected: bool
    var account: string
    var hasContract: bool

    // The browser's `localStorage`.
    var store: Store

    /** What every handler keeps true of the page's state. */
    ghost predicate Valid()
      reads this
    {
      && 0 <= timeLeft <= RoundSeconds
      && 0 <= score
      && 0 <= bonusPointsEarned <= BonusPoints(score)
      && !(gameActive && gameOver)
      && (gameActive ==> gameStarted)
      && (activeHamster.Some? ==> 0 <= activeHamster.value < GridCells)
    }

    twostate predicate GameUnchanged()
      reads this
    {
      && old(gameActive) == gameActive && old(gameOver) == gameOver && old(gameStarted) == gameStarted
      && old(score) == score && old(timeLeft) == timeLeft && old(activeHamster) == activeHamster
      && old(bonusPointsEarned) == bonusPointsEarned
      && old(showLeaderboard) == showLeaderboard && old(leaderboard) == leaderboard
    }

    twostate predicate WalletUnchanged()
      reads this
    {
      old(walletConnected) == walletConnected && old(account) == account && old(hasContract) == hasContract
    }

    /** The page as first rendered, over whatever the store already holds. */
    constructor (persisted: Store)
      ensures Valid()
      ensures !gameActive && !gameOver && !gameStarted && score == 0 && timeLeft == RoundSeconds
      ensures activeHamster == None && bonusPointsEarned == 0 && !showLeaderboard && leaderboard == []
      ensures !walletConnected && account == "" && !hasContract
      ensures store == persisted
    {
      gameActive, gameOver, gameStarted := false, false, false;
      score, timeLeft, activeHamster, bonusPointsEarned := 0, RoundSeconds, None, 0;
      showLeaderboard, leaderboard := false, [];
      walletConnected, account, hasContract := false, "", false;
      store := persisted;
    }

    /** Rewrites the session record for `accountAddress` with the time `now`. */
    method UpdateWalletTimestamp(accountAddress: string, now: int)
      modifies this`store
      ensures store == old(store)[StorageKey := WalletData(accountAddress, now)]
      ensures SessionAccount(store, now) == Some(accountAddress)
    {
      store := store[StorageKey := WalletData(accountAddress, now)];
    }

    /**
     * On page load: restores the stored session if it is readable, within
     * its window and its account is among the wallet's accounts; otherwise
     * discards it. `walletAccounts` is the wallet's reply, `None` when the
     * request or the signer lookup failed.
     */
    method CheckStoredWallet(now: int, hasEthereum: bool, walletAccounts: Option<seq<string>>)
      requires Valid()
      modifies this
      ensures Valid() && GameUnchanged()
      ensures StorageKey !in old(store) ==> store == old(store) && WalletUnchanged()
      ensures StorageKey in old(store) && old(store)[StorageKey].Unparsable? ==>
                store == old(store) - {StorageKey} && WalletUnchanged()
      ensures StorageKey in old(store) && old(store)[StorageKey].WalletData? ==>
                var stored := old(store)[StorageKey];
                if !WithinWindow(stored.timestamp, now) then
                  store == old(store) - {StorageKey} && WalletUnchanged()
                else if !hasEthereum then
                  store == old(store) && WalletUnchanged()
                else if walletAccounts.Some? && stored.account in walletAccounts.value then
                  && store == old(store)[StorageKey := WalletData(stored.account, now)]
                  && account == stored.account && walletConnected && hasContract
                else
                  store == old(store) - {StorageKey} && WalletUnchanged()
    {
      if StorageKey in store {
        var stored := store[StorageKey];
        match stored {
          case Unparsable =>
            store := store - {StorageKey};
          case WalletData(storedAccount, timestamp) =>
            if WithinWindow(timestamp, now) {
              if hasEthereum {
                UpdateWalletTimestamp(storedAccount, now);
                if walletAccounts.Some? && storedAccount in walletAccounts.value {
                  account := storedAccount;
                  hasContract := true;
                  walletConnected := true;
                } else {
                  // The account changed, or the wallet request threw.
                  store := store - {StorageKey};
                }
              }
            } else {
              store := store - {StorageKey};
            }
        }
      }
    }

    /**
     * The connect button: asks the wallet for its accounts, connects the
     * first one and records the session. `walletAccounts` is the wallet's
     * reply, `None` when the request or the signer lookup failed.
     */
    method ConnectWallet(now: int, hasEthereum: bool, walletAccounts: Option<seq<string>>)
      requires Valid()
      requires walletAccounts.Some? ==> |walletAccounts.value| > 0
      modifies this
      ensures Valid() && GameUnchanged()
      ensures !(hasEthereum && walletAccounts.Some?) ==> unchanged(this)
      ensures hasEthereum && walletAccounts.Some? ==>
                && account == walletAccounts.value[0] && walletConnected && hasContract
                && store == old(store)[StorageKey := WalletData(walletAccounts.value[0], now)]
                && SessionAccount(store, now) == Some(account)
    {
      if hasEthereum && walletAccounts.Some? {
        var accounts := walletAccounts.value;
        account := accounts[0];
        hasContract := true;
        walletConnected := true;
        UpdateWalletTimestamp(accounts[0], now);
      }
    }

    /** The wallet reports a new account list. */
    method HandleAccountsChanged(accounts: seq<string>, now: int)
      requires Valid()
      modifies this
      ensures Valid() && GameUnchanged() && hasContract == old(hasContract)
      ensures |accounts| == 0 ==>
                && !walletConnected && account == ""
                && store == old(store) - {StorageKey}
                && SessionAccount(store, now) == None
      ensures |accounts| > 0 ==>
                && walletConnected == old(walletConnected) && account == accounts[0]
                && store == old(store)[StorageKey := WalletData(accounts[0], now)]
                && SessionAccount(store, now) == Some(accounts[0])
    {
      if |accounts| == 0 {
        walletConnected := false;
        account := "";
        store := store - {StorageKey};
      } else {
        account := accounts[0];
        UpdateWalletTimestamp(accounts[0], now);
      }
    }

    /**
     * Replaces the leaderboard with the aggregated `getTopScores` reply;
     * `None` is a failed call, which leaves it as it was.
     */
    method FetchLeaderboard(topScores: Option<seq<ScoreTuple>>)
      modifies this`leaderboard
      ensures leaderboard == if topScores.Some? then Ranked(FormatScores(topScores.value)) else old(leaderboard)
    {
      if topScores.Some? {
        var formatted := FormatScores(topScores.value);
        leaderboard := ProcessLeaderboard(formatted);
      }
    }

    /** Starts a round, which needs a connected wallet; refreshes the session. */
    method StartGame(now: int)
      requires Valid()
      modifies this
      ensures Valid()
      ensures !old(walletConnected) ==> unchanged(this)
      ensures old(walletConnected) ==>
                && gameStarted && gameActive && !gameOver
                && score == 0 && timeLeft == RoundSeconds && activeHamster == None && bonusPointsEarned == 0
                && showLeaderboard == old(showLeaderboard) && leaderboard == old(leaderboard)
                && WalletUnchanged()
                && store == old(store)[StorageKey := WalletData(account, now)]
    {
      if !walletConnected {
        return;
      }
      gameStarted, gameActive, gameOver := true, true, false;
      score, timeLeft, activeHamster, bonusPointsEarned := 0, RoundSeconds, None, 0;
      UpdateWalletTimestamp(account, now);
    }

    /**
     * Records the round's score with the contract. Nothing happens without a
     * contract or a positive score; `confirmed` is whether the transaction
     * went through.
     */
    method SubmitScore(now: int, confirmed: bool)
      requires Valid()
      modifies this
      ensures Valid()
      ensures !old(hasContract) || old(score) <= 0 || !confirmed ==> unchanged(this)
      ensures old(hasContract) && old(score) > 0 && confirmed ==>
                && bonusPointsEarned == BonusPoints(score)
                && store == old(store)[StorageKey := WalletData(account, now)]
                && score == old(score) && gameActive == old(gameActive) && gameOver == old(gameOver)
                && gameStarted == old(gameStarted) && timeLeft == old(timeLeft)
                && activeHamster == old(activeHamster) && showLeaderboard == old(showLeaderboard)
                && leaderboard == old(leaderboard) && WalletUnchanged()
    {
      if !hasContract || score <= 0 {
        return;
      }
      if confirmed {
        bonusPointsEarned := BonusPoints(score);
        UpdateWalletTimestamp(account, now);
      }
    }

    /** Ends the round and, with a positive score and a wallet, submits it. */
    method EndGame(now: int, confirmed: bool)
      requires Valid()
      modifies this
      ensures Valid() && WalletUnchanged()
      ensures !gameActive && gameOver
      ensures score == old(score) && timeLeft == old(timeLeft) && gameStarted == old(gameStarted)
      ensures activeHamster == old(activeHamster)
      ensures showLeaderboard == old(showLeaderboard) && leaderboard == old(leaderboard)
      ensures bonusPointsEarned ==
                if score > 0 && walletConnected && hasContract && confirmed
                then BonusPoints(score) else old(bonusPointsEarned)
      ensures store ==
                if score > 0 && walletConnected && hasContract && confirmed
                then old(store)[StorageKey := WalletData(account, now)] else old(store)
    {
      gameActive := false;
      gameOver := true;
      if score > 0 && walletConnected {
        SubmitScore(now, confirmed);
      }
    }

    /**
     * One run of the timer effect: a second passes while the round is on and
     * time is left; at zero the round ends.
     */
    method Tick(now: int, confirmed: bool)
      requires Valid()
      modifies this
      ensures Valid()
      ensures !old(gameActive) ==> unchanged(this)
      ensures old(gameActive) && old(timeLeft) > 0 ==>
                && timeLeft == old(timeLeft) - 1 && gameActive
                && gameOver == old(gameOver) && gameStarted == old(gameStarted)
                && score == old(score) && activeHamster == old(activeHamster)
                && bonusPointsEarned == old(bonusPointsEarned)
                && showLeaderboard == old(showLeaderboard) && leaderboard == old(leaderboard)
                && WalletUnchanged() && store == old(store)
      ensures old(gameActive) && old(timeLeft) == 0 ==>
                && !gameActive && gameOver && timeLeft == 0
                && gameStarted == old(gameStarted) && score == old(score) && activeHamster == old(activeHamster)
                && showLeaderboard == old(showLeaderboard) && leaderboard == old(leaderboard)
                && WalletUnchanged()
                && bonusPointsEarned ==
                     (if old(score) > 0 && old(walletConnected) && old(hasContract) && confirmed
                      then BonusPoints(old(score)) else old(bonusPointsEarned))
                && store ==
                     (if old(score) > 0 && old(walletConnected) && old(hasContract) && confirmed
                      then old(store)[StorageKey := WalletData(old(account), now)] else old(store))
    {
      if gameActive && timeLeft > 0 {
        timeLeft := timeLeft - 1;
      } else if timeLeft == 0 && gameActive {
        EndGame(now, confirmed);
      }
    }

    /** A hamster appears in cell `position`, if the round is on. */
    method ShowHamster(position: int)
      requires Valid()
      requires 0 <= position < GridCells
      modifies this`activeHamster
      ensures Valid()
      ensures activeHamster == if gameActive then Some(position) else old(activeHamster)
    {
      if gameActive {
        activeHamster := Some(position);
      }
    }

    /** The hamster hides again. */
    method HideHamster()
      requires Valid()
      modifies this`activeHamster
      ensures Valid() && activeHamster == None
    {
      activeHamster := None;
    }

    /** A hit on `position` scores one point, only on the active cell. */
    method HitHamster(position: int)
      requires Valid()
      modifies this`score, this`activeHamster
      ensures Valid()
      ensures old(activeHamster) == Some(position) ==> score == old(score) + 1 && activeHamster == None
      ensures old(activeHamster) != Some(position) ==> score == old(score) && activeHamster == old(activeHamster)
    {
      if activeHamster == Some(position) {
        BonusPointsMonotone(score, score + 1);
        score := score + 1;
        activeHamster := None;
      }
    }

    /** A click on a board cell; the board passes it on only while the round is on. */
    method ClickCell(index: int)
      requires Valid()
      requires 0 <= index < GridCells
      modifies this`score, this`activeHamster
      ensures Valid()
      ensures score == if old(gameActive) && old(activeHamster) == Some(index) then old(score) + 1 else old(score)
      ensures old(gameActive) && old(activeHamster) == Some(index) ==> activeHamster == None
      ensures !(old(gameActive) && old(activeHamster) == Some(index)) ==> activeHamster == old(activeHamster)
    {
      if gameActive {
        HitHamster(index);
      }
    }

    /** Back to the home screen; refreshes the session of a connected wallet. */
    method ResetGame(now: int)
      requires Valid()
      modifies this
      ensures Valid() && WalletUnchanged()
      ensures !gameStarted && !gameActive && !gameOver
      ensures score == old(score) && timeLeft == old(timeLeft) && bonusPointsEarned == old(bonusPointsEarned)
      ensures activeHamster == old(activeHamster)
      ensures showLeaderboard == old(showLeaderboard) && leaderboard == old(leaderboard)
      ensures store == if walletConnected then old(store)[StorageKey := WalletData(account, now)] else old(store)
    {
      gameStarted, gameActive, gameOver := false, false, false;
      if walletConnected {
        UpdateWalletTimestamp(account, now);
      }
    }

    /** Shows or hides the leaderboard; refreshes the session of a connected wallet. */
    method ToggleLeaderboard(now: int)
      requires Valid()
      modifies this
      ensures Valid() && WalletUnchanged()
      ensures showLeaderboard == !old(showLeaderboard)
      ensures gameActive == old(gameActive) && gameOver == old(gameOver) && gameStarted == old(gameStarted)
      ensures score == old(score) && timeLeft == old(timeLeft) && activeHamster == old(activeHamster)
      ensures bonusPointsEarned == old(bonusPointsEarned) && leaderboard == old(leaderboard)
      ensures store == if walletConnected then old(store)[StorageKey := WalletData(account, now)] else old(store)
    {
      showLeaderboard := !showLeaderboard;
      if walletConnected {
        UpdateWalletTimestamp(account, now);
      }
    }
  }

  /**
   * A round started with a connected wallet and left to the timer lasts
   * exactly `RoundSeconds` ticks: after that many it is still on with no
   * time left, and the next tick ends it.
   */
  method PlayRoundToEnd(app: App, now: int)
    requires app.Valid() && app.walletConnected
    modifies app
    ensures app.Valid() && !app.gameActive && app.gameOver && app.timeLeft == 0
  {
    app.StartGame(now);
    for second := 0 to RoundSeconds
      invariant app.Valid() && app.gameActive
      invariant app.timeLeft == RoundSeconds - second
    {
      app.Tick(now, false);
    }
    app.Tick(now, false);
  }
}
