/**
 * The records the raid handlers of app.py read and write (users, maps,
 * raid sessions and the transaction ledger), the game's money constants,
 * and the invariant every handler keeps.  Money is in integer hundredths
 * of the source's currency unit: the fee of 0.1 is 10.
 */
module GameState {
  import opened Grid

  const FEE: int := 10
  const EMPTY_REWARD: int := 1
  const CHEST_REWARD: int := 5
  const CLAIM_REWARD: int := 100
  const START_BALANCE: int := 100
  const START_CREDITS: int := 5
  /** Seconds from the start of a raid to its expiry. */
  const SESSION_SECONDS: int := 120
  /** A dig reports the stage complete once the map's dug list is this long. */
  const STAGE_TARGET: nat := 12
  const FIRST_STAGE: int := 1

  datatype User = User(username: string, balance: int, credits: int)

  /** A stored map; its id is its position in the store plus one. */
  datatype MapRecord = MapRecord(creator: int, grid: seq<int>, dug: seq<int>, active: bool)

  datatype Status = Active | Dead | Hurt | Timeout | Completed

  /** A raid session; its id is its position in the store plus one. */
  datatype Session = Session(player: int, mapId: int, stage: int, status: Status, earnings: int,
                             history: seq<int>, createdAt: int, expiresAt: int)

  datatype TxKind = RaidEntry | RaidWin | TombClaim

  datatype Transaction = Transaction(user: int, amount: int, kind: TxKind)

  function DigitChar(d: nat): char
    requires d < 10
  {
    ('0' as int + d) as char
  }

  function Digits(n: nat): string
  {
    if n < 10 then [DigitChar(n)] else Digits(n / 10) + [DigitChar(n % 10)]
  }

  /** `f'user_{user_id}'` */
  function Username(id: int): string
  {
    "user_" + (if id < 0 then "-" + Digits(-id) else Digits(id))
  }

  /** The row `login` inserts for a first-time caller: balance 1.0, five build credits. */
  function NewUser(id: int): User
  {
    User(Username(id), START_BALANCE, START_CREDITS)
  }

  /** What an opened cell that is neither trap nor pit pays: 0.05 for a chest cell, 0.01 otherwise. */
  function CellReward(code: int): nat
  {
    if code == CHEST then CHEST_REWARD else EMPTY_REWARD
  }

  /** What a dig history has earned, cell by cell. */
  function RewardSum(grid: seq<int>, history: seq<int>): nat
  {
    if history == [] then 0
    else
      var x := history[|history| - 1];
      RewardSum(grid, history[..|history| - 1]) + (if 0 <= x < |grid| then CellReward(grid[x]) else 0)
  }

  /** The sum of the ledger entries of user `u`. */
  function LedgerSum(ledger: seq<Transaction>, u: int): int
  {
    if ledger == [] then 0
    else
      var t := ledger[|ledger| - 1];
      LedgerSum(ledger[..|ledger| - 1], u) + (if t.user == u then t.amount else 0)
  }

  /** How many stored maps user `u` created. */
  function MapsBy(maps: seq<MapRecord>, u: int): nat
  {
    if maps == [] then 0
    else MapsBy(maps[..|maps| - 1], u) + (if maps[|maps| - 1].creator == u then 1 else 0)
  }

  /** `balance_row['balance'] if balance_row else 0.0` */
  function Balance(users: map<int, User>, u: int): int
  {
    if u in users then users[u].balance else 0
  }

  // ---------------------------------------------------------------------
  // The store invariant.

  /**
   * A user's balance is the starting balance plus their ledger entries and
   * never negative; their credits are the starting credits less the maps
   * they built.
   */
  ghost predicate AccountOk(users: map<int, User>, maps: seq<MapRecord>, ledger: seq<Transaction>, u: int)
    requires u in users
  {
    && users[u].balance == START_BALANCE + LedgerSum(ledger, u)
    && users[u].balance >= 0
    && users[u].credits >= 0
    && users[u].credits + MapsBy(maps, u) == START_CREDITS
  }

  /** Every opened cell of a map lies on its grid. */
  predicate DugOnGrid(m: MapRecord)
  {
    forall k :: 0 <= k < |m.dug| ==> 0 <= m.dug[k] < |m.grid|
  }

  /** A stored map has a known creator, a well-formed layout and opened cells on the grid. */
  ghost predicate MapOk(users: map<int, User>, m: MapRecord)
  {
    && m.creator in users
    && WellFormed(m.grid)
    && DugOnGrid(m)
  }

  /**
   * A session's private history holds distinct cells, each also in the
   * map's shared dug list and none a trap or a pit.
   */
  ghost predicate HistoryOk(history: seq<int>, m: MapRecord)
  {
    && (forall k, l :: 0 <= k < l < |history| ==> history[k] != history[l])
    && forall k :: 0 <= k < |history| ==>
        && 0 <= history[k] < |m.grid|
        && history[k] in m.dug
        && m.grid[history[k]] != TRAP
        && m.grid[history[k]] != PIT
  }

  /** A session belongs to a known player and a stored map, and has earned what its history pays. */
  ghost predicate SessionOk(users: map<int, User>, maps: seq<MapRecord>, s: Session)
  {
    && s.player in users
    && 1 <= s.mapId <= |maps|
    && s.expiresAt == s.createdAt + SESSION_SECONDS
    && HistoryOk(s.history, maps[s.mapId - 1])
    && s.earnings == RewardSum(maps[s.mapId - 1].grid, s.history)
  }

  /** A ledger entry names a known user and carries the amount its kind calls for. */
  ghost predicate EntryOk(users: map<int, User>, t: Transaction)
  {
    && t.user in users
    && (t.kind == RaidEntry ==> t.amount == -FEE)
    && (t.kind == RaidWin ==> t.amount >= 0)
    && (t.kind == TombClaim ==> t.amount == CLAIM_REWARD)
  }

  ghost predicate Consistent(users: map<int, User>, maps: seq<MapRecord>, sessions: seq<Session>,
                             ledger: seq<Transaction>)
  {
    && (forall u {:trigger AccountOk(users, maps, ledger, u)} :: u in users ==> AccountOk(users, maps, ledger, u))
    && (forall j {:trigger MapOk(users, maps[j])} :: 0 <= j < |maps| ==> MapOk(users, maps[j]))
    && (forall i {:trigger SessionOk(users, maps, sessions[i])} :: 0 <= i < |sessions| ==> SessionOk(users, maps, sessions[i]))
    && (forall k {:trigger EntryOk(users, ledger[k])} :: 0 <= k < |ledger| ==> EntryOk(users, ledger[k]))
  }

  /** Every balance is the starting balance plus the user's ledger entries, and is never negative. */
  lemma BalanceMatchesLedger(users: map<int, User>, maps: seq<MapRecord>, sessions: seq<Session>,
                             ledger: seq<Transaction>, u: int)
    requires Consistent(users, maps, sessions, ledger) && u in users
    ensures Balance(users, u) == START_BALANCE + LedgerSum(ledger, u) >= 0
  {
    assert AccountOk(users, maps, ledger, u);
  }

  /** No user has built more maps than the five starting credits allow. */
  lemma BuiltAtMostCredits(users: map<int, User>, maps: seq<MapRecord>, sessions: seq<Session>,
                           ledger: seq<Transaction>, u: int)
    requires Consistent(users, maps, sessions, ledger)
    ensures MapsBy(maps, u) <= START_CREDITS
  {
    if u in users {
      assert AccountOk(users, maps, ledger, u);
    } else {
      forall j | 0 <= j < |maps| ensures maps[j].creator != u {
        assert MapOk(users, maps[j]);
      }
      MapsByStranger(maps, u);
    }
  }

  // ---------------------------------------------------------------------
  // Sums under the updates the handlers make.

  lemma LedgerSumAppend(ledger: seq<Transaction>, t: Transaction, u: int)
    ensures LedgerSum(ledger + [t], u) == LedgerSum(ledger, u) + (if t.user == u then t.amount else 0)
  {
    assert (ledger + [t])[..|ledger|] == ledger;
  }

  lemma {:induction false} LedgerSumStranger(ledger: seq<Transaction>, u: int)
    requires forall k :: 0 <= k < |ledger| ==> ledger[k].user != u
    ensures LedgerSum(ledger, u) == 0
  {
    if ledger != [] {
      LedgerSumStranger(ledger[..|ledger| - 1], u);
    }
  }

  lemma MapsByAppend(maps: seq<MapRecord>, m: MapRecord, u: int)
    ensures MapsBy(maps + [m], u) == MapsBy(maps, u) + (if m.creator == u then 1 else 0)
  {
    assert (maps + [m])[..|maps|] == maps;
  }

  lemma {:induction false} MapsByStranger(maps: seq<MapRecord>, u: int)
    requires forall j :: 0 <= j < |maps| ==> maps[j].creator != u
    ensures MapsBy(maps, u) == 0
  {
    if maps != [] {
      MapsByStranger(maps[..|maps| - 1], u);
    }
  }

  /** Changing a map in place, creator kept, leaves every user's map count as it was. */
  lemma {:induction false} MapsByUpdate(maps: seq<MapRecord>, j: nat, m: MapRecord, u: int)
    requires j < |maps| && m.creator == maps[j].creator
    ensures MapsBy(maps[j := m], u) == MapsBy(maps, u)
  {
    var n := |maps| - 1;
    if j < n {
      MapsByUpdate(maps[..n], j, m, u);
      assert maps[j := m][..n] == maps[..n][j := m];
    } else {
      assert maps[j := m][..n] == maps[..n];
    }
  }

  lemma RewardSumAppend(grid: seq<int>, history: seq<int>, x: int)
    ensures RewardSum(grid, history + [x])
         == RewardSum(grid, history) + (if 0 <= x < |grid| then CellReward(grid[x]) else 0)
  {
    assert (history + [x])[..|history|] == history;
  }

  // ---------------------------------------------------------------------
  // The invariant under each kind of update.

  /** `login` inserting a first-time caller. */
  lemma AddUserPreserves(users: map<int, User>, maps: seq<MapRecord>, sessions: seq<Session>,
                         ledger: seq<Transaction>, id: int)
    requires Consistent(users, maps, sessions, ledger) && id !in users
    ensures Consistent(users[id := NewUser(id)], maps, sessions, ledger)
  {
    var users' := users[id := NewUser(id)];
    forall k | 0 <= k < |ledger| ensures ledger[k].user != id {
      assert EntryOk(users, ledger[k]);
    }
    forall j | 0 <= j < |maps| ensures maps[j].creator != id {
      assert MapOk(users, maps[j]);
    }
    LedgerSumStranger(ledger, id);
    MapsByStranger(maps, id);
    forall u | u in users' ensures AccountOk(users', maps, ledger, u) {
      if u != id {
        assert AccountOk(users, maps, ledger, u);
      }
    }
    forall j | 0 <= j < |maps| ensures MapOk(users', maps[j]) {
      assert MapOk(users, maps[j]);
    }
    forall i | 0 <= i < |sessions| ensures SessionOk(users', maps, sessions[i]) {
      assert SessionOk(users, maps, sessions[i]);
    }
    forall k | 0 <= k < |ledger| ensures EntryOk(users', ledger[k]) {
      assert EntryOk(users, ledger[k]);
    }
  }

  /** `maps_create` spending a credit and storing a new, untouched, active map. */
  lemma AddMapPreserves(users: map<int, User>, maps: seq<MapRecord>, sessions: seq<Session>,
                        ledger: seq<Transaction>, u: int, grid: seq<int>)
    requires Consistent(users, maps, sessions, ledger)
    requires u in users && users[u].credits > 0 && WellFormed(grid)
    ensures Consistent(users[u := users[u].(credits := users[u].credits - 1)],
                       maps + [MapRecord(u, grid, [], true)], sessions, ledger)
  {
    var users' := users[u := users[u].(credits := users[u].credits - 1)];
    var m := MapRecord(u, grid, [], true);
    var maps' := maps + [m];
    forall v | v in users' ensures AccountOk(users', maps', ledger, v) {
      MapsByAppend(maps, m, v);
      assert AccountOk(users, maps, ledger, v);
    }
    forall j | 0 <= j < |maps'| ensures MapOk(users', maps'[j]) {
      if j < |maps| {
        assert MapOk(users, maps[j]);
      }
    }
    forall i | 0 <= i < |sessions| ensures SessionOk(users', maps', sessions[i]) {
      assert SessionOk(users, maps, sessions[i]);
      assert maps'[sessions[i].mapId - 1] == maps[sessions[i].mapId - 1];
    }
    forall k | 0 <= k < |ledger| ensures EntryOk(users', ledger[k]) {
      assert EntryOk(users, ledger[k]);
    }
  }

  /** A balance change recorded by one ledger entry that leaves the balance non-negative. */
  lemma PostPreserves(users: map<int, User>, maps: seq<MapRecord>, sessions: seq<Session>,
                      ledger: seq<Transaction>, t: Transaction)
    requires Consistent(users, maps, sessions, ledger)
    requires EntryOk(users, t) && users[t.user].balance + t.amount >= 0
    ensures Consistent(users[t.user := users[t.user].(balance := users[t.user].balance + t.amount)],
                       maps, sessions, ledger + [t])
  {
    var users' := users[t.user := users[t.user].(balance := users[t.user].balance + t.amount)];
    var ledger' := ledger + [t];
    forall v | v in users' ensures AccountOk(users', maps, ledger', v) {
      LedgerSumAppend(ledger, t, v);
      assert AccountOk(users, maps, ledger, v);
    }
    forall j | 0 <= j < |maps| ensures MapOk(users', maps[j]) {
      assert MapOk(users, maps[j]);
    }
    forall i | 0 <= i < |sessions| ensures SessionOk(users', maps, sessions[i]) {
      assert SessionOk(users, maps, sessions[i]);
    }
    forall k | 0 <= k < |ledger'| ensures EntryOk(users', ledger'[k]) {
      if k < |ledger| {
        assert EntryOk(users, ledger[k]);
      }
    }
  }

  /** `raid_start` creating an active session with an empty history and buffer. */
  lemma AddSessionPreserves(users: map<int, User>, maps: seq<MapRecord>, sessions: seq<Session>,
                            ledger: seq<Transaction>, player: int, mapId: int, now: int)
    requires Consistent(users, maps, sessions, ledger)
    requires player in users && 1 <= mapId <= |maps|
    ensures Consistent(users, maps,
                       sessions + [Session(player, mapId, FIRST_STAGE, Active, 0, [], now, now + SESSION_SECONDS)],
                       ledger)
  {
  }

  /** A session changing status and nothing else. */
  lemma SetStatusPreserves(users: map<int, User>, maps: seq<MapRecord>, sessions: seq<Session>,
                           ledger: seq<Transaction>, i: nat, status: Status)
    requires Consistent(users, maps, sessions, ledger) && i < |sessions|
    ensures Consistent(users, maps, sessions[i := sessions[i].(status := status)], ledger)
  {
    var sessions' := sessions[i := sessions[i].(status := status)];
    forall i' | 0 <= i' < |sessions'| ensures SessionOk(users, maps, sessions'[i']) {
      assert SessionOk(users, maps, sessions[i']);
    }
  }

  /** A cell of the grid appended to a map's shared dug list. */
  lemma OpenCellPreserves(users: map<int, User>, maps: seq<MapRecord>, sessions: seq<Session>,
                          ledger: seq<Transaction>, j: nat, x: int)
    requires Consistent(users, maps, sessions, ledger) && j < |maps| && 0 <= x < SIZE
    ensures Consistent(users, maps[j := maps[j].(dug := maps[j].dug + [x])], sessions, ledger)
  {
    var m := maps[j].(dug := maps[j].dug + [x]);
    var maps' := maps[j := m];
    forall v | v in users ensures AccountOk(users, maps', ledger, v) {
      MapsByUpdate(maps, j, m, v);
      assert AccountOk(users, maps, ledger, v);
    }
    forall j' | 0 <= j' < |maps'| ensures MapOk(users, maps'[j']) {
      assert MapOk(users, maps[j']);
    }
    forall i | 0 <= i < |sessions| ensures SessionOk(users, maps', sessions[i]) {
      var s := sessions[i];
      assert SessionOk(users, maps, s);
      assert forall k :: 0 <= k < |s.history| ==> s.history[k] in maps'[s.mapId - 1].dug;
    }
  }

  /**
   * `raid_dig` on a safe cell: the cell joins the session's history and
   * its reward the session's buffer; the cell is already in the map's dug list.
   */
  lemma SafeDigPreserves(users: map<int, User>, maps: seq<MapRecord>, sessions: seq<Session>,
                         ledger: seq<Transaction>, i: nat, x: int)
    requires Consistent(users, maps, sessions, ledger) && i < |sessions| && 1 <= sessions[i].mapId <= |maps|
    requires var m := maps[sessions[i].mapId - 1];
      && 0 <= x < |m.grid| && x in m.dug && x !in sessions[i].history
      && m.grid[x] != TRAP && m.grid[x] != PIT
    ensures var s := sessions[i];
      var s' := s.(earnings := s.earnings + CellReward(maps[s.mapId - 1].grid[x]), history := s.history + [x]);
      Consistent(users, maps, sessions[i := s'], ledger)
  {
    var s := sessions[i];
    var m := maps[s.mapId - 1];
    assert SessionOk(users, maps, s);
    assert MapOk(users, m);
    RewardSumAppend(m.grid, s.history, x);
    var s' := s.(earnings := s.earnings + CellReward(m.grid[x]), history := s.history + [x]);
    assert HistoryOk(s'.history, m);
    assert SessionOk(users, maps, s');
    var sessions' := sessions[i := s'];
    forall i' | 0 <= i' < |sessions'| ensures SessionOk(users, maps, sessions'[i']) {
      if i' != i {
        assert SessionOk(users, maps, sessions[i']);
      }
    }
  }

  /** `my_tombs_claim` setting a map inactive. */
  lemma DeactivatePreserves(users: map<int, User>, maps: seq<MapRecord>, sessions: seq<Session>,
                            ledger: seq<Transaction>, j: nat)
    requires Consistent(users, maps, sessions, ledger) && j < |maps|
    ensures Consistent(users, maps[j := maps[j].(active := false)], sessions, ledger)
  {
    var m := maps[j].(active := false);
    var maps' := maps[j := m];
    forall v | v in users ensures AccountOk(users, maps', ledger, v) {
      MapsByUpdate(maps, j, m, v);
      assert AccountOk(users, maps, ledger, v);
    }
    forall j' | 0 <= j' < |maps'| ensures MapOk(users, maps'[j']) {
      assert MapOk(users, maps[j']);
    }
    forall i | 0 <= i < |sessions| ensures SessionOk(users, maps', sessions[i]) {
      assert SessionOk(users, maps, sessions[i]);
    }
  }
}
