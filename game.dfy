/**
 * The raid handlers of app.py as methods on one store object: `login`'s
 * new-user bootstrap, `maps_create`, `raid_scout`, `raid_start`,
 * `raid_dig`, `raid_leave`, `my_tombs` and `my_tombs_claim`.  Each
 * handler reads, checks and writes the store in the source's order; the
 * caller's identity comes from the launch-payload validator and `now` is
 * the server clock in whole seconds.
 */
module Game {
  import opened Wrappers
  import opened Grid
  import opened GameState

  /**
   * The errors the handlers answer with: 400 or 404 in the source, and
   * `InternalError` for the 500 a lookup into missing map data ends in.
   */
  datatype ApiError =
    | BadLayout(reason: LayoutError)
    | NoCredits
    | NoMapsAvailable
    | MissingMapId
    | InsufficientBalance
    | MapNotFound
    | InvalidDigRequest
    | SessionNotFound
    | CellAlreadyDug
    | NotReadyToClaim
    | InternalError

  /** `raid_scout`'s answer: the statistics are the source's constant placeholders. */
  datatype ScoutReply = ScoutReply(mapId: int, deaths: int, wins: int, fee: int)

  datatype StartReply = StartReply(sessionId: int, walls: seq<nat>, dug: seq<int>)

  /** The four answers of `raid_dig` that are not errors; a death always reports reward 0. */
  datatype DigReply =
    | DigTimeout
    | DigDead
    | DigHurt
    | DigSafe(reward: int, stageComplete: bool)

  /** One entry of `my_tombs`; `earnings` is the source's constant placeholder 0.0. */
  datatype Tomb = Tomb(mapId: int, deaths: nat, earnings: int, canClaim: bool)

  const STATS_PLACEHOLDER: int := 0

  /** Every opened cell of every map lies on its grid. */
  predicate DugInRange(maps: seq<MapRecord>)
  {
    forall j :: 0 <= j < |maps| ==> DugOnGrid(maps[j])
  }

  /** The `my_tombs` entry for map `m` stored under `id`. */
  function TombAt(m: MapRecord, id: int): Tomb
    requires DugOnGrid(m)
  {
    Tomb(id, Deaths(m.grid, m.dug), STATS_PLACEHOLDER, Claimable(m.grid, m.dug))
  }

  /**
   * What `my_tombs` answers user `u`: one entry per map `u` created, in
   * store order, each with the map's id, its opened trap cells and whether
   * fewer than twelve safe cells are left.
   */
  function TombsOf(maps: seq<MapRecord>, u: int): (r: seq<Tomb>)
    requires DugInRange(maps)
    ensures |r| == MapsBy(maps, u)
    ensures forall k :: 0 <= k < |r| ==>
      && 1 <= r[k].mapId <= |maps|
      && maps[r[k].mapId - 1].creator == u
      && r[k] == TombAt(maps[r[k].mapId - 1], r[k].mapId)
    ensures forall k, l :: 0 <= k < l < |r| ==> r[k].mapId < r[l].mapId
  {
    if maps == [] then []
    else
      var n := |maps| - 1;
      var r := TombsOf(maps[..n], u);
      r + (if maps[n].creator == u then [TombAt(maps[n], n + 1)] else [])
  }

  /** Every map of `u` has its entry in `my_tombs`. */
  lemma {:induction false} TombsOfComplete(maps: seq<MapRecord>, u: int, j: nat)
    requires DugInRange(maps) && j < |maps| && maps[j].creator == u
    ensures TombAt(maps[j], j + 1) in TombsOf(maps, u)
  {
    var n := |maps| - 1;
    var r := TombsOf(maps[..n], u);
    if j < n {
      TombsOfComplete(maps[..n], u, j);
    }
    assert TombsOf(maps, u) == r + (if maps[n].creator == u then [TombAt(maps[n], n + 1)] else []);
  }

  /** A tomb marked claimable is exactly one `my_tombs_claim` accepts. */
  lemma TombsOfAgreesWithClaim(maps: seq<MapRecord>, u: int, k: nat)
    requires DugInRange(maps) && k < |TombsOf(maps, u)|
    ensures var t := TombsOf(maps, u)[k];
      OwnsMap(maps, Some(t.mapId), u) && (t.canClaim <==> Claimable(maps[t.mapId - 1].grid, maps[t.mapId - 1].dug))
  {
  }

  /** `maps WHERE id = %s AND creator_id = %s` finds a row. */
  predicate OwnsMap(maps: seq<MapRecord>, mapId: Option<int>, u: int)
  {
    mapId.Some? && 1 <= mapId.value <= |maps| && maps[mapId.value - 1].creator == u
  }

  /** `raid_sessions WHERE id = %s AND player_id = %s` finds a row. */
  predicate OwnsSession(sessions: seq<Session>, sessionId: Option<int>, u: int)
  {
    sessionId.Some? && 1 <= sessionId.value <= |sessions| && sessions[sessionId.value - 1].player == u
  }

  /** A map `raid_scout` may offer to `u`. */
  predicate Offerable(m: MapRecord, u: int)
  {
    m.active && m.creator != u
  }

  /** `raid_dig`'s first guard, applied before the store is read. */
  predicate DigRequestOk(sessionId: Option<int>, cell: Option<int>)
  {
    sessionId.Some? && cell.Some? && 0 <= cell.value < SIZE
  }

  /** What `raid_dig` answers and leaves in the store; users and the ledger are not touched. */
  datatype DigResult = DigResult(reply: Result<DigReply, ApiError>, maps: seq<MapRecord>, sessions: seq<Session>)

  /**
   * `raid_dig`.  Guards, in order: the request itself, ownership of the
   * session, expiry (strictly after `expires_at`, which marks the session
   * timed out and changes nothing else), a cell this session has already
   * opened, and map data the cell can be looked up in.  Then by cell
   * code: a trap kills and is recorded on the map; a pit hurts and is not
   * recorded; any other code pays and is recorded both on the map and in
   * the session.  The session's status is not consulted.
   */
  function DigStep(maps: seq<MapRecord>, sessions: seq<Session>, userId: int,
                   sessionId: Option<int>, cell: Option<int>, now: int): DigResult
  {
    if !DigRequestOk(sessionId, cell) then DigResult(Err(InvalidDigRequest), maps, sessions)
    else if !OwnsSession(sessions, sessionId, userId) then DigResult(Err(SessionNotFound), maps, sessions)
    else
      var i, x := sessionId.value - 1, cell.value;
      var s := sessions[i];
      if now > s.expiresAt then DigResult(Ok(DigTimeout), maps, sessions[i := s.(status := Timeout)])
      else if x in s.history then DigResult(Err(CellAlreadyDug), maps, sessions)
      else if !(1 <= s.mapId <= |maps|) || x >= |maps[s.mapId - 1].grid| then
        DigResult(Err(InternalError), maps, sessions)
      else
        var j := s.mapId - 1;
        var m := maps[j];
        var code := m.grid[x];
        if code == TRAP then
          DigResult(Ok(DigDead), maps[j := m.(dug := m.dug + [x])], sessions[i := s.(status := Dead)])
        else if code == PIT then
          DigResult(Ok(DigHurt), maps, sessions[i := s.(status := Hurt)])
        else
          DigResult(Ok(DigSafe(CellReward(code), |m.dug| + 1 >= STAGE_TARGET)),
                    maps[j := m.(dug := m.dug + [x])],
                    sessions[i := s.(earnings := s.earnings + CellReward(code), history := s.history + [x])])
  }

  /** A dig keeps the store invariant. */
  lemma DigStepPreserves(users: map<int, User>, maps: seq<MapRecord>, sessions: seq<Session>,
                         ledger: seq<Transaction>, userId: int, sessionId: Option<int>, cell: Option<int>, now: int)
    requires Consistent(users, maps, sessions, ledger)
    ensures var d := DigStep(maps, sessions, userId, sessionId, cell, now);
      Consistent(users, d.maps, d.sessions, ledger)
  {
    if DigRequestOk(sessionId, cell) && OwnsSession(sessions, sessionId, userId) {
      var i, x := sessionId.value - 1, cell.value;
      var s := sessions[i];
      assert SessionOk(users, maps, s);
      if now > s.expiresAt {
        SetStatusPreserves(users, maps, sessions, ledger, i, Timeout);
      } else if x !in s.history {
        var j := s.mapId - 1;
        var m := maps[j];
        assert MapOk(users, m);
        if m.grid[x] == TRAP {
          SetStatusPreserves(users, maps, sessions, ledger, i, Dead);
          OpenCellPreserves(users, maps, sessions[i := s.(status := Dead)], ledger, j, x);
        } else if m.grid[x] == PIT {
          SetStatusPreserves(users, maps, sessions, ledger, i, Hurt);
        } else {
          OpenCellPreserves(users, maps, sessions, ledger, j, x);
          SafeDigPreserves(users, maps[j := m.(dug := m.dug + [x])], sessions, ledger, i, x);
        }
      }
    }
  }

  /** With the store invariant, a dig never reaches the lookup that ends in a 500. */
  lemma DigNeverInternal(users: map<int, User>, maps: seq<MapRecord>, sessions: seq<Session>,
                         ledger: seq<Transaction>, userId: int, sessionId: Option<int>, cell: Option<int>, now: int)
    requires Consistent(users, maps, sessions, ledger)
    ensures DigStep(maps, sessions, userId, sessionId, cell, now).reply != Err(InternalError)
  {
    if DigRequestOk(sessionId, cell) && OwnsSession(sessions, sessionId, userId) {
      var s := sessions[sessionId.value - 1];
      assert SessionOk(users, maps, s);
      assert MapOk(users, maps[s.mapId - 1]);
    }
  }

  /**
   * `raid_dig`'s guards in the source's order, and what gets past them: a
   * malformed request, then a session the caller does not own, then (once
   * not expired) a cell already in the session's history are refused;
   * every other dig before expiry reaches the cell and is answered with a
   * dead, hurt or safe reply.
   */
  lemma DigGuards(users: map<int, User>, maps: seq<MapRecord>, sessions: seq<Session>,
                  ledger: seq<Transaction>, userId: int, sessionId: Option<int>, cell: Option<int>, now: int)
    requires Consistent(users, maps, sessions, ledger)
    ensures var r := DigStep(maps, sessions, userId, sessionId, cell, now).reply;
      && (!DigRequestOk(sessionId, cell) ==> r == Err(InvalidDigRequest))
      && (DigRequestOk(sessionId, cell) && !OwnsSession(sessions, sessionId, userId) ==> r == Err(SessionNotFound))
      && (DigRequestOk(sessionId, cell) && OwnsSession(sessions, sessionId, userId)
          && now <= sessions[sessionId.value - 1].expiresAt ==>
            && (cell.value in sessions[sessionId.value - 1].history ==> r == Err(CellAlreadyDug))
            && (cell.value !in sessions[sessionId.value - 1].history ==> r.Ok? && r.value != DigTimeout))
  {
    DigNeverInternal(users, maps, sessions, ledger, userId, sessionId, cell, now);
  }

  /** An error reply leaves maps and sessions as they were. */
  lemma DigErrorChangesNothing(maps: seq<MapRecord>, sessions: seq<Session>, userId: int,
                               sessionId: Option<int>, cell: Option<int>, now: int)
    requires DigStep(maps, sessions, userId, sessionId, cell, now).reply.Err?
    ensures var d := DigStep(maps, sessions, userId, sessionId, cell, now);
      d.maps == maps && d.sessions == sessions
  {
  }

  /**
   * A dig touches at most the caller's session and that session's map:
   * every other session and map is unchanged, and nothing is added or removed.
   */
  lemma DigTouchesOneSession(maps: seq<MapRecord>, sessions: seq<Session>, userId: int,
                             sessionId: Option<int>, cell: Option<int>, now: int)
    ensures var d := DigStep(maps, sessions, userId, sessionId, cell, now);
      && |d.maps| == |maps| && |d.sessions| == |sessions|
      && (forall i :: 0 <= i < |sessions| && Some(i + 1) != sessionId ==> d.sessions[i] == sessions[i])
      && (forall j :: 0 <= j < |maps| && d.maps[j] != maps[j] ==>
            && OwnsSession(sessions, sessionId, userId)
            && j + 1 == sessions[sessionId.value - 1].mapId
            && d.maps[j] == maps[j].(dug := maps[j].dug + [cell.value]))
  {
  }

  /**
   * The status a dig sets and what it pays, by cell code: a trap sets
   * `dead`, a pit `hurt`, and any other code leaves the status, adds the
   * cell to the session's history and pays 5 for a chest cell and 1
   * otherwise; every cell added to a history is also added to the map.
   */
  lemma DigOutcomeByCode(maps: seq<MapRecord>, sessions: seq<Session>, userId: int,
                         sessionId: Option<int>, cell: Option<int>, now: int)
    requires DigStep(maps, sessions, userId, sessionId, cell, now).reply.Ok?
    requires DigStep(maps, sessions, userId, sessionId, cell, now).reply.value != DigTimeout
    ensures var d := DigStep(maps, sessions, userId, sessionId, cell, now);
      var i, x := sessionId.value - 1, cell.value;
      var s := sessions[i];
      && 1 <= s.mapId <= |maps| && 0 <= x < |maps[s.mapId - 1].grid|
      && var code := maps[s.mapId - 1].grid[x];
      && var s' := d.sessions[i];
      && (code == TRAP ==>
            d.reply == Ok(DigDead) && s' == s.(status := Dead) && d.maps[s.mapId - 1].dug == maps[s.mapId - 1].dug + [x])
      && (code == TRAP ==> s'.history == s.history && s'.earnings == s.earnings)
      && (code == PIT ==>
            d.reply == Ok(DigHurt) && s' == s.(status := Hurt) && d.maps[s.mapId - 1] == maps[s.mapId - 1])
      && (code != TRAP && code != PIT ==>
            && d.reply.Ok? && d.reply.value.DigSafe?
            && d.reply.value.reward == (if code == CHEST then CHEST_REWARD else EMPTY_REWARD)
            && s'.status == s.status
            && s'.history == s.history + [x]
            && s'.earnings == s.earnings + (if code == CHEST then CHEST_REWARD else EMPTY_REWARD)
            && d.maps[s.mapId - 1].dug == maps[s.mapId - 1].dug + [x])
  {
  }

  /**
   * A well-formed dig on one's own session times out exactly when the
   * clock is strictly past `expires_at`, whatever cell is asked for.
   */
  lemma DigTimesOutAfterExpiry(maps: seq<MapRecord>, sessions: seq<Session>, userId: int,
                               sessionId: Option<int>, cell: Option<int>, now: int)
    requires DigRequestOk(sessionId, cell) && OwnsSession(sessions, sessionId, userId)
    ensures DigStep(maps, sessions, userId, sessionId, cell, now).reply == Ok(DigTimeout)
        <==> now > sessions[sessionId.value - 1].expiresAt
  {
  }

  /**
   * A timed-out dig changes only the session's status, to `timeout`, and
   * asking again at the same time or later, for any cell, answers
   * `timeout` again and changes nothing more.
   */
  lemma DigTimeoutIdempotent(maps: seq<MapRecord>, sessions: seq<Session>, userId: int,
                             sessionId: Option<int>, cell: Option<int>, now: int,
                             cell2: Option<int>, later: int)
    requires DigStep(maps, sessions, userId, sessionId, cell, now).reply == Ok(DigTimeout)
    requires DigRequestOk(sessionId, cell2) && now <= later
    ensures var d := DigStep(maps, sessions, userId, sessionId, cell, now);
      var i := sessionId.value - 1;
      && d.maps == maps
      && d.sessions == sessions[i := sessions[i].(status := Timeout)]
      && DigStep(d.maps, d.sessions, userId, sessionId, cell2, later) == d
  {
  }

  /** After a cell pays, digging it again within the session's window is refused. */
  lemma DigSameCellTwice(maps: seq<MapRecord>, sessions: seq<Session>, userId: int,
                         sessionId: Option<int>, cell: Option<int>, now: int, later: int)
    requires DigStep(maps, sessions, userId, sessionId, cell, now).reply.Ok?
    requires DigStep(maps, sessions, userId, sessionId, cell, now).reply.value.DigSafe?
    requires later <= sessions[sessionId.value - 1].expiresAt
    ensures var d := DigStep(maps, sessions, userId, sessionId, cell, now);
      DigStep(d.maps, d.sessions, userId, sessionId, cell, later).reply == Err(CellAlreadyDug)
  {
  }

  /** `stage_complete` holds exactly when the map's dug list, after the append, has at least twelve entries. */
  lemma DigStageComplete(maps: seq<MapRecord>, sessions: seq<Session>, userId: int,
                         sessionId: Option<int>, cell: Option<int>, now: int)
    requires DigStep(maps, sessions, userId, sessionId, cell, now).reply.Ok?
    requires DigStep(maps, sessions, userId, sessionId, cell, now).reply.value.DigSafe?
    ensures var d := DigStep(maps, sessions, userId, sessionId, cell, now);
      var j := sessions[sessionId.value - 1].mapId - 1;
      0 <= j < |d.maps| && (d.reply.value.stageComplete <==> |d.maps[j].dug| >= STAGE_TARGET)
  {
  }

  class Store {
    var users: map<int, User>
    var maps: seq<MapRecord>
    var sessions: seq<Session>
    var ledger: seq<Transaction>

    ghost predicate Valid()
      reads this
    {
      Consistent(users, maps, sessions, ledger)
    }

    constructor ()
      ensures Valid()
      ensures users == map[] && maps == [] && sessions == [] && ledger == []
    {
      users, maps, sessions, ledger := map[], [], [], [];
    }

    /**
     * `login`: a first-time caller gets a new user row; the reply carries
     * the user's row and one of their active sessions, if any.
     */
    method Login(userId: int) returns (user: User, activeSession: Option<int>)
      requires Valid()
      modifies this
      ensures Valid()
      ensures userId in old(users) ==> users == old(users)
      ensures userId !in old(users) ==> users == old(users)[userId := NewUser(userId)]
      ensures maps == old(maps) && sessions == old(sessions) && ledger == old(ledger)
      ensures userId in users && user == users[userId]
      ensures activeSession.None? <==>
        forall i :: 0 <= i < |sessions| ==> !(sessions[i].player == userId && sessions[i].status == Active)
      ensures activeSession.Some? ==>
        var id := activeSession.value;
        1 <= id <= |sessions| && sessions[id - 1].player == userId && sessions[id - 1].status == Active
    {
      if userId !in users {
        AddUserPreserves(users, maps, sessions, ledger, userId);
        users := users[userId := NewUser(userId)];
      }
      user := users[userId];
      if i :| 0 <= i < |sessions| && sessions[i].player == userId && sessions[i].status == Active {
        activeSession := Some(i + 1);
      } else {
        activeSession := None;
      }
    }

    /**
     * `maps_create`: the layout is checked first, then the caller's build
     * credits; on success one credit is spent and the map is stored
     * active with nothing opened.  A rejection changes nothing.
     */
    method CreateMap(userId: int, grid: Option<seq<int>>) returns (err: Option<ApiError>)
      requires Valid()
      modifies this
      ensures Valid()
      ensures sessions == old(sessions) && ledger == old(ledger)
      ensures CheckLayout(grid).Some? ==>
        err == Some(BadLayout(CheckLayout(grid).value)) && users == old(users) && maps == old(maps)
      ensures CheckLayout(grid).None? && (userId !in old(users) || old(users)[userId].credits <= 0) ==>
        err == Some(NoCredits) && users == old(users) && maps == old(maps)
      ensures err.None? <==>
        grid.Some? && WellFormed(grid.value) && userId in old(users) && old(users)[userId].credits > 0
      ensures err.None? ==>
        && users == old(users)[userId := old(users)[userId].(credits := old(users)[userId].credits - 1)]
        && maps == old(maps) + [MapRecord(userId, grid.value, [], true)]
    {
      var layout := CheckLayout(grid);
      if layout.Some? {
        return Some(BadLayout(layout.value));
      }
      CheckLayoutAcceptsWellFormed(grid.value);
      if userId !in users || users[userId].credits <= 0 {
        return Some(NoCredits);
      }
      AddMapPreserves(users, maps, sessions, ledger, userId, grid.value);
      users := users[userId := users[userId].(credits := users[userId].credits - 1)];
      maps := maps + [MapRecord(userId, grid.value, [], true)];
      err := None;
    }

    /**
     * `raid_scout`: some active map the caller did not build, chosen
     * freely (the source picks one at random), or an error when there is none.
     */
    method Scout(userId: int) returns (r: Result<ScoutReply, ApiError>)
      ensures r.Err? <==> forall j :: 0 <= j < |maps| ==> !Offerable(maps[j], userId)
      ensures r.Err? ==> r.error == NoMapsAvailable
      ensures r.Ok? ==>
        && 1 <= r.value.mapId <= |maps|
        && Offerable(maps[r.value.mapId - 1], userId)
        && r.value == ScoutReply(r.value.mapId, STATS_PLACEHOLDER, STATS_PLACEHOLDER, FEE)
    {
      if j :| 0 <= j < |maps| && Offerable(maps[j], userId) {
        r := Ok(ScoutReply(j + 1, STATS_PLACEHOLDER, STATS_PLACEHOLDER, FEE));
      } else {
        r := Err(NoMapsAvailable);
      }
    }

    /**
     * `raid_start`: a missing (or zero) map id, a balance below the fee
     * and an unknown map id are refused in that order with nothing changed.
     * Otherwise the fee is charged and recorded and an active session is
     * opened that expires 120 seconds from now; the reply lists the map's
     * wall cells and its opened cells.
     */
    method StartRaid(userId: int, mapId: Option<int>, now: int) returns (r: Result<StartReply, ApiError>)
      requires Valid()
      modifies this
      ensures Valid()
      ensures maps == old(maps)
      ensures (mapId.None? || mapId.value == 0) ==>
        r == Err(MissingMapId) && users == old(users) && sessions == old(sessions) && ledger == old(ledger)
      ensures mapId.Some? && mapId.value != 0 && Balance(old(users), userId) < FEE ==>
        r == Err(InsufficientBalance) && users == old(users) && sessions == old(sessions) && ledger == old(ledger)
      ensures mapId.Some? && mapId.value != 0 && Balance(old(users), userId) >= FEE && !(1 <= mapId.value <= |maps|) ==>
        r == Err(MapNotFound) && users == old(users) && sessions == old(sessions) && ledger == old(ledger)
      ensures r.Ok? <==> mapId.Some? && Balance(old(users), userId) >= FEE && 1 <= mapId.value <= |maps|
      ensures r.Ok? ==>
        var m := maps[mapId.value - 1];
        && userId in old(users)
        && r.value == StartReply(|old(sessions)| + 1, Indices(m.grid, WALL), m.dug)
        && users == old(users)[userId := old(users)[userId].(balance := old(users)[userId].balance - FEE)]
        && ledger == old(ledger) + [Transaction(userId, -FEE, RaidEntry)]
        && sessions == old(sessions) + [Session(userId, mapId.value, FIRST_STAGE, Active, 0, [], now, now + SESSION_SECONDS)]
    {
      if mapId.None? || mapId.value == 0 {
        return Err(MissingMapId);
      }
      var balance := Balance(users, userId);
      if balance < FEE {
        return Err(InsufficientBalance);
      }
      var id := mapId.value;
      if !(1 <= id <= |maps|) {
        return Err(MapNotFound);
      }
      var entry := Transaction(userId, -FEE, RaidEntry);
      PostPreserves(users, maps, sessions, ledger, entry);
      users := users[userId := users[userId].(balance := users[userId].balance - FEE)];
      ledger := ledger + [entry];
      AddSessionPreserves(users, maps, sessions, ledger, userId, id, now);
      sessions := sessions + [Session(userId, id, FIRST_STAGE, Active, 0, [], now, now + SESSION_SECONDS)];
      var m := maps[id - 1];
      r := Ok(StartReply(|sessions|, Indices(m.grid, WALL), m.dug));
    }

    /** `raid_dig`, with the outcome and the new maps and sessions given by `DigStep`. */
    method Dig(userId: int, sessionId: Option<int>, cell: Option<int>, now: int) returns (r: Result<DigReply, ApiError>)
      requires Valid()
      modifies this
      ensures Valid()
      ensures users == old(users) && ledger == old(ledger)
      ensures var d := DigStep(old(maps), old(sessions), userId, sessionId, cell, now);
        r == d.reply && maps == d.maps && sessions == d.sessions
    {
      DigStepPreserves(users, maps, sessions, ledger, userId, sessionId, cell, now);
      if sessionId.None? || cell.None? || cell.value < 0 || cell.value >= SIZE {
        return Err(InvalidDigRequest);
      }
      var id, x := sessionId.value, cell.value;
      if !(1 <= id <= |sessions|) || sessions[id - 1].player != userId {
        return Err(SessionNotFound);
      }
      var i := id - 1;
      var s := sessions[i];
      if now > s.expiresAt {
        sessions := sessions[i := s.(status := Timeout)];
        return Ok(DigTimeout);
      }
      if x in s.history {
        return Err(CellAlreadyDug);
      }
      if !(1 <= s.mapId <= |maps|) || x >= |maps[s.mapId - 1].grid| {
        return Err(InternalError);
      }
      var j := s.mapId - 1;
      var m := maps[j];
      var code := m.grid[x];
      if code == TRAP {
        sessions := sessions[i := s.(status := Dead)];
        maps := maps[j := m.(dug := m.dug + [x])];
        return Ok(DigDead);
      } else if code == PIT {
        sessions := sessions[i := s.(status := Hurt)];
        return Ok(DigHurt);
      } else {
        var reward := CellReward(code);
        sessions := sessions[i := s.(earnings := s.earnings + reward, history := s.history + [x])];
        maps := maps[j := m.(dug := m.dug + [x])];
        r := Ok(DigSafe(reward, |maps[j].dug| >= STAGE_TARGET));
      }
    }

    /**
     * `raid_leave`: the session's earnings are paid out and recorded and
     * the session is marked completed, whatever its status was.  The
     * earnings are not reset, so leaving again pays them again.
     */
    method Leave(userId: int, sessionId: Option<int>) returns (r: Result<int, ApiError>)
      requires Valid()
      modifies this
      ensures Valid()
      ensures maps == old(maps)
      ensures !OwnsSession(old(sessions), sessionId, userId) ==>
        r == Err(SessionNotFound) && users == old(users) && sessions == old(sessions) && ledger == old(ledger)
      ensures OwnsSession(old(sessions), sessionId, userId) ==>
        var i := sessionId.value - 1;
        var s := old(sessions)[i];
        && userId in old(users)
        && r == Ok(s.earnings)
        && users == old(users)[userId := old(users)[userId].(balance := old(users)[userId].balance + s.earnings)]
        && ledger == old(ledger) + [Transaction(userId, s.earnings, RaidWin)]
        && sessions == old(sessions)[i := s.(status := Completed)]
    {
      if !OwnsSession(sessions, sessionId, userId) {
        return Err(SessionNotFound);
      }
      var i := sessionId.value - 1;
      var s := sessions[i];
      assert SessionOk(users, maps, s);
      assert AccountOk(users, maps, ledger, userId);
      var payout := Transaction(userId, s.earnings, RaidWin);
      PostPreserves(users, maps, sessions, ledger, payout);
      users := users[userId := users[userId].(balance := users[userId].balance + s.earnings)];
      ledger := ledger + [payout];
      SetStatusPreserves(users, maps, sessions, ledger, i, Completed);
      sessions := sessions[i := s.(status := Completed)];
      r := Ok(s.earnings);
    }

    /** `my_tombs`: the caller's maps, one entry each, built by a loop over the store. */
    method MyTombs(userId: int) returns (tombs: seq<Tomb>)
      requires Valid()
      ensures DugInRange(maps) && tombs == TombsOf(maps, userId)
    {
      assert DugInRange(maps) by {
        forall j | 0 <= j < |maps| ensures DugOnGrid(maps[j]) {
          assert MapOk(users, maps[j]);
        }
      }
      tombs := [];
      var i := 0;
      while i < |maps|
        invariant 0 <= i <= |maps| && DugInRange(maps[..i])
        invariant tombs == TombsOf(maps[..i], userId)
      {
        var m := maps[i];
        assert maps[..i + 1][..i] == maps[..i];
        if m.creator == userId {
          tombs := tombs + [Tomb(i + 1, Deaths(m.grid, m.dug), STATS_PLACEHOLDER, Claimable(m.grid, m.dug))];
        }
        i := i + 1;
      }
      assert maps[..i] == maps;
    }

    /**
     * `my_tombs_claim`: the caller's own map, with fewer than twelve safe
     * cells left, is set inactive and pays the claim reward.  Neither
     * `active` nor an earlier claim is checked, so a map can be claimed
     * again.  A refusal changes nothing.
     */
    method ClaimTomb(userId: int, mapId: Option<int>) returns (r: Result<int, ApiError>)
      requires Valid()
      modifies this
      ensures Valid()
      ensures sessions == old(sessions)
      ensures !OwnsMap(old(maps), mapId, userId) ==>
        r == Err(MapNotFound) && users == old(users) && maps == old(maps) && ledger == old(ledger)
      ensures OwnsMap(old(maps), mapId, userId) ==>
        var j := mapId.value - 1;
        var m := old(maps)[j];
        && (!Claimable(m.grid, m.dug) ==>
              r == Err(NotReadyToClaim) && users == old(users) && maps == old(maps) && ledger == old(ledger))
        && (Claimable(m.grid, m.dug) ==>
              && userId in old(users)
              && r == Ok(CLAIM_REWARD)
              && maps == old(maps)[j := m.(active := false)]
              && users == old(users)[userId := old(users)[userId].(balance := old(users)[userId].balance + CLAIM_REWARD)]
              && ledger == old(ledger) + [Transaction(userId, CLAIM_REWARD, TombClaim)])
    {
      if !OwnsMap(maps, mapId, userId) {
        return Err(MapNotFound);
      }
      var j := mapId.value - 1;
      var m := maps[j];
      if SafeRemaining(m.grid, m.dug) >= CLAIM_TARGET {
        return Err(NotReadyToClaim);
      }
      assert MapOk(users, m);
      assert AccountOk(users, maps, ledger, userId);
      DeactivatePreserves(users, maps, sessions, ledger, j);
      maps := maps[j := m.(active := false)];
      var reward := Transaction(userId, CLAIM_REWARD, TombClaim);
      PostPreserves(users, maps, sessions, ledger, reward);
      users := users[userId := users[userId].(balance := users[userId].balance + CLAIM_REWARD)];
      ledger := ledger + [reward];
      r := Ok(CLAIM_REWARD);
    }
  }
}
