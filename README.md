# Grid raid backend — a Dafny model

The backend (app.py) runs a game inside a Telegram Mini App. Players build
48-cell trap layouts ("tombs"), pay a fee to raid other players' layouts
cell by cell, and cash out what they found. This project models and proves
three parts of it:

- **The launch-payload validator** (`validate_init_data`; module
  `InitData`). It checks a Telegram Mini Apps launch payload: the test
  bypass token comes first, then the bot-token configuration, the 24-hour
  freshness window on `auth_date` and the presence of `hash`. It then
  builds the check string (all other fields, sorted by key, as `k=v`
  lines) and compares it with HMAC-SHA256 keyed by
  HMAC-SHA256("WebAppData", bot token). An id is extracted only after a
  match. HMAC, hex encoding, `str.encode`, `parse_qsl`, `int()` and the
  JSON parse of `user` are uninterpreted functions (the `Primitives`
  record), so every result holds whatever they compute. Python string
  order is module `StringOrder`. A Python `dict` is modelled as a field
  sequence with distinct keys (module `InitData`).
- **The layout check of `maps_create`** (module `Grid`). A layout is 48
  cells with four traps (code 2), two pits (3) and two chest cells (4)
  side by side. Grid also holds the computed expressions the raid
  handlers share: the wall index list, the count of safe cells not yet
  opened, and the opened-trap count.
- **The raid store** (modules `GameState` and `Game`). Users have a
  balance and build credits. Maps have a grid, a shared list of opened
  cells and an `active` flag. Sessions have a status, an earnings buffer,
  a private dig history and an expiry time. The transaction ledger is
  append-only.
  - The handlers `login` (new-user defaults), `maps_create`,
    `raid_scout`, `raid_start`, `raid_dig`, `raid_leave`, `my_tombs` and
    `my_tombs_claim` are methods of `Game.Store`. Each modifies the store
    in the source's order of checks and writes.
  - `raid_dig` is also given as a value-level step, `Game.DigStep`, that
    its method is proved equal to.
  - `GameState.Consistent` is the store invariant; every handler
    preserves it:
    - each balance is 1.00 plus the user's ledger entries and is never
      negative;
    - credits plus maps built is always 5;
    - every stored layout is well formed, and its opened cells lie on the
      grid;
    - a session's history has no repeats, lies inside its map's opened
      cells and holds no trap or pit;
    - the earnings buffer is exactly what the history pays.

Money is in integer hundredths. The entry fee is 10, an opened empty cell
pays 1, a chest cell 5, a claim 100, and a new user starts with 100. The
clock is a parameter: `now` is a real number of seconds for the
validator (`time.time()`) and whole seconds for the store.

Where the code does something surprising, the model follows the code,
except for the three lines named under "## Left out" (the positional
row access of `raid_start`, the timestamp parsing of `raid_dig` and the
floating-point clock of the validator):

- `raid_dig` never looks at the session's status.
- `raid_leave` does not reset the earnings buffer, so leaving twice pays
  twice.
- `my_tombs_claim` checks neither `active` nor an earlier claim, so a map
  can be claimed again.
- `raid_start` accepts any stored map, inactive or the caller's own.
- A wall cell pays like an empty one.
- The positive case of test_validate.py:32-36 carries `auth_date`
  123456. At any present-day clock the freshness check rejects it
  (`InitData.ValidateRejections`, `InitData.StaleAtExactlyOneDay`).

## Model

| member | source | states |
|---|---|---|
| InitData.Lookup | app.py:174-178 | `d.get(k)` is None exactly when no field has key k; a value found belongs to a field with that key |
| InitData.Insert | app.py:167 | inserting into a dict keeps keys distinct, replaces the value of an existing key and leaves every other key's value as it was |
| InitData.ToDict | app.py:167 | `dict(pairs)` has distinct keys and each key carries the value of its last pair |
| InitData.ToDictOfDistinct | app.py:167 | a payload without repeated keys decodes to its own fields in order |
| InitData.Remove | app.py:182 | `pop('hash')` removes exactly the field with that key, keeps keys distinct and leaves every other lookup unchanged |
| InitData.LookupFinds | app.py:174-178 | with distinct keys, a field present is what the lookup of its key returns |
| InitData.InsertSorted | app.py:183 | inserting a field into a key-sorted list keeps it strictly sorted and adds exactly that field |
| InitData.SortByKey | app.py:183 | `sorted(d.items())` is strictly increasing by key and a permutation of the fields |
| InitData.SortedUnique | app.py:183 | two key-sorted lists holding the same fields are equal |
| InitData.CheckFields | app.py:182-183 | the check fields are sorted by key and are exactly the fields other than `hash` |
| InitData.CheckFieldsExcludeHash | app.py:182-183 | no line of the check string comes from the `hash` field |
| InitData.CheckFieldsOrderIndependent | app.py:182-183 | the check string depends only on the set of non-`hash` fields, not on their order or on `hash` |
| InitData.Decoded | app.py:166-170 | the decoded dict has distinct keys |
| InitData.Validate | app.py:157-163 | `mock_init_data` yields id 1 before any other check; the missing-bot-token error is raised exactly for other payloads when the token is unset or empty |
| InitData.AuthenticatedOnlyIfSigned | app.py:174-196 | for any payload other than `mock_init_data` (which yields id 1 unchecked), an id is returned only when the token is set, the payload decodes, `auth_date` is less than 86400 s old, `hash` equals the two-level HMAC of the check string, and `user` yields that id |
| InitData.DecideAuthenticated | app.py:174-196 | after decoding, an identity comes back only for a present, parsing, fresh `auth_date`, a `hash` equal to the expected digest and a `user` yielding that id |
| InitData.DecideAccepts | app.py:174-196 | conversely, a fresh `auth_date`, a `hash` equal to the ASCII expected digest and a `user` yielding an id give that id |
| InitData.SignedFreshPayloadAuthenticates | app.py:174-196 | conversely, a payload other than `mock_init_data` that meets all of these, with an ASCII expected digest, is accepted with the id in `user` |
| InitData.ValidateRejections | app.py:174-202 | for a payload other than `mock_init_data` that decodes, with a token set: a missing `auth_date`, a stale one, a missing hash, a mismatched hash (received and expected digests both ASCII), and a missing or malformed `user` under a matching hash (ASCII expected digest) each give None, not an exception |
| InitData.StaleAtExactlyOneDay | app.py:174 | exactly 86400 s after `auth_date` the payload is rejected |
| InitData.SignedPayloadRoundTrip | test_validate.py:20-36 | fields without repeated keys or a `hash` key, with a fresh `auth_date` and a `user` carrying an id, signed with a non-empty bot token (ASCII digest) and sent with the digest appended, validate to that id |
| InitData.ValidateOrderIndependent | app.py:167-183 | for two payloads other than `mock_init_data`, each with no repeated keys and holding the same fields, the verdict is the same whatever order they list the fields in; with repeated keys the last value wins and order can matter |
| InitData.CheckDecodedDependsOn | app.py:174-196 | the checks after decoding read only `auth_date`, `hash`, `user` and the check string |
| InitData.LookupSameFields | app.py:174-190 | dicts with the same fields answer every lookup alike |
| StringOrder.LessTransitive | app.py:183 | Python's string order is transitive |
| StringOrder.LessTotal | app.py:183 | of two different strings one sorts before the other |
| Grid.Count | app.py:292-295 | a cell-code count is at most the grid's length |
| Grid.Indices | app.py:302 | the index list of a code holds exactly the indices with that code, in increasing order, as many as the count |
| Grid.CheckLayoutAcceptsWellFormed | app.py:288-305 | `maps_create` accepts a grid exactly when it has 48 cells, 4 traps, 2 pits and 2 chest cells at neighbouring indices |
| Grid.LayoutIgnoresOtherCodes | app.py:292-305 | grids agreeing on traps, pits and chests get the same verdict; walls and other codes are not checked |
| Grid.SafeRemaining | app.py:531 | the safe cells not yet opened never exceed the grid length |
| Grid.SafeRemainingUndug | app.py:531 | before any dig the count is the number of empty and chest cells |
| Grid.SafeRemainingAfterDig | app.py:475 | a dig lowers the count by one exactly when it opens a safe cell not opened before |
| Grid.SafeRemainingMonotone | app.py:531 | opening more cells never raises the count |
| Grid.ClaimableStays | app.py:537 | once fewer than 12 safe cells are left, further digging keeps the map claimable |
| Grid.Deaths | app.py:535 | the opened-trap count is at most the number of opened cells |
| GameState.BalanceMatchesLedger | app.py:384-385 | in a consistent store each balance is 1.00 plus the user's ledger entries and never negative |
| GameState.BuiltAtMostCredits | app.py:313-321 | in a consistent store nobody has built more than 5 maps |
| GameState.AddUserPreserves | app.py:236-240 | adding a new user with balance 1.00 and 5 credits keeps the store consistent |
| GameState.AddMapPreserves | app.py:317-321 | spending a credit on a well-formed map stored active with nothing opened keeps the store consistent |
| GameState.PostPreserves | app.py:506-507 | a balance change recorded by one ledger entry of the right kind, leaving the balance non-negative, keeps the store consistent |
| GameState.AddSessionPreserves | app.py:388-389 | opening an active session with empty history and buffer, expiring 120 s after now, keeps the store consistent |
| GameState.SetStatusPreserves | app.py:431 | changing a session's status keeps the store consistent |
| GameState.OpenCellPreserves | app.py:459-460 | appending a grid cell to a map's opened list keeps the store consistent |
| GameState.SafeDigPreserves | app.py:472-474 | adding an opened safe cell to a session's history and its reward to its buffer keeps the store consistent |
| GameState.DeactivatePreserves | app.py:569 | setting a map inactive keeps the store consistent |
| GameState.MapsByUpdate | app.py:459-460 | changing a map without changing its creator leaves every user's map count unchanged |
| GameState.LedgerSumAppend | app.py:385 | an appended ledger entry adds its amount to its own user's sum only |
| Game.TombsOf | app.py:524-538 | `my_tombs` has one entry per map of the caller, listed in increasing id order (an order the model chooses); each carries that map's id, its opened-trap count, earnings 0 and whether fewer than 12 safe cells are left |
| Game.TombsOfComplete | app.py:524-538 | every map of the caller appears in `my_tombs` |
| Game.TombsOfAgreesWithClaim | app.py:537 | an entry's `can_claim` is exactly the test `my_tombs_claim` applies to that map, which belongs to the caller |
| Game.DigStepPreserves | app.py:417-485 | a dig keeps the store consistent |
| Game.DigNeverInternal | app.py:444-457 | in a consistent store a dig never ends in the 500 of a missing map or an index beyond the grid |
| Game.DigGuards | app.py:417-441 | in a consistent store, a malformed request (no session id, no cell, or a cell outside 0..47) is refused first, then a session the caller does not own, then, before expiry, a cell already in the session's history; every other dig before expiry gets past the guards and is answered dead, hurt or safe, never timeout |
| Game.DigErrorChangesNothing | app.py:417-441 | an error reply from a dig leaves maps and sessions unchanged |
| Game.DigTouchesOneSession | app.py:417-485 | a dig changes only the caller's session, and only that session's map, by appending the dug cell |
| Game.DigOutcomeByCode | app.py:457-485 | a trap sets `dead` and is recorded on the map; a pit sets `hurt` and records nothing; any other code keeps the status, extends the history and the map's list by the cell, answers a safe reply whose reward is 5 for a chest or 1 otherwise, and adds that reward to the buffer |
| Game.DigTimesOutAfterExpiry | app.py:430-434 | a well-formed dig on the caller's own session answers `timeout` exactly when the clock is strictly past `expires_at` |
| Game.DigTimeoutIdempotent | app.py:430-434 | a timed-out dig leaves the maps alone and sets only the session's status to `timeout`; asking again then or later, for any cell, answers `timeout` again and changes nothing more |
| Game.DigSameCellTwice | app.py:439-441 | after a cell pays, digging it again before expiry is refused as already dug |
| Game.DigStageComplete | app.py:479-481 | `stage_complete` holds exactly when the map's list of opened cells, after the append, has at least 12 entries |
| Game.Store.Login | app.py:222-255 | a first-time caller is added with balance 1.00, 5 credits and name `user_<id>`; nothing else changes; the reply names an active session of the caller exactly when one exists |
| Game.Store.CreateMap | app.py:277-326 | a bad layout is refused first, then missing credits, with no change; success exactly for a well-formed layout and positive credits, spending one credit and storing the map active with nothing opened |
| Game.Store.Scout | app.py:328-351 | the reply is an active map the caller did not build, with zero statistics and the fee, or "no maps" exactly when there is none |
| Game.Store.StartRaid | app.py:353-405 | a missing map id, a balance below the fee and an unknown map are refused in that order with no change; otherwise the fee is charged and recorded, an active session expiring at now+120 is opened, and the walls reply is the sorted index list of code 1 |
| Game.Store.Dig | app.py:407-485 | the method's reply and new maps and sessions are those of `DigStep`; users and ledger are unchanged; the store stays consistent |
| Game.Store.Leave | app.py:487-513 | another player's or an unknown session is refused with no change; otherwise exactly the buffer is paid and recorded as a win and the session is marked completed whatever its status |
| Game.Store.MyTombs | app.py:515-541 | the loop returns exactly `TombsOf` of the stored maps |
| Game.Store.ClaimTomb | app.py:543-579 | a map not built by the caller, or with 12 or more safe cells left, is refused with no change; otherwise the map is set inactive and 1.00 is paid and recorded as a claim |

## Left out

- Flask routing, request parsing and `require_auth` (app.py:204-214) are not modelled. Each handler receives the caller's id; the 401 path and the rule that an id of 0 counts as unauthenticated are not modelled.
- The PostgreSQL store, table creation and migration are replaced by the in-memory `Game.Store`. Map and session ids are positions plus one, and a caller with no user row has no balance and no credits, as the source's queries find.
- Storing lists as JSON text is replaced by typed sequences. So `safe_json_loads` and the "Map data corrupted" 500 of `raid_dig` are not modelled. The 500 for a missing map or an index beyond the grid is modelled as `InternalError`, and `Game.DigNeverInternal` shows a consistent store never reaches it.
- The second "Map not found" of `raid_start` (app.py:393-397) is not modelled, because the map was found two queries earlier and cannot vanish in a sequential model.
- Rate limiting (flask_limiter) and concurrency between requests are not modelled: the model is sequential.
- Floating-point balances are replaced by exact integer hundredths, so float rounding of repeated additions is not modelled.
- Grid cells are integers only. JSON values of other types (strings, floats equal to a code, booleans) are not modelled, nor are non-list `grid` values other than a missing one.
- Database timestamps are not modelled: one `now` serves both as `created_at` and as the base of `expires_at`, and ledger entries carry no time.
- The maps' `difficulty` and `is_archived` columns, the `social` table and `editor_template` (random walls) play no part in the handlers modelled and are not modelled.
- HMAC-SHA256, hex encoding, UTF-8 encoding, `parse_qsl` and `json.loads` are uninterpreted functions. Only the exceptions `int()` raises on a bad `auth_date` and `compare_digest` raises on non-ASCII text are modelled (as `Raised`).
- User ids are integers only: a JSON `id` of another type is a non-integer the `userId` primitive does not return.
- Game.Store.Scout: the random choice of `ORDER BY RANDOM()` is modelled as an arbitrary choice among the offerable maps; its distribution is not modelled.
- Game.Store.Login: the source returns whichever active session the database yields first; the model promises some active session of the caller, not a particular one. The reply's user row omits `created_at`.
- Game.Store.StartRaid: every connection uses a dict-row cursor (app.py:36), so the positional lookups `map_data[0]` and `map_data[1]` (app.py:398-399) raise KeyError. As written, every request that gets past the map lookup therefore answers 500, and its fee, ledger entry and session are never committed. The model reads the intended `grid_json` and `dug_json` columns and commits. It does not model that 500.
- Game.Store.Dig and Game.DigStep: `datetime.fromisoformat(session['expires_at'])` (app.py:430) is handed the `datetime` that the database driver returns for the TIMESTAMP column (app.py:118), and it raises TypeError. As written, every dig on a session the caller owns answers 500. The model compares the clock with `expires_at` as intended, in whole seconds.
- Game.TombsOf: the query at app.py:524 has no ORDER BY, so the database may return the caller's maps in any order, and rewriting a map's row on each dig can change that order. The model lists them by increasing id, and no other order is modelled.
- InitData.Decide and InitData.Validate: the freshness test `time.time() - int(data['auth_date'])` (app.py:174) is floating-point arithmetic, but the model subtracts exactly in real numbers. Rounding near the 86400-second boundary is not modelled. Nor is the OverflowError, which surfaces as a 500, for an `auth_date` too large to convert to a double (above about 1.8e308): the model treats such a value as fresh or stale by exact comparison.
