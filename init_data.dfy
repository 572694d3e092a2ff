/**
 * The launch-payload validator (`validate_init_data`, app.py): the Telegram
 * Mini Apps scheme for validating data received via the Mini App.  The
 * payload is decoded into key/value fields, checked for freshness, and its
 * `hash` field is compared with
 *   hex(HMAC_SHA256(key = HMAC_SHA256(key = "WebAppData", msg = bot token),
 *                   msg = check string))
 * where the check string is every other field, sorted by key, written as
 * `key=value` lines joined by "\n".
 *
 * The cryptographic and parsing library calls are uninterpreted: they are
 * the fields of `Primitives`, so every statement below holds whatever those
 * functions compute.
 */
module InitData {
  import opened Wrappers
  import opened StringOrder

  type Bytes = seq<bv8>

  /** One decoded `key=value` pair of the payload. */
  type Field = (string, string)

  const MOCK_INIT_DATA: string := "mock_init_data"
  const MOCK_USER_ID: int := 1
  /** Seconds an `auth_date` stays acceptable (24 hours). */
  const FRESHNESS_WINDOW: int := 86400
  /** Key of the first HMAC, the scheme's domain-separation constant. */
  const WEB_APP_DATA: string := "WebAppData"
  const HASH_KEY: string := "hash"
  const AUTH_DATE_KEY: string := "auth_date"
  const USER_KEY: string := "user"

  /**
   * The foreign calls the validator makes.
   *   parseQuery  urllib.parse.parse_qsl(s, keep_blank_values=True); None when it raises
   *   parseInt    int(s); None when it raises ValueError
   *   hmacSha256  hmac.new(key, msg, hashlib.sha256).digest()
   *   hexDigest   the lower-case hex rendering of a digest
   *   encode      str.encode() (UTF-8)
   *   userId      json.loads(s).get('id'); None when the text is not JSON,
   *               not an object, or has no integer `id`
   */
  datatype Primitives = Primitives(
    parseQuery: string -> Option<seq<Field>>,
    parseInt: string -> Option<int>,
    hmacSha256: (Bytes, Bytes) -> Bytes,
    hexDigest: Bytes -> string,
    encode: string -> Bytes,
    userId: string -> Option<int>)

  /**
   * What a call returns: an identity, `None` (Rejected), the ValueError for
   * an unset bot token, or another exception that escapes the function
   * (from `int(auth_date)` or from `hmac.compare_digest` on non-ASCII text).
   */
  datatype Verdict = Authenticated(id: int) | Rejected | BotTokenMissing | Raised

  // ---------------------------------------------------------------------
  // The decoded payload as a Python dict: fields in insertion order, keys
  // distinct.

  predicate DistinctKeys(d: seq<Field>)
  {
    forall i, j :: 0 <= i < j < |d| ==> d[i].0 != d[j].0
  }

  /** `d.get(k)` */
  function Lookup(d: seq<Field>, k: string): (r: Option<string>)
    ensures r.None? <==> forall i :: 0 <= i < |d| ==> d[i].0 != k
    ensures r.Some? ==> (k, r.value) in d
  {
    if d == [] then None
    else if d[0].0 == k then Some(d[0].1)
    else Lookup(d[1..], k)
  }

  lemma {:induction false} LookupFinds(d: seq<Field>, k: string, v: string)
    requires DistinctKeys(d) && (k, v) in d
    ensures Lookup(d, k) == Some(v)
  {
    var j :| 0 <= j < |d| && d[j] == (k, v);
    if d[0].0 != k {
      assert d[1..][j - 1] == (k, v);
      LookupFinds(d[1..], k, v);
    } else {
      assert d[j].0 == d[0].0;
    }
  }

  /** `d[f.0] = f.1`: an existing key keeps its place and takes the new value. */
  function Insert(d: seq<Field>, f: Field): (r: seq<Field>)
    requires DistinctKeys(d)
    ensures DistinctKeys(r)
    ensures forall g :: g in r <==> g == f || (g in d && g.0 != f.0)
    ensures forall k :: Lookup(r, k) == if k == f.0 then Some(f.1) else Lookup(d, k)
  {
    if d == [] then [f]
    else if d[0].0 == f.0 then
      assert forall g :: g in d[1..] ==> g.0 != f.0 by {
        forall g | g in d[1..] ensures g.0 != f.0 {
          var j :| 0 <= j < |d[1..]| && d[1..][j] == g;
          assert d[0].0 != d[j + 1].0;
        }
      }
      [f] + d[1..]
    else
      var rest := Insert(d[1..], f);
      assert forall g :: g in rest ==> g.0 != d[0].0 by {
        forall g | g in rest ensures g.0 != d[0].0 {
          if g != f {
            var j :| 0 <= j < |d[1..]| && d[1..][j] == g;
            assert d[0].0 != d[j + 1].0;
          }
        }
      }
      assert forall j :: 0 <= j < |rest| ==> rest[j] in rest;
      [d[0]] + rest
  }

  /** The value the last pair with key `k` carries. */
  function LastValue(pairs: seq<Field>, k: string): Option<string>
  {
    if pairs == [] then None
    else if pairs[|pairs| - 1].0 == k then Some(pairs[|pairs| - 1].1)
    else LastValue(pairs[..|pairs| - 1], k)
  }

  /** `dict(pairs)`: duplicate keys keep the last value. */
  function ToDict(pairs: seq<Field>): (d: seq<Field>)
    ensures DistinctKeys(d)
    ensures forall k :: Lookup(d, k) == LastValue(pairs, k)
  {
    if pairs == [] then []
    else Insert(ToDict(pairs[..|pairs| - 1]), pairs[|pairs| - 1])
  }

  lemma {:induction false} InsertNewKey(d: seq<Field>, f: Field)
    requires DistinctKeys(d)
    requires forall g :: g in d ==> g.0 != f.0
    ensures Insert(d, f) == d + [f]
  {
    if d != [] {
      InsertNewKey(d[1..], f);
      assert d == [d[0]] + d[1..];
    }
  }

  /** Decoding a payload whose keys are distinct gives back its fields in order. */
  lemma {:induction false} ToDictOfDistinct(pairs: seq<Field>)
    requires DistinctKeys(pairs)
    ensures ToDict(pairs) == pairs
  {
    if pairs != [] {
      var n := |pairs| - 1;
      var init := pairs[..n];
      assert DistinctKeys(init);
      ToDictOfDistinct(init);
      forall g | g in init ensures g.0 != pairs[n].0 {
        var j :| 0 <= j < n && init[j] == g;
        assert pairs[j].0 != pairs[n].0;
      }
      InsertNewKey(init, pairs[n]);
      assert init + [pairs[n]] == pairs;
    }
  }

  /** `d.pop(k)`: every field except the one with key `k`, order kept. */
  function Remove(d: seq<Field>, k: string): (r: seq<Field>)
    ensures forall g :: g in r <==> g in d && g.0 != k
    ensures DistinctKeys(d) ==> DistinctKeys(r)
    ensures forall k' :: k' != k ==> Lookup(r, k') == Lookup(d, k')
  {
    if d == [] then []
    else if d[0].0 == k then Remove(d[1..], k)
    else
      var rest := Remove(d[1..], k);
      assert DistinctKeys(d) ==> forall g :: g in rest ==> g.0 != d[0].0 by {
        if DistinctKeys(d) {
          forall g | g in rest ensures g.0 != d[0].0 {
            var j :| 0 <= j < |d[1..]| && d[1..][j] == g;
            assert d[0].0 != d[j + 1].0;
          }
        }
      }
      assert forall j :: 0 <= j < |rest| ==> rest[j] in rest;
      [d[0]] + rest
  }

  lemma {:induction false} LookupAppend(d: seq<Field>, f: Field, k: string)
    requires k != f.0
    ensures Lookup(d + [f], k) == Lookup(d, k)
  {
    if d == [] {
      assert [f][1..] == [];
    } else {
      assert (d + [f])[1..] == d[1..] + [f];
      LookupAppend(d[1..], f, k);
    }
  }

  // ---------------------------------------------------------------------
  // The check string.

  /** Keys strictly increasing in Python's string order. */
  predicate StrictlySorted(s: seq<Field>)
  {
    forall i, j :: 0 <= i < j < |s| ==> Less(s[i].0, s[j].0)
  }

  function InsertSorted(s: seq<Field>, f: Field): (r: seq<Field>)
    requires StrictlySorted(s)
    requires forall g :: g in s ==> g.0 != f.0
    ensures StrictlySorted(r)
    ensures multiset(r) == multiset(s) + multiset{f}
  {
    if s == [] then [f]
    else if Less(f.0, s[0].0) then
      assert StrictlySorted([f] + s) by {
        forall j | 0 < j < |s| ensures Less(f.0, s[j].0) {
          LessTransitive(f.0, s[0].0, s[j].0);
        }
      }
      [f] + s
    else
      LessTotal(f.0, s[0].0);
      var rest := InsertSorted(s[1..], f);
      ConsBelow(s, f, rest);
      [s[0]] + rest
  }

  lemma ConsBelow(s: seq<Field>, f: Field, rest: seq<Field>)
    requires s != [] && StrictlySorted(s) && Less(s[0].0, f.0)
    requires StrictlySorted(rest) && multiset(rest) == multiset(s[1..]) + multiset{f}
    ensures StrictlySorted([s[0]] + rest)
    ensures multiset([s[0]] + rest) == multiset(s) + multiset{f}
  {
    forall g | g in rest ensures Less(s[0].0, g.0) {
      assert g in multiset(rest);
      if g != f {
        var j :| 0 <= j < |s[1..]| && s[1..][j] == g;
        assert s[j + 1] == g;
      }
    }
    assert forall j :: 0 <= j < |rest| ==> rest[j] in rest;
    assert s == [s[0]] + s[1..];
  }

  /** `sorted(d.items())`; keys are distinct, so this is the order of the keys. */
  function SortByKey(d: seq<Field>): (r: seq<Field>)
    requires DistinctKeys(d)
    ensures StrictlySorted(r)
    ensures multiset(r) == multiset(d)
  {
    if d == [] then []
    else
      var rest := SortByKey(d[1..]);
      assert forall g :: g in rest ==> g.0 != d[0].0 by {
        forall g | g in rest ensures g.0 != d[0].0 {
          assert g in multiset(d[1..]);
          var j :| 0 <= j < |d[1..]| && d[1..][j] == g;
          assert d[0].0 != d[j + 1].0;
        }
      }
      assert d == [d[0]] + d[1..];
      InsertSorted(rest, d[0])
  }

  /** Two strictly sorted sequences holding the same fields are equal. */
  lemma {:induction false} SortedUnique(a: seq<Field>, b: seq<Field>)
    requires StrictlySorted(a) && StrictlySorted(b)
    requires forall g :: g in a <==> g in b
    ensures a == b
  {
    SameFieldsBothEmpty(a, b);
    if a != [] {
      SortedHeadsAgree(a, b);
      SortedTailsAgree(a, b);
      SortedUnique(a[1..], b[1..]);
      assert a == [a[0]] + a[1..];
      assert b == [b[0]] + b[1..];
    }
  }

  lemma SameFieldsBothEmpty(a: seq<Field>, b: seq<Field>)
    requires forall g :: g in a <==> g in b
    ensures a == [] <==> b == []
  {
    if a != [] {
      assert a[0] in a;
    }
    if b != [] {
      assert b[0] in b;
    }
  }

  /** The first field of a strictly sorted sequence is its least. */
  lemma SortedHeadsAgree(a: seq<Field>, b: seq<Field>)
    requires StrictlySorted(a) && StrictlySorted(b) && a != []
    requires forall g :: g in a <==> g in b
    ensures b != [] && a[0] == b[0]
  {
    assert a[0] in a && a[0] in b;
    assert b[0] in b;
    var i :| 0 <= i < |a| && a[i] == b[0];
    var j :| 0 <= j < |b| && b[j] == a[0];
    if j != 0 {
      assert Less(b[0].0, a[0].0);
      if i != 0 {
        LessTransitive(a[0].0, a[i].0, a[0].0);
      }
      LessIrreflexive(a[0].0);
    }
  }

  /** Past a shared first field, the rests hold the same fields. */
  lemma SortedTailsAgree(a: seq<Field>, b: seq<Field>)
    requires StrictlySorted(a) && StrictlySorted(b) && a != [] && b != [] && a[0] == b[0]
    requires forall g :: g in a <==> g in b
    ensures forall g :: g in a[1..] <==> g in b[1..]
  {
    forall g | g in a[1..] ensures g in b[1..] {
      SortedTailMember(a, b, g);
    }
    forall g | g in b[1..] ensures g in a[1..] {
      SortedTailMember(b, a, g);
    }
  }

  lemma SortedTailMember(a: seq<Field>, b: seq<Field>, g: Field)
    requires StrictlySorted(a) && a != [] && b != [] && a[0] == b[0]
    requires g in a[1..] && g in b
    ensures g in b[1..]
  {
    var k :| 0 <= k < |a[1..]| && a[1..][k] == g;
    assert Less(a[0].0, g.0);
    LessIrreflexive(g.0);
    assert b == [b[0]] + b[1..];
  }

  /**
   * The fields the check string is built from: every field but `hash`,
   * in increasing key order.
   */
  function CheckFields(d: seq<Field>): (r: seq<Field>)
    requires DistinctKeys(d)
    ensures StrictlySorted(r)
    ensures forall g :: g in r <==> g in d && g.0 != HASH_KEY
  {
    var r := SortByKey(Remove(d, HASH_KEY));
    assert forall g :: g in r <==> g in multiset(r);
    r
  }

  /** The check string never has a `hash` line. */
  lemma CheckFieldsExcludeHash(d: seq<Field>)
    requires DistinctKeys(d)
    ensures forall i :: 0 <= i < |CheckFields(d)| ==> CheckFields(d)[i].0 != HASH_KEY
  {
    var r := CheckFields(d);
    forall i | 0 <= i < |r| ensures r[i].0 != HASH_KEY {
      assert r[i] in r;
    }
  }

  /**
   * The check fields depend on the set of fields other than `hash` only,
   * not on their order nor on the `hash` field.
   */
  lemma CheckFieldsOrderIndependent(a: seq<Field>, b: seq<Field>)
    requires DistinctKeys(a) && DistinctKeys(b)
    requires forall g: Field :: g.0 != HASH_KEY ==> (g in a <==> g in b)
    ensures CheckFields(a) == CheckFields(b)
  {
    SortedUnique(CheckFields(a), CheckFields(b));
  }

  function Line(f: Field): string
  {
    f.0 + "=" + f.1
  }

  /** `'\n'.join(f"{k}={v}" for k, v in fields)` */
  function JoinLines(fields: seq<Field>): string
  {
    if fields == [] then ""
    else if |fields| == 1 then Line(fields[0])
    else Line(fields[0]) + "\n" + JoinLines(fields[1..])
  }

  function CheckString(d: seq<Field>): string
    requires DistinctKeys(d)
  {
    JoinLines(CheckFields(d))
  }

  /** The hex digest the `hash` field must equal. */
  function ExpectedHash(p: Primitives, token: string, checkString: string): string
  {
    var secretKey := p.hmacSha256(p.encode(WEB_APP_DATA), p.encode(token));
    p.hexDigest(p.hmacSha256(secretKey, p.encode(checkString)))
  }

  /** `hmac.compare_digest` on `str` raises unless both sides are ASCII. */
  predicate IsAscii(s: string)
  {
    forall i :: 0 <= i < |s| ==> s[i] as int < 128
  }

  /** `if not BOT_TOKEN`: unset and empty both count as missing. */
  predicate TokenConfigured(botToken: Option<string>)
  {
    botToken.Some? && botToken.value != ""
  }

  // ---------------------------------------------------------------------
  // The validator.

  /**
   * The checks after decoding, on what they read from the decoded dict:
   * the `auth_date` and `hash` fields, the `user` field once `hash` is
   * popped, and the check string.
   */
  function Decide(p: Primitives, token: string, now: real, authDate: Option<string>,
                  received: Option<string>, user: Option<string>, checkString: string): Verdict
  {
    match authDate
    case None => Rejected
    case Some(a) =>
      match p.parseInt(a)
      case None => Raised
      case Some(t) =>
        if now - t as real >= FRESHNESS_WINDOW as real then Rejected
        else
          match received
          case None => Rejected
          case Some(h) =>
            var expected := ExpectedHash(p, token, checkString);
            if !IsAscii(h) || !IsAscii(expected) then Raised
            else if h != expected then Rejected
            else
              match user
              case None => Rejected
              case Some(u) =>
                match p.userId(u)
                case None => Rejected
                case Some(id) => Authenticated(id)
  }

  function CheckDecoded(p: Primitives, token: string, now: real, data: seq<Field>): Verdict
    requires DistinctKeys(data)
  {
    Decide(p, token, now, Lookup(data, AUTH_DATE_KEY), Lookup(data, HASH_KEY),
           Lookup(Remove(data, HASH_KEY), USER_KEY), CheckString(data))
  }

  /** The decoded dict of a payload, or None when decoding raises. */
  function Decoded(p: Primitives, initData: string): (r: Option<seq<Field>>)
    ensures r.Some? ==> DistinctKeys(r.value)
  {
    match p.parseQuery(initData)
    case None => None
    case Some(pairs) => Some(ToDict(pairs))
  }

  /** `validate_init_data(init_data)` at time `now` with the configured bot token. */
  function Validate(p: Primitives, botToken: Option<string>, now: real, initData: string): (v: Verdict)
    ensures initData == MOCK_INIT_DATA ==> v == Authenticated(MOCK_USER_ID)
    ensures v == BotTokenMissing <==> initData != MOCK_INIT_DATA && !TokenConfigured(botToken)
  {
    if initData == MOCK_INIT_DATA then Authenticated(MOCK_USER_ID)
    else if !TokenConfigured(botToken) then BotTokenMissing
    else
      match Decoded(p, initData)
      case None => Rejected
      case Some(data) => CheckDecoded(p, botToken.value, now, data)
  }

  // ---------------------------------------------------------------------
  // What the verdict depends on.

  /** `int(data['auth_date'])`, when the field is there and parses. */
  function AuthTime(p: Primitives, d: seq<Field>): Option<int>
  {
    match Lookup(d, AUTH_DATE_KEY)
    case None => None
    case Some(a) => p.parseInt(a)
  }

  /** `auth_date` is present, parses, and is less than a day old. */
  predicate Fresh(p: Primitives, d: seq<Field>, now: real)
  {
    AuthTime(p, d).Some? && now - AuthTime(p, d).value as real < FRESHNESS_WINDOW as real
  }

  /** The `hash` field is the expected digest of the check string. */
  predicate Signed(p: Primitives, token: string, d: seq<Field>)
    requires DistinctKeys(d)
  {
    Lookup(d, HASH_KEY) == Some(ExpectedHash(p, token, CheckString(d)))
  }

  /** The `id` of the JSON object in the `user` field. */
  function Identity(p: Primitives, d: seq<Field>): Option<int>
  {
    match Lookup(d, USER_KEY)
    case None => None
    case Some(u) => p.userId(u)
  }

  /**
   * An identity other than the test bypass comes back only for a decoded,
   * fresh, correctly signed payload whose `user` field carries that id.
   */
  lemma AuthenticatedOnlyIfSigned(p: Primitives, botToken: Option<string>, now: real, initData: string, id: int)
    requires initData != MOCK_INIT_DATA
    requires Validate(p, botToken, now, initData) == Authenticated(id)
    ensures TokenConfigured(botToken) && Decoded(p, initData).Some?
    ensures Fresh(p, Decoded(p, initData).value, now)
    ensures Signed(p, botToken.value, Decoded(p, initData).value)
    ensures Identity(p, Decoded(p, initData).value) == Some(id)
  {
    var d := Decoded(p, initData).value;
    var token := botToken.value;
    var user := Lookup(Remove(d, HASH_KEY), USER_KEY);
    assert user == Lookup(d, USER_KEY);
    DecideAuthenticated(p, token, now, Lookup(d, AUTH_DATE_KEY), Lookup(d, HASH_KEY), user, CheckString(d), id);
  }

  /** What `Decide` needs to see to return an identity. */
  lemma DecideAuthenticated(p: Primitives, token: string, now: real, authDate: Option<string>,
                            received: Option<string>, user: Option<string>, checkString: string, id: int)
    requires Decide(p, token, now, authDate, received, user, checkString) == Authenticated(id)
    ensures authDate.Some? && p.parseInt(authDate.value).Some?
    ensures now - p.parseInt(authDate.value).value as real < FRESHNESS_WINDOW as real
    ensures received == Some(ExpectedHash(p, token, checkString))
    ensures user.Some? && p.userId(user.value) == Some(id)
  {
  }

  /** The converse: such a payload is accepted with the id its `user` field carries. */
  lemma SignedFreshPayloadAuthenticates(p: Primitives, token: string, now: real, initData: string, id: int)
    requires initData != MOCK_INIT_DATA && TokenConfigured(Some(token))
    requires Decoded(p, initData).Some?
    requires Fresh(p, Decoded(p, initData).value, now)
    requires Signed(p, token, Decoded(p, initData).value)
    requires IsAscii(ExpectedHash(p, token, CheckString(Decoded(p, initData).value)))
    requires Identity(p, Decoded(p, initData).value) == Some(id)
    ensures Validate(p, Some(token), now, initData) == Authenticated(id)
  {
    var d := Decoded(p, initData).value;
    var user := Lookup(Remove(d, HASH_KEY), USER_KEY);
    assert user == Lookup(d, USER_KEY);
    DecideAccepts(p, token, now, Lookup(d, AUTH_DATE_KEY), Lookup(d, HASH_KEY), user, CheckString(d), id);
  }

  /** The converse of `DecideAuthenticated`, for an ASCII digest. */
  lemma DecideAccepts(p: Primitives, token: string, now: real, authDate: Option<string>,
                      received: Option<string>, user: Option<string>, checkString: string, id: int)
    requires authDate.Some? && p.parseInt(authDate.value).Some?
    requires now - p.parseInt(authDate.value).value as real < FRESHNESS_WINDOW as real
    requires received == Some(ExpectedHash(p, token, checkString)) && IsAscii(received.value)
    requires user.Some? && p.userId(user.value) == Some(id)
    ensures Decide(p, token, now, authDate, received, user, checkString) == Authenticated(id)
  {
  }

  /**
   * The ways a decoded payload is turned down: each gives `None`, not an
   * exception, and a matching signature does not rescue a missing or
   * malformed `user`.
   */
  lemma ValidateRejections(p: Primitives, token: string, now: real, initData: string)
    requires initData != MOCK_INIT_DATA && TokenConfigured(Some(token))
    requires Decoded(p, initData).Some?
    ensures var d := Decoded(p, initData).value;
      var v := Validate(p, Some(token), now, initData);
      && (Lookup(d, AUTH_DATE_KEY).None? ==> v == Rejected)
      && (AuthTime(p, d).Some? && !Fresh(p, d, now) ==> v == Rejected)
      && (Fresh(p, d, now) && Lookup(d, HASH_KEY).None? ==> v == Rejected)
      && ((Fresh(p, d, now) && Lookup(d, HASH_KEY).Some? && IsAscii(Lookup(d, HASH_KEY).value)
           && IsAscii(ExpectedHash(p, token, CheckString(d))) && !Signed(p, token, d)) ==> v == Rejected)
      && ((Fresh(p, d, now) && Signed(p, token, d) && IsAscii(ExpectedHash(p, token, CheckString(d)))
           && Identity(p, d).None?) ==> v == Rejected)
  {
    var d := Decoded(p, initData).value;
    assert Lookup(Remove(d, HASH_KEY), USER_KEY) == Lookup(d, USER_KEY);
  }

  /** Exactly 86400 seconds after `auth_date` the payload is already stale. */
  lemma StaleAtExactlyOneDay(p: Primitives, token: string, initData: string, t: int)
    requires initData != MOCK_INIT_DATA && TokenConfigured(Some(token))
    requires Decoded(p, initData).Some? && AuthTime(p, Decoded(p, initData).value) == Some(t)
    ensures Validate(p, Some(token), (t + FRESHNESS_WINDOW) as real, initData) == Rejected
  {
  }

  /**
   * Round trip: fields without a `hash` or a repeated key, with a fresh
   * `auth_date`, signed with the bot token and sent with the digest
   * appended, decode and validate to the embedded user id.
   */
  lemma SignedPayloadRoundTrip(p: Primitives, token: string, now: real, initData: string,
                               fields: seq<Field>, id: int)
    requires initData != MOCK_INIT_DATA && token != ""
    requires DistinctKeys(fields) && forall g :: g in fields ==> g.0 != HASH_KEY
    requires p.parseQuery(initData) == Some(fields + [(HASH_KEY, ExpectedHash(p, token, CheckString(fields)))])
    requires Fresh(p, fields, now) && Identity(p, fields) == Some(id)
    requires IsAscii(ExpectedHash(p, token, CheckString(fields)))
    ensures Validate(p, Some(token), now, initData) == Authenticated(id)
  {
    var h: Field := (HASH_KEY, ExpectedHash(p, token, CheckString(fields)));
    var pairs := fields + [h];
    AppendNewKeyDistinct(fields, h);
    DecodedDistinct(p, initData);
    LookupAppend(fields, h, AUTH_DATE_KEY);
    LookupAppend(fields, h, USER_KEY);
    assert AuthTime(p, pairs) == AuthTime(p, fields);
    assert Identity(p, pairs) == Identity(p, fields);
    assert h in pairs;
    LookupFinds(pairs, HASH_KEY, h.1);
    CheckFieldsOrderIndependent(pairs, fields);
    SignedFreshPayloadAuthenticates(p, token, now, initData, id);
  }

  lemma AppendNewKeyDistinct(d: seq<Field>, f: Field)
    requires DistinctKeys(d) && forall g :: g in d ==> g.0 != f.0
    ensures DistinctKeys(d + [f])
  {
    var e := d + [f];
    forall i, j | 0 <= i < j < |e| ensures e[i].0 != e[j].0 {
      if j == |d| {
        assert e[i] in d;
      } else {
        assert e[i].0 == d[i].0 && e[j].0 == d[j].0;
      }
    }
  }

  lemma LookupSameFields(a: seq<Field>, b: seq<Field>, k: string)
    requires DistinctKeys(a) && DistinctKeys(b)
    requires forall g :: g in a <==> g in b
    ensures Lookup(a, k) == Lookup(b, k)
  {
    if Lookup(a, k).Some? {
      LookupFinds(b, k, Lookup(a, k).value);
    } else if Lookup(b, k).Some? {
      LookupFinds(a, k, Lookup(b, k).value);
    }
  }

  /**
   * The verdict depends on the decoded fields, not on the order in which
   * the payload lists them (for payloads without repeated keys).
   */
  lemma ValidateOrderIndependent(p: Primitives, botToken: Option<string>, now: real, s1: string, s2: string)
    requires s1 != MOCK_INIT_DATA && s2 != MOCK_INIT_DATA
    requires p.parseQuery(s1).Some? && p.parseQuery(s2).Some?
    requires DistinctKeys(p.parseQuery(s1).value) && DistinctKeys(p.parseQuery(s2).value)
    requires forall g :: g in p.parseQuery(s1).value <==> g in p.parseQuery(s2).value
    ensures Validate(p, botToken, now, s1) == Validate(p, botToken, now, s2)
  {
    var a, b := p.parseQuery(s1).value, p.parseQuery(s2).value;
    DecodedDistinct(p, s1);
    DecodedDistinct(p, s2);
    if TokenConfigured(botToken) {
      LookupSameFields(a, b, AUTH_DATE_KEY);
      LookupSameFields(a, b, HASH_KEY);
      LookupSameFields(a, b, USER_KEY);
      CheckFieldsOrderIndependent(a, b);
      CheckDecodedDependsOn(p, botToken.value, now, a, b);
    }
  }

  lemma DecodedDistinct(p: Primitives, initData: string)
    requires p.parseQuery(initData).Some? && DistinctKeys(p.parseQuery(initData).value)
    ensures Decoded(p, initData) == p.parseQuery(initData)
  {
    ToDictOfDistinct(p.parseQuery(initData).value);
  }

  /** The checks after decoding read only `auth_date`, `hash`, `user` and the check string. */
  lemma CheckDecodedDependsOn(p: Primitives, token: string, now: real, a: seq<Field>, b: seq<Field>)
    requires DistinctKeys(a) && DistinctKeys(b)
    requires Lookup(a, AUTH_DATE_KEY) == Lookup(b, AUTH_DATE_KEY)
    requires Lookup(a, HASH_KEY) == Lookup(b, HASH_KEY)
    requires Lookup(a, USER_KEY) == Lookup(b, USER_KEY)
    requires CheckString(a) == CheckString(b)
    ensures CheckDecoded(p, token, now, a) == CheckDecoded(p, token, now, b)
  {
    assert Lookup(Remove(a, HASH_KEY), USER_KEY) == Lookup(a, USER_KEY);
    assert Lookup(Remove(b, HASH_KEY), USER_KEY) == Lookup(b, USER_KEY);
  }
}
