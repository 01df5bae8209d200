/** `ShortUrl`: one short link, read from and written to the `short_urls`
    table, and the visits it records in `url_visits`. Dates are integer
    timestamps; `strtotime` and `time()` are the caller's. */
module ShortUrls {
  import opened Wrappers

  /** A row of `short_urls`. */
  datatype Row = Row(
    id: int, originalUrl: string, shortCode: string, creatorIp: string,
    maxUses: Option<int>, expiresAt: Option<int>, visitCount: int, createdAt: int)

  /** A row of `url_visits`. */
  datatype Visit = Visit(shortCode: string, visitorIp: string, userAgent: string)

  /** The database behind the connection: `short_urls` keyed by its unique
      `short_code`, `url_visits` in insertion order, and the last id the
      auto-increment column handed out. */
  class Database {
    var rows: map<string, Row>
    var visits: seq<Visit>
    var lastId: int

    /** Every row sits under its own code, and ids are distinct and already
        handed out. */
    predicate Valid()
      reads this
    {
      && lastId >= 0
      && (forall c :: c in rows ==> rows[c].shortCode == c && 1 <= rows[c].id <= lastId)
      && (forall c, d :: c in rows && d in rows && c != d ==> rows[c].id != rows[d].id)
    }

    constructor ()
      ensures Valid() && rows == map[] && visits == [] && lastId == 0
    {
      rows := map[];
      visits := [];
      lastId := 0;
    }
  }

  /** `isActive()` at time `now`: not expired (expiring at exactly `now`
      still counts as active) and, when there is a use limit, not used up. */
  predicate Active(expiresAt: Option<int>, maxUses: Option<int>, visitCount: int, now: int) {
    && !(expiresAt.Some? && expiresAt.value < now)
    && !(maxUses.Some? && visitCount >= maxUses.value)
  }

  /** `UPDATE short_urls SET visit_count = visit_count + 1 WHERE short_code = code`. */
  function CountVisit(rows: map<string, Row>, code: string): (r: map<string, Row>)
    ensures r.Keys == rows.Keys
    ensures code in rows ==> r[code] == rows[code].(visitCount := rows[code].visitCount + 1)
    ensures forall c :: c in rows && c != code ==> r[c] == rows[c]
  {
    if code in rows then rows[code := rows[code].(visitCount := rows[code].visitCount + 1)] else rows
  }

  class ShortUrl {
    const conn: Database
    var id: Option<int>
    var originalUrl: string
    var shortCode: string
    var creatorIp: string
    var maxUses: Option<int>
    var expiresAt: Option<int>
    var visitCount: int
    var createdAt: Option<int>

    /** `new ShortUrl($db)`; the public fields start empty. */
    constructor (db: Database)
      ensures conn == db && id == None && visitCount == 0 && maxUses == None && expiresAt == None
      ensures originalUrl == "" && shortCode == "" && creatorIp == "" && createdAt == None
    {
      conn := db;
      id := None;
      originalUrl := "";
      shortCode := "";
      creatorIp := "";
      maxUses := None;
      expiresAt := None;
      visitCount := 0;
      createdAt := None;
    }

    /** `create()`: inserts the link under its code at time `now`, with no
        visits yet; only a successful insert sets `id`. The insert fails
        when the code is already taken. */
    method Create(now: int) returns (ok: bool)
      requires conn.Valid()
      modifies this`id, conn
      ensures conn.Valid()
      ensures ok <==> shortCode !in old(conn.rows)
      ensures ok ==> && conn.lastId == old(conn.lastId) + 1
                     && conn.rows == old(conn.rows)[shortCode := Row(conn.lastId, originalUrl, shortCode,
                                                        creatorIp, maxUses, expiresAt, 0, now)]
                     && id == Some(conn.lastId)
      ensures !ok ==> conn.rows == old(conn.rows) && conn.lastId == old(conn.lastId) && id == old(id)
      ensures conn.visits == old(conn.visits)
    {
      if shortCode in conn.rows {
        return false;
      }
      var newId := conn.lastId + 1;
      conn.rows := conn.rows[shortCode := Row(newId, originalUrl, shortCode, creatorIp, maxUses, expiresAt, 0, now)];
      conn.lastId := newId;
      id := Some(newId);
      ok := true;
    }

    /** `findByCode($code)`: on a hit all eight fields are loaded from the
        row; on a miss the object is left as it was. */
    method FindByCode(code: string) returns (found: bool)
      modifies this
      ensures found <==> code in conn.rows
      ensures found ==> var r := conn.rows[code];
                        && id == Some(r.id) && originalUrl == r.originalUrl && shortCode == r.shortCode
                        && creatorIp == r.creatorIp && maxUses == r.maxUses && expiresAt == r.expiresAt
                        && visitCount == r.visitCount && createdAt == Some(r.createdAt)
      ensures !found ==> && id == old(id) && originalUrl == old(originalUrl) && shortCode == old(shortCode)
                         && creatorIp == old(creatorIp) && maxUses == old(maxUses)
                         && expiresAt == old(expiresAt) && visitCount == old(visitCount)
                         && createdAt == old(createdAt)
    {
      if code !in conn.rows {
        return false;
      }
      var r := conn.rows[code];
      id := Some(r.id);
      originalUrl := r.originalUrl;
      shortCode := r.shortCode;
      creatorIp := r.creatorIp;
      maxUses := r.maxUses;
      expiresAt := r.expiresAt;
      visitCount := r.visitCount;
      createdAt := Some(r.createdAt);
      found := true;
    }

    /** `isActive()`, on the loaded fields. */
    predicate IsActive(now: int)
      reads this
    {
      Active(expiresAt, maxUses, visitCount, now)
    }

    /** `registerVisit($ip, $userAgent)`: the stored count of this code goes
        up by one and a visit is recorded; the loaded `visitCount` stays as
        it was. */
    method RegisterVisit(ip: string, userAgent: string) returns (ok: bool)
      requires conn.Valid()
      modifies conn
      ensures conn.Valid()
      ensures conn.rows == CountVisit(old(conn.rows), shortCode)
      ensures conn.visits == old(conn.visits) + [Visit(shortCode, ip, userAgent)]
      ensures conn.lastId == old(conn.lastId)
      ensures ok
    {
      conn.rows := CountVisit(conn.rows, shortCode);
      conn.visits := conn.visits + [Visit(shortCode, ip, userAgent)];
      ok := true;
    }

    /** `codeExists($code)`. */
    method CodeExists(code: string) returns (b: bool)
      ensures b <==> code in conn.rows
    {
      b := code in conn.rows;
    }
  }

  // ---------------------------------------------------------------------
  // Properties

  /** The expiry is inclusive: a link is active at its expiry time and
      inactive one second later. */
  lemma ExpiryInclusive(t: int, v: int)
    ensures Active(Some(t), None, v, t)
    ensures !Active(Some(t), None, v, t + 1)
  {
  }

  /** Time and visits only ever deactivate a link: active now with some
      visits means active earlier and with fewer visits. */
  lemma ActiveMonotone(e: Option<int>, m: Option<int>, v: int, now: int, v': int, now': int)
    requires Active(e, m, v, now) && v' <= v && now' <= now
    ensures Active(e, m, v', now')
  {
  }

  /** Counting `t` visits of a code. */
  function CountVisits(rows: map<string, Row>, code: string, t: nat): map<string, Row> {
    if t == 0 then rows else CountVisit(CountVisits(rows, code, t - 1), code)
  }

  /** A link stored with a use limit `n`, no expiry and no visits stays
      active for exactly its first n visits. */
  lemma {:induction false} UseLimit(rows: map<string, Row>, code: string, n: int, t: nat, now: int)
    requires code in rows && rows[code].maxUses == Some(n) && rows[code].expiresAt == None
    requires rows[code].visitCount == 0
    ensures code in CountVisits(rows, code, t)
    ensures var r := CountVisits(rows, code, t)[code];
            && r.visitCount == t && r.maxUses == Some(n) && r.expiresAt == None
            && (Active(r.expiresAt, r.maxUses, r.visitCount, now) <==> t < n)
  {
    if t > 0 {
      UseLimit(rows, code, n, t - 1, now);
    }
  }

  /** Counting visits of one code leaves every other row as it was. */
  lemma {:induction false} OtherRowsUntouched(rows: map<string, Row>, code: string, t: nat, other: string)
    requires other in rows && other != code
    ensures other in CountVisits(rows, code, t) && CountVisits(rows, code, t)[other] == rows[other]
  {
    if t > 0 {
      OtherRowsUntouched(rows, code, t - 1, other);
    }
  }
}
