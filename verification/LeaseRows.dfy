/**
 The cluster's ownership rows: one row per user, changed only by single SQL
 statements. The functions give the effect of each statement group run as one
 SQLite call; the class `InstanceTable` runs them on a table updated in place.
 */
module LeaseRows {
  import opened Basics

  type User = string
  type Host = string

  /** Launch parameters stored with a claim; `None` leaves the stored value (COALESCE). */
  datatype Meta = Meta(folder: Option<string>, patch: Option<string>)

  datatype Row = Row(host: Option<Host>, epoch: nat, heartbeat: int, leaseUntil: int, meta: Meta)

  type Rows = map<User, Row>

  datatype ClaimResult =
    | Claimed(epoch: nat, until: int)
    | Busy(holder: Option<Host>, until: int)

  /** The row an `INSERT` without ownership columns creates. */
  const FRESH_ROW := Row(None, 0, 0, 0, Meta(None, None))

  /** A missing row reads as an unowned row with epoch 0. */
  function Lookup(rows: Rows, user: User): Row {
    if user in rows then rows[user] else FRESH_ROW
  }

  /** The `WHERE` of claim and pin: nobody owns the row, or its lease has run out. */
  predicate Free(row: Row, now: int) {
    row.host.None? || row.leaseUntil < now
  }

  /** The `WHERE` of renew and release: the caller's host and epoch are the row's. */
  predicate Matches(rows: Rows, user: User, host: Host, epoch: nat) {
    user in rows && rows[user].host == Some(host) && rows[user].epoch == epoch
  }

  function Coalesce<T>(a: Option<T>, b: Option<T>): Option<T> {
    if a.Some? then a else b
  }

  /** The row after a successful claim. */
  function Taken(row: Row, host: Host, now: int, ttl: nat, meta: Meta): Row {
    Row(Some(host), row.epoch + 1, now, now + ttl,
        Meta(Coalesce(meta.folder, row.meta.folder), Coalesce(meta.patch, row.meta.patch)))
  }

  function InsertIfMissing(rows: Rows, user: User, row: Row): Rows {
    if user in rows then rows else rows[user := row]
  }

  function AfterClaim(rows: Rows, user: User, host: Host, now: int, ttl: nat, meta: Meta): Rows {
    var row := Lookup(rows, user);
    rows[user := if Free(row, now) then Taken(row, host, now, ttl, meta) else row]
  }

  function ClaimAnswer(rows: Rows, user: User, now: int, ttl: nat): ClaimResult {
    var row := Lookup(rows, user);
    if Free(row, now) then Claimed(row.epoch + 1, now + ttl) else Busy(row.host, row.leaseUntil)
  }

  function AfterRenew(rows: Rows, user: User, host: Host, epoch: nat, now: int, ttl: nat): Rows {
    if Matches(rows, user, host, epoch)
    then rows[user := rows[user].(heartbeat := now, leaseUntil := now + ttl)]
    else rows
  }

  function AfterRelease(rows: Rows, user: User, host: Host, epoch: nat): Rows {
    if Matches(rows, user, host, epoch)
    then rows[user := rows[user].(leaseUntil := 0)]
    else rows
  }

  function AfterPin(rows: Rows, user: User, host: Host, now: int): Rows {
    var inserted := InsertIfMissing(rows, user, FRESH_ROW.(host := Some(host)));
    if Free(inserted[user], now)
    then inserted[user := inserted[user].(host := Some(host))]
    else inserted
  }

  /** The table as one process updates it: every method is one synchronous SQLite call. */
  class InstanceTable {
    var rows: Rows

    constructor ()
      ensures rows == map[]
    {
      rows := map[];
    }

    method ClaimInstance(user: User, host: Host, now: int, ttl: nat, meta: Meta) returns (res: ClaimResult)
      modifies this
      ensures rows == AfterClaim(old(rows), user, host, now, ttl, meta)
      ensures res == ClaimAnswer(old(rows), user, now, ttl)
      ensures res.Claimed? <==> Free(Lookup(old(rows), user), now)
      ensures res.Claimed? ==> Matches(rows, user, host, res.epoch) && rows[user].leaseUntil == res.until
    {
      rows := InsertIfMissing(rows, user, FRESH_ROW);
      var changes := 0;
      if Free(rows[user], now) {
        var row := rows[user];
        rows := rows[user := Row(Some(host), row.epoch + 1, now, now + ttl,
                                 Meta(Coalesce(meta.folder, row.meta.folder), Coalesce(meta.patch, row.meta.patch)))];
        changes := 1;
      }
      var seen := rows[user];
      res := if changes > 0 then Claimed(seen.epoch, seen.leaseUntil) else Busy(seen.host, seen.leaseUntil);
    }

    method RenewInstanceLease(user: User, host: Host, epoch: nat, now: int, ttl: nat) returns (ok: bool)
      modifies this
      ensures ok == Matches(old(rows), user, host, epoch)
      ensures rows == AfterRenew(old(rows), user, host, epoch, now, ttl)
    {
      ok := user in rows && rows[user].host == Some(host) && rows[user].epoch == epoch;
      if ok {
        rows := rows[user := rows[user].(heartbeat := now, leaseUntil := now + ttl)];
      }
    }

    method ReleaseInstanceLease(user: User, host: Host, epoch: nat) returns (ok: bool)
      modifies this
      ensures ok == Matches(old(rows), user, host, epoch)
      ensures rows == AfterRelease(old(rows), user, host, epoch)
      ensures ok ==> rows[user].host == Some(host)
    {
      ok := user in rows && rows[user].host == Some(host) && rows[user].epoch == epoch;
      if ok {
        rows := rows[user := rows[user].(leaseUntil := 0)];
      }
    }

    method PinInstanceHost(user: User, host: Host, now: int)
      modifies this
      ensures rows == AfterPin(old(rows), user, host, now)
      ensures Lookup(rows, user).epoch == Lookup(old(rows), user).epoch
      ensures Lookup(rows, user).leaseUntil == Lookup(old(rows), user).leaseUntil
    {
      rows := InsertIfMissing(rows, user, FRESH_ROW.(host := Some(host)));
      if Free(rows[user], now) {
        rows := rows[user := rows[user].(host := Some(host))];
      }
    }
  }
}
