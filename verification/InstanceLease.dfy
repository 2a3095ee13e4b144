/**
 One manager's lease book: the users it has claimed, and with which host and epoch.
 */
module InstanceLeases {
  import opened Basics
  import opened LeaseRows

  datatype Token = Token(host: Host, epoch: nat)

  /** The fencing test: the row read back still carries this host and epoch. */
  predicate StillHolder(row: Option<Row>, token: Token) {
    row.Some? && row.value.host == Some(token.host) && row.value.epoch == token.epoch
  }

  predicate TokenMatches(rows: Rows, user: User, token: Token) {
    Matches(rows, user, token.host, token.epoch)
  }

  /** The rows after renewing every booked user whose token still matches. */
  function AfterRenewAll(rows: Rows, held: map<User, Token>, clock: User -> int, ttl: nat): Rows {
    map user | user in rows ::
      if user in held && TokenMatches(rows, user, held[user])
      then rows[user].(heartbeat := clock(user), leaseUntil := clock(user) + ttl)
      else rows[user]
  }

  class InstanceLease {
    const hostId: Host
    const ttl: nat
    const renewInterval: nat
    const db: InstanceTable
    var held: map<User, Token>

    /** The constructor's check: a lease must outlive two renewal intervals. */
    ghost predicate Valid() {
      ttl > 2 * renewInterval
    }

    constructor (db: InstanceTable, hostId: Host, ttl: nat, renewInterval: nat)
      requires ttl > 2 * renewInterval
      ensures Valid() && this.db == db && this.hostId == hostId
      ensures this.ttl == ttl && this.renewInterval == renewInterval && held == map[]
    {
      this.db, this.hostId, this.ttl, this.renewInterval, held := db, hostId, ttl, renewInterval, map[];
    }

    /** Builds a lease book, or refuses: exactly the timings that break the invariant are refused. */
    static method Create(db: InstanceTable, hostId: Host, ttl: nat, renewInterval: nat)
      returns (lease: Option<InstanceLease>)
      ensures lease.Some? <==> ttl > 2 * renewInterval
      ensures lease.Some? ==> fresh(lease.value) && lease.value.Valid() && lease.value.db == db
                              && lease.value.ttl == ttl && lease.value.renewInterval == renewInterval
    {
      if ttl <= 2 * renewInterval {
        return None;
      }
      var made := new InstanceLease(db, hostId, ttl, renewInterval);
      lease := Some(made);
    }

    method Acquire(user: User, target: Option<Host>, now: int, meta: Meta) returns (res: ClaimResult)
      modifies this, db
      ensures var host := if target.Some? then target.value else hostId;
              && db.rows == AfterClaim(old(db.rows), user, host, now, ttl, meta)
              && res == ClaimAnswer(old(db.rows), user, now, ttl)
              && held == if res.Claimed? then old(held)[user := Token(host, res.epoch)] else old(held)
      ensures res.Claimed? ==> TokenMatches(db.rows, user, held[user])
    {
      var host := if target.Some? then target.value else hostId;
      res := db.ClaimInstance(user, host, now, ttl, meta);
      if res.Claimed? {
        held := held[user := Token(host, res.epoch)];
      }
    }

    method Renew(user: User, now: int) returns (ok: bool)
      modifies this, db
      ensures ok == (user in old(held) && TokenMatches(old(db.rows), user, old(held)[user]))
      ensures held == if ok then old(held) else old(held) - {user}
      ensures db.rows
              == if ok then AfterRenew(old(db.rows), user, old(held)[user].host, old(held)[user].epoch, now, ttl)
                         else old(db.rows)
    {
      if user !in held {
        return false;
      }
      ok := db.RenewInstanceLease(user, held[user].host, held[user].epoch, now, ttl);
      if !ok {
        held := held - {user};
      }
    }

    /**
     One heartbeat: renews every booked user. `clock` gives the clock reading when a user's
     statement runs. The users reported lost are exactly those whose token no longer matched.
     */
    method RenewAll(clock: User -> int) returns (lost: seq<User>)
      modifies this, db
      ensures forall user :: user in lost <==>
                user in old(held) && !TokenMatches(old(db.rows), user, old(held)[user])
      ensures forall i, j :: 0 <= i < j < |lost| ==> lost[i] != lost[j]
      ensures held == old(held) - set user | user in lost
      ensures db.rows == AfterRenewAll(old(db.rows), old(held), clock, ttl)
    {
      lost := [];
      var todo := held.Keys;
      ghost var done: set<User> := {};
      while todo != {}
        invariant todo !! done && todo + done == old(held).Keys
        invariant forall user :: user in lost <==>
                    user in done && !TokenMatches(old(db.rows), user, old(held)[user])
        invariant forall i, j :: 0 <= i < j < |lost| ==> lost[i] != lost[j]
        invariant held == old(held) - set user | user in lost
        invariant db.rows.Keys == old(db.rows).Keys
        invariant forall user :: user in db.rows && user !in done ==> db.rows[user] == old(db.rows)[user]
        invariant forall user :: user in db.rows && user in done ==>
                    db.rows[user] == AfterRenewAll(old(db.rows), old(held), clock, ttl)[user]
        decreases todo
      {
        var user :| user in todo;
        var ok := Renew(user, clock(user));
        if !ok {
          lost := lost + [user];
        }
        todo, done := todo - {user}, done + {user};
      }
    }

    method Release(user: User) returns (ok: bool)
      modifies this, db
      ensures ok == (user in old(held) && TokenMatches(old(db.rows), user, old(held)[user]))
      ensures held == if ok then old(held) - {user} else old(held)
      ensures db.rows == if ok then AfterRelease(old(db.rows), user, old(held)[user].host, old(held)[user].epoch)
                         else old(db.rows)
    {
      if user !in held {
        return false;
      }
      ok := db.ReleaseInstanceLease(user, held[user].host, held[user].epoch);
      if ok {
        held := held - {user};
      }
    }

    /** Reads the row back and forgets the user unless the row still carries its token. */
    method Refresh(user: User) returns (seen: Option<Row>)
      modifies this
      ensures seen == if user in db.rows then Some(db.rows[user]) else None
      ensures held == if user in old(held) && TokenMatches(db.rows, user, old(held)[user])
                      then old(held) else old(held) - {user}
    {
      seen := if user in db.rows then Some(db.rows[user]) else None;
      if user !in held || !StillHolder(seen, held[user]) {
        held := held - {user};
      }
    }
  }
}
