/** One retry pass over the queue of all accounts, and that for each account it is a run of AppleRevoke's steps. */
module AppleQueue {
  import opened Options
  import opened AppleRevoke

  type AccountId = nat

  /** What the outside answers during a pass: does the account's sealed token open, does Apple revoke it? */
  datatype World = World(configured: bool, opens: AccountId -> bool, revokes: AccountId -> bool)

  function Lookup(rows: map<AccountId, Row>, a: AccountId): Option<Row> { if a in rows then Some(rows[a]) else None }

  /** What a pass does to one account's row. */
  function RowAfter(row: Option<Row>, now: int, claimed: bool, world: World, a: AccountId): Option<Row> {
    if row.None? || Expired(row.value, now) then None
    else if !claimed then row
    else if !world.opens(a) || world.revokes(a) then None
    else Some(row.value.(attempts := row.value.attempts + 1, lastTried := now))
  }

  /** In terms of the columns: a row that failed 30 days ago or 20 times goes; one that was claimed goes when its
    * token could not be opened or was revoked, and counts one more attempt when Apple refused; another stays. */
  predicate RowPassed(row: Option<Row>, after: Option<Row>, now: int, claimed: bool, opens: bool, revokes: bool) {
    match row
    case None => after.None?
    case Some(r) =>
      && (after.None? <==> now - r.failedAt > 43_200 || r.attempts >= 20 || (claimed && (!opens || revokes)))
      && (after.Some? ==>
            && after.value.id == r.id && after.value.token == r.token && after.value.failedAt == r.failedAt
            && after.value.attempts == r.attempts + (if claimed then 1 else 0)
            && after.value.lastTried == if claimed then now else r.lastTried)
  }

  /** A row that a pass may claim: neither too old nor tried too often, and its backoff is over. */
  predicate Claimable(rows: map<AccountId, Row>, a: AccountId, now: int) {
    && a in rows && now - rows[a].failedAt <= 43_200 && rows[a].attempts < 20
    && now - rows[a].lastTried >= Backoff(rows[a].attempts)
  }

  function DueIn(rows: map<AccountId, Row>, now: int): set<AccountId> { set a | a in rows && Due(rows[a], now) }

  method Oldest(rows: map<AccountId, Row>, waiting: set<AccountId>) returns (a: AccountId)
    requires waiting != {} && waiting <= rows.Keys
    ensures a in waiting && forall b :: b in waiting ==> rows[a].lastTried <= rows[b].lastTried
  {
    var left := waiting;
    a :| a in left;
    left := left - {a};
    while left != {}
      invariant left <= waiting && a in waiting
                && forall b :: b in waiting - left ==> rows[a].lastTried <= rows[b].lastTried
      decreases |left|
    {
      var b: nat :| b in left;
      if rows[b].lastTried < rows[a].lastTried {
        a := b;
      }
      left := left - {b};
    }
  }

  /** Some of the waiting accounts: each once, as many as the limit allows, none passed over for a more recently
    * tried one. */
  ghost predicate FairClaim(rows: map<AccountId, Row>, waiting: set<AccountId>, limit: nat, due: seq<AccountId>)
    requires waiting <= rows.Keys
  {
    && (forall i, j :: 0 <= i < j < |due| ==> due[i] != due[j])
    && (forall a :: a in due ==> a in waiting)
    && |due| <= limit && (|due| < limit ==> forall a :: a in waiting ==> a in due)
    && (forall a, b :: a in due && b in waiting && b !in due ==> rows[a].lastTried <= rows[b].lastTried)
  }

  /** Up to limit of the waiting accounts, least recently tried first. */
  method Choose(rows: map<AccountId, Row>, waiting: set<AccountId>, limit: nat) returns (due: seq<AccountId>)
    requires waiting <= rows.Keys
    ensures FairClaim(rows, waiting, limit, due)
  {
    due := [];
    var left := waiting;
    while |due| < limit && left != {}
      invariant left <= waiting && |due| <= limit
      invariant forall a :: a in waiting ==> (a in left <==> a !in due)
      invariant forall a :: a in due ==> a in waiting
      invariant forall i, j :: 0 <= i < j < |due| ==> due[i] != due[j]
      invariant forall a, b :: a in due && b in left ==> rows[a].lastTried <= rows[b].lastTried
      decreases limit - |due|
    {
      var a := Oldest(rows, left);
      due := due + [a];
      left := left - {a};
    }
  }

  class Queue {
    var rows: map<AccountId, Row>
    var revoked: set<AccountId>

    constructor (rows: map<AccountId, Row>)
      ensures this.rows == rows && revoked == {}
    {
      this.rows, revoked := rows, {};
    }

    method Expire(now: int)
      modifies this`rows
      ensures rows == Unexpired(old(rows), now)
    {
      rows := map a | a in rows && !AppleRevoke.Expired(rows[a], now) :: rows[a];
    }

    /** Claims up to limit due rows and stamps them as tried. */
    method ClaimDue(now: int, limit: nat) returns (due: seq<AccountId>)
      modifies this`rows
      ensures FairClaim(old(rows), DueIn(old(rows), now), limit, due)
      ensures forall a :: Lookup(rows, a) == if a in due then Stamped(old(rows), now, a) else Lookup(old(rows), a)
    {
      due := Choose(rows, DueIn(rows, now), limit);
      rows := map a | a in rows :: if a in due then rows[a].(lastTried := now) else rows[a];
    }

    /** Open, revoke and settle one claimed row. */
    method Settle(a: AccountId, now: int, world: World)
      requires a in rows
      modifies this
      ensures rows == if world.opens(a) && !world.revokes(a)
                      then old(rows)[a := old(rows)[a].(attempts := old(rows)[a].attempts + 1, lastTried := now)]
                      else old(rows) - {a}
      ensures revoked == old(revoked) + if world.opens(a) && world.revokes(a) then {a} else {}
    {
      if !world.opens(a) {
        rows := rows - {a};
      } else if world.revokes(a) {
        revoked := revoked + {a};
        rows := rows - {a};
      } else {
        rows := rows[a := rows[a].(attempts := rows[a].attempts + 1, lastTried := now)];
      }
    }

    method SettleAll(due: seq<AccountId>, now: int, world: World)
      requires forall i :: 0 <= i < |due| ==> due[i] in rows
      requires forall i, j :: 0 <= i < j < |due| ==> due[i] != due[j]
      modifies this
      ensures forall a ::
              Lookup(rows, a) == if a in due then Settled(old(rows), now, world, a) else Lookup(old(rows), a)
      ensures forall a :: a in revoked <==> a in old(revoked) || (a in due && world.opens(a) && world.revokes(a))
    {
      for i := 0 to |due|
        invariant forall a ::
                  Lookup(rows, a) == if a in due[..i] then Settled(old(rows), now, world, a) else Lookup(old(rows), a)
        invariant forall a :: a in revoked <==>
                  a in old(revoked) || (a in due[..i] && world.opens(a) && world.revokes(a))
      {
        assert due[i] !in due[..i] && due[..i + 1] == due[..i] + [due[i]];
        assert Lookup(rows, due[i]) == Lookup(old(rows), due[i]);
        Settle(due[i], now, world);
      }
      assert due[..|due|] == due;
    }

    /** One pass: expire, claim what is due, then settle each claimed row. */
    method RetryOnce(now: int, limit: nat, world: World) returns (due: seq<AccountId>)
      modifies this
      ensures !world.configured ==> due == []
      ensures world.configured ==>
              FairClaim(Unexpired(old(rows), now), DueIn(Unexpired(old(rows), now), now), limit, due)
      ensures forall a :: Lookup(rows, a) == RowAfter(Lookup(old(rows), a), now, a in due, world, a)
      ensures forall a :: RowPassed(Lookup(old(rows), a), Lookup(rows, a), now, a in due, world.opens(a),
                                    world.revokes(a))
      ensures |due| <= limit && forall a :: a in due ==> Claimable(old(rows), a, now)
      ensures world.configured && |due| < limit ==> forall a :: Claimable(old(rows), a, now) ==> a in due
      ensures forall a :: a in revoked <==> a in old(revoked) || (a in due && world.opens(a) && world.revokes(a))
    {
      Expire(now);
      due := [];
      if !world.configured {
        return;
      }
      due := ClaimDue(now, limit);
      forall i | 0 <= i < |due| ensures due[i] in rows {
        assert Lookup(rows, due[i]).Some?;
      }
      SettleAll(due, now, world);
    }
  }

  function Unexpired(rows: map<AccountId, Row>, now: int): map<AccountId, Row> {
    map a | a in rows && !AppleRevoke.Expired(rows[a], now) :: rows[a]
  }

  function Stamped(rows: map<AccountId, Row>, now: int, a: AccountId): Option<Row> {
    if a in rows then Some(rows[a].(lastTried := now)) else None
  }

  function Settled(rows: map<AccountId, Row>, now: int, world: World, a: AccountId): Option<Row> {
    if a in rows && world.opens(a) && !world.revokes(a)
    then Some(rows[a].(attempts := rows[a].attempts + 1, lastTried := now)) else None
  }

  /** For its own account, a pass is a run of the protocol by a new process. */
  lemma PassIsProtocol(reach: iset<State>, s: State, claimed: bool, world: World, a: AccountId, p: nat)
      returns (r: State)
    requires Closed(reach) && s in reach && p !in s.procs
    requires claimed ==> s.row.Some? && !AppleRevoke.Expired(s.row.value, s.now) && Due(s.row.value, s.now)
    ensures r in reach && r.row == RowAfter(s.row, s.now, claimed, world, a)
    ensures r.procs == s.procs && r.live == s.live && r.kept == s.kept && r.last == s.last
    ensures claimed && world.opens(a) && world.revokes(a) ==> s.row.value.token in r.revoked
  {
    if s.row.Some? && AppleRevoke.Expired(s.row.value, s.now) {
      r := Next(s, AppleRevoke.Step.Expire);
    } else if claimed {
      var s1 := Next(s, Claim(p));
      var s2 := Next(s1, Open(p, world.opens(a)));
      if world.opens(a) {
        r := PassSettles(reach, s, s2, world.revokes(a), p);
      } else {
        r := Next(s2, DropUnreadable(p));
      }
      assert r.procs == s.procs;
    } else {
      r := s;
    }
  }

  lemma PassSettles(reach: iset<State>, s: State, s2: State, revokes: bool, p: nat) returns (r: State)
    requires Closed(reach) && s2 in reach && s.row.Some? && p !in s.procs
    requires s2 == s.(row := Some(s.row.value.(lastTried := s.now)),
                      procs := s.procs[p := Claimed(s.row.value.id, s.row.value.token)])
    ensures r in reach
    ensures revokes ==> r == s.(row := None, revoked := s.revoked + {s.row.value.token})
    ensures !revokes ==> r == s.(row := Some(s.row.value.(attempts := s.row.value.attempts + 1, lastTried := s.now)))
  {
    var s3 := Next(s2, RetryRevoke(p, revokes, revokes));
    if revokes {
      r := Next(s3, Resolve(p));
    } else {
      r := Next(s3, RecordFailure(p));
    }
    assert r.procs == s.procs;
  }
}
