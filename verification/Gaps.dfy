/** The wait between two backups or restores of one user, in memory and in the database, and the short
  * wait after a refused restore. Times and durations are in nanoseconds.
  */
module Gaps {

  type User = nat

  /** Whether enough time has passed since the last start. The database asks for strictly more than the gap. */
  predicate Open(strict: bool, since: int, gap: int) { if strict then since > gap else since >= gap }

  predicate Granted(strict: bool, last: map<User, int>, u: User, now: int, gap: int) {
    u in last ==> Open(strict, now - last[u], gap)
  }

  // ---------------------------------------------------------------------------------------------
  // Histories: claims and clears of any number of users, on any number of replicas, against one store
  // ---------------------------------------------------------------------------------------------

  datatype Op = Claim(user: User, at: int) | Clear(user: User)

  function Stored(strict: bool, gap: int, ops: seq<Op>): map<User, int> {
    if ops == [] then map[] else var n := |ops| - 1; AfterOp(strict, gap, Stored(strict, gap, ops[..n]), ops[n])
  }

  function AfterOp(strict: bool, gap: int, last: map<User, int>, op: Op): map<User, int> {
    match op
    case Claim(u, now) => if Granted(strict, last, u, now, gap) then last[u := now] else last
    case Clear(u) => last - {u}
  }

  /** Claim i of the history was granted. */
  predicate GrantedAt(strict: bool, gap: int, ops: seq<Op>, i: nat) {
    i < |ops| && ops[i].Claim? && Granted(strict, Stored(strict, gap, ops[..i]), ops[i].user, ops[i].at, gap)
  }

  predicate Timed(ops: seq<Op>) {
    forall i, j :: 0 <= i < j < |ops| && ops[i].Claim? && ops[j].Claim? ==> ops[i].at <= ops[j].at
  }

  /** After a grant, the store remembers it or a later claim of the user, until the user is cleared. */
  lemma {:induction false} GrantRemembered(strict: bool, gap: int, ops: seq<Op>, i: nat)
    requires Timed(ops) && GrantedAt(strict, gap, ops, i)
    requires forall k :: i < k < |ops| ==> ops[k] != Clear(ops[i].user)
    ensures ops[i].user in Stored(strict, gap, ops) && Stored(strict, gap, ops)[ops[i].user] >= ops[i].at
  {
    var n := |ops| - 1;
    if i < n {
      assert ops[..n][..i] == ops[..i];
      GrantRemembered(strict, gap, ops[..n], i);
      assert ops[n] != Clear(ops[i].user);
    }
  }

  /** Two grants to one user with no clear between are the gap apart, whatever happened in between; in the
    * database, more than the gap. */
  lemma GrantsAreSpaced(strict: bool, gap: int, ops: seq<Op>, i: nat, j: nat)
    requires Timed(ops) && i < j && GrantedAt(strict, gap, ops, i) && GrantedAt(strict, gap, ops, j)
             && ops[i].user == ops[j].user
    requires forall k :: i < k < j ==> ops[k] != Clear(ops[i].user)
    ensures ops[j].at - ops[i].at >= gap && (strict ==> ops[j].at - ops[i].at > gap)
  {
    assert ops[..j][..i] == ops[..i];
    GrantRemembered(strict, gap, ops[..j], i);
  }

  predicate Uncleared(ops: seq<Op>, u: User, from: nat, to: nat)
    requires to <= |ops|
  {
    forall m :: from < m < to ==> ops[m] != Clear(u)
  }

  /** Claim k was granted to the user of claim i before it, and not cleared since. */
  predicate Stands(strict: bool, gap: int, ops: seq<Op>, k: nat, i: nat)
    requires i < |ops|
  {
    k < i && GrantedAt(strict, gap, ops, k) && ops[k].user == ops[i].user && Uncleared(ops, ops[i].user, k, i)
  }

  /** Claim i comes more than the gap after claim k, or in memory exactly the gap. */
  predicate SpacedAfter(strict: bool, gap: int, ops: seq<Op>, k: nat, i: nat)
    requires k < |ops| && i < |ops| && ops[k].Claim? && ops[i].Claim?
  {
    ops[i].at > ops[k].at + gap || (!strict && ops[i].at == ops[k].at + gap)
  }

  /** What the store remembers of a user is a granted claim that was not cleared since. */
  lemma {:induction false} StoredIsGrant(strict: bool, gap: int, ops: seq<Op>, u: User) returns (k: nat)
    requires u in Stored(strict, gap, ops)
    ensures k < |ops| && GrantedAt(strict, gap, ops, k) && ops[k] == Claim(u, Stored(strict, gap, ops)[u])
    ensures Uncleared(ops, u, k, |ops|)
  {
    var n := |ops| - 1;
    if GrantedAt(strict, gap, ops, n) && ops[n].user == u {
      k := n;
    } else {
      k := StoredIsGrant(strict, gap, ops[..n], u);
      assert ops[..n][..k] == ops[..k];
      assert forall m :: k < m < n ==> ops[..n][m] == ops[m];
    }
  }

  /** Which claims are granted: those far enough from every granted claim of the user that was not cleared since;
    * so the first one, and the first after a clear. */
  lemma GrantedIffSpaced(strict: bool, gap: int, ops: seq<Op>, i: nat)
    requires Timed(ops) && i < |ops| && ops[i].Claim?
    ensures GrantedAt(strict, gap, ops, i) <==>
            forall k: nat :: Stands(strict, gap, ops, k, i) ==> SpacedAfter(strict, gap, ops, k, i)
  {
    var u := ops[i].user;
    if GrantedAt(strict, gap, ops, i) {
      forall k: nat | Stands(strict, gap, ops, k, i) ensures SpacedAfter(strict, gap, ops, k, i) {
        GrantsAreSpaced(strict, gap, ops, k, i);
      }
    } else {
      var k := StoredIsGrant(strict, gap, ops[..i], u);
      assert ops[..i][..k] == ops[..k];
      assert forall m :: k < m < i ==> ops[..i][m] == ops[m];
      assert Stands(strict, gap, ops, k, i);
    }
  }

  // ---------------------------------------------------------------------------------------------
  // The wait told to the caller
  // ---------------------------------------------------------------------------------------------

  /** In memory the wait told is exact: a retry succeeds if and only if it comes no sooner. */
  lemma MemoryWaitIsExact(last: map<User, int>, u: User, now: int, gap: int, later: int)
    requires !Granted(false, last, u, now, gap)
    ensures var wait := gap - (now - last[u]);
            wait > 0 && (Granted(false, last, u, now + later, gap) <==> later >= wait)
  {
  }

  const SECOND := 1_000_000_000

  /** In the database: what is left, but at least a second. */
  function DatabaseWait(last: int, now: int, gap: int): int {
    if last + gap - now < SECOND then SECOND else last + gap - now
  }

  /** What the response header says: whole seconds, and one more. */
  function Header(wait: int): int
    requires wait >= 0
  {
    wait / SECOND + 1
  }

  /** A retry after the database's wait is still refused, unless less than a second was left; one after the
    * seconds in the header is let in. */
  lemma DatabaseRetryAtHeader(last: map<User, int>, u: User, now: int, gap: int)
    requires !Granted(true, last, u, now, gap)
    ensures var wait := DatabaseWait(last[u], now, gap);
            && wait >= SECOND
            && (Granted(true, last, u, now + wait, gap) <==> last[u] + gap - now < SECOND)
            && Granted(true, last, u, now + Header(wait) * SECOND, gap)
  {
    var wait := DatabaseWait(last[u], now, gap);
    assert wait == wait / SECOND * SECOND + wait % SECOND;
    assert Header(wait) * SECOND == wait / SECOND * SECOND + SECOND;
  }

  // ---------------------------------------------------------------------------------------------
  // In memory: pruned, and as good as not pruned
  // ---------------------------------------------------------------------------------------------

  /** `all` is the map that never forgets, at time `clock`; the real one only forgets entries that no longer matter. */
  class MemGaps {
    var last: map<User, int>
    ghost var all: map<User, int>
    ghost var clock: int

    constructor ()
      ensures last == map[] && all == map[]
    {
      last, all, clock := map[], map[], 0;
    }

    ghost predicate Faithful(gap: int)
      reads this
    {
      && (forall u :: u in last ==> u in all && last[u] == all[u])
      && (forall u :: u in all ==> all[u] <= clock)
      && (forall u :: u in all && u !in last ==> clock - all[u] >= gap)
    }

    /** With one gap and a clock that does not go back, the pruned map answers as the map that never forgets. */
    method Claim(u: User, now: int, gap: int) returns (ok: bool, wait: int)
      requires Faithful(gap) && now >= clock
      modifies this
      ensures Faithful(gap) && clock == now
      ensures ok <==> u !in old(all) || now - old(all)[u] >= gap
      ensures wait == if ok then 0 else gap - (now - old(all)[u])
      ensures all == if ok then old(all)[u := now] else old(all)
      ensures ok ==> forall k :: k in last ==> k == u || now - last[k] < gap
    {
      clock := now;
      if u in last && now - last[u] < gap {
        return false, gap - (now - last[u]);
      }
      var keys := last.Keys;
      ghost var before := last;
      while keys != {}
        invariant keys <= before.Keys
        invariant forall k :: k in last <==> k in before && (k in keys || now - before[k] < gap)
        invariant forall k :: k in last ==> last[k] == before[k]
        invariant all == old(all) && clock == now
        decreases |keys|
      {
        var k: nat :| k in keys;
        if now - last[k] >= gap {
          last := last - {k};
        }
        keys := keys - {k};
      }
      last, all := last[u := now], all[u := now];
      return true, 0;
    }

    method Clear(u: User, ghost gap: int)
      requires Faithful(gap)
      modifies this
      ensures Faithful(gap) && all == old(all) - {u} && clock == old(clock)
    {
      last, all := last - {u}, all - {u};
    }
  }

  /** One claim on the pruned map, as values: the answer and the new map. */
  function PrunedClaim(last: map<User, int>, u: User, now: int, gap: int): (bool, map<User, int>) {
    if u in last && now - last[u] < gap then (false, last)
    else (true, (map k | k in last && now - last[k] < gap :: last[k])[u := now])
  }

  /** With two different gaps pruning shows: a claim under the short gap forgets a start that still counts under
    * the long one. */
  lemma PruningShowsWithTwoGaps(short: nat, long: nat)
    requires short < long
    ensures var started := map[1 := 0];
            var pruned := PrunedClaim(started, 2, short, short).1;
            !Granted(false, started[2 := short], 1, short, long) && PrunedClaim(pruned, 1, short, long).0
  {
  }

  /** The wait after a refused restore, kept per pod. `all` again never forgets. */
  class Cooldowns {
    var until: map<User, int>
    ghost var all: map<User, int>
    ghost var clock: int

    constructor ()
      ensures until == map[] && all == map[]
    {
      until, all, clock := map[], map[], 0;
    }

    ghost predicate Faithful()
      reads this
    {
      && (forall u :: u in until ==> u in all && until[u] == all[u])
      && (forall u :: u in all && u !in until ==> all[u] <= clock)
    }

    /** How long u must still wait: as long as the latest cooldown says, 0 when it is over. */
    method CoolingDown(u: User, now: int) returns (wait: int)
      requires Faithful() && now >= clock
      modifies this
      ensures Faithful() && clock == now && all == old(all)
      ensures wait == if u in all && all[u] > now then all[u] - now else 0
    {
      clock := now;
      if u !in until {
        return 0;
      }
      if until[u] - now > 0 {
        return until[u] - now;
      }
      until := until - {u};
      return 0;
    }

    method Begin(u: User, now: int, cooldown: int)
      requires Faithful() && now >= clock
      modifies this
      ensures Faithful() && clock == now && all == old(all)[u := now + cooldown]
      ensures forall k :: k in until ==> k == u || until[k] >= now
    {
      clock := now;
      var keys := until.Keys;
      ghost var before := until;
      while keys != {}
        invariant keys <= before.Keys
        invariant forall k :: k in until <==> k in before && (k in keys || before[k] >= now)
        invariant forall k :: k in until ==> until[k] == before[k]
        invariant all == old(all) && clock == now
        decreases |keys|
      {
        var k: nat :| k in keys;
        if now > until[k] {
          until := until - {k};
        }
        keys := keys - {k};
      }
      until, all := until[u := now + cooldown], all[u := now + cooldown];
    }
  }
}
