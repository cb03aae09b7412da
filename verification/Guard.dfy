/** The guard on backups and restores: how one request is let in, and what holds of any number of requests
  * on any number of pods, in any interleaving.
  */
module Guard {
  import opened Gaps
  import opened Sets

  const BUSY_WAIT := 30 * SECOND
  const REFUSAL_COOLDOWN := 30 * SECOND

  class BackupGuard {
    const max: nat
    var slots: nat
    const gaps: MemGaps
    const cool: Cooldowns

    constructor (max: nat)
      ensures this.max == max && slots == 0 && fresh(gaps) && fresh(cool) && gaps.all == map[] && cool.all == map[]
    {
      this.max, slots := max, 0;
      gaps := new MemGaps();
      cool := new Cooldowns();
    }

    ghost predicate Valid(gap: int, now: int)
      reads this, gaps, cool
    {
      slots <= max && gaps.Faithful(gap) && cool.Faithful() && gaps.clock <= now && cool.clock <= now
    }

    ghost predicate Cooling(u: User, now: int)
      reads this, cool
    {
      u in cool.all && cool.all[u] > now
    }

    /** Gives a slot back: at the end of an operation that was let in, or when its start is refused. */
    method Release(ghost gap: int, ghost now: int)
      requires Valid(gap, now) && slots > 0
      modifies this`slots
      ensures Valid(gap, now) && slots == old(slots) - 1
    {
      slots := slots - 1;
    }

    /** Lets u in, or says how long to wait. gapFails: the store of starts cannot answer; then u is let in. */
    method Acquire(u: User, now: int, gap: int, gapFails: bool) returns (ok: bool, wait: int)
      requires Valid(gap, now)
      modifies this`slots, gaps, cool
      ensures Valid(gap, now) && cool.all == old(cool.all)
      ensures ok <==>
              && !(u in old(cool.all) && old(cool.all)[u] > now) && old(slots) < max
              && (gapFails || u !in old(gaps.all) || now - old(gaps.all)[u] >= gap)
      ensures slots == old(slots) + if ok then 1 else 0
      ensures gaps.all == if ok && !gapFails then old(gaps.all)[u := now] else old(gaps.all)
      ensures !ok ==> wait == if u in old(cool.all) && old(cool.all)[u] > now then old(cool.all)[u] - now
                              else if old(slots) == max then 30_000_000_000 else gap - (now - old(gaps.all)[u])
    {
      wait := cool.CoolingDown(u, now);
      if wait > 0 {
        return false, wait;
      }
      if slots >= max {
        return false, BUSY_WAIT;
      }
      slots := slots + 1;
      if gapFails {
        return true, 0;
      }
      var claimed;
      claimed, wait := gaps.Claim(u, now, gap);
      if !claimed {
        Release(gap, now);
        return false, wait;
      }
      return true, 0;
    }

    method Forget(u: User, ghost gap: int, ghost now: int)
      requires Valid(gap, now)
      modifies gaps
      ensures Valid(gap, now) && gaps.all == old(gaps.all) - {u}
    {
      gaps.Clear(u, gap);
    }

    /** After a refused restore: the start is forgotten, but u must wait a little. */
    method ForgetWithCooldown(u: User, ghost gap: int, now: int)
      requires Valid(gap, now)
      modifies gaps, cool
      ensures Valid(gap, now) && gaps.all == old(gaps.all) - {u} && Cooling(u, now)
      ensures cool.all == old(cool.all)[u := now + 30_000_000_000]
    {
      Forget(u, gap, now);
      cool.Begin(u, now, REFUSAL_COOLDOWN);
    }
  }

  // ---------------------------------------------------------------------------------------------
  // All interleavings
  // ---------------------------------------------------------------------------------------------

  type Pod = nat

  /** A request: before its slot, with its slot but its claim open or refused, and running. */
  datatype Request = Waiting(pod: Pod, user: User) | Claiming(pod: Pod, user: User) | Denied(pod: Pod, user: User)
                   | Running(pod: Pod, user: User)

  /** slots: taken on each pod (0 where absent). last: the starts in the store; history: the claims and
    * clears so far. */
  datatype System = System(now: int, slots: map<Pod, int>, last: map<User, int>, history: seq<Op>,
                           requests: map<nat, Request>)

  const IDLE := System(0, map[], map[], [], map[])

  datatype Step =
    | Tick(d: nat)
    | Arrive(r: nat, pod: Pod, user: User)
    | TakeSlot(r: nat)
    | ClaimGap(r: nat)
    | GapUnknown(r: nat)         // the database cannot answer
    | FreeSlot(r: nat)           // of a refused claim
    | Finish(r: nat)             // gives the slot back
    | GiveBack(user: User)       // forget: from a running request, or one that just ended
    | Leave(r: nat)              // refused before it had a slot: cooling down, or gone
    | Restart(pod: Pod)

  /** strict: the starts are in the database, which asks for more than the gap. */
  datatype Limits = Limits(cap: nat, gap: int, strict: bool)

  function Taken(s: System, pod: Pod): int { if pod in s.slots then s.slots[pod] else 0 }

  predicate Enabled(s: System, step: Step) {
    match step
    case Tick(_) => true
    case Arrive(r, _, _) => r !in s.requests
    case TakeSlot(r) => r in s.requests && s.requests[r].Waiting?
    case ClaimGap(r) => r in s.requests && s.requests[r].Claiming?
    case GapUnknown(r) => r in s.requests && s.requests[r].Claiming?
    case FreeSlot(r) => r in s.requests && s.requests[r].Denied?
    case Finish(r) => r in s.requests && s.requests[r].Running?
    case GiveBack(_) => true
    case Leave(r) => r in s.requests && s.requests[r].Waiting?
    case Restart(_) => true
  }

  function Goto(s: System, r: nat, q: Request): System { s.(requests := s.requests[r := q]) }

  function Freed(s: System, r: nat): System
    requires r in s.requests
  {
    var pod := s.requests[r].pod;
    s.(slots := s.slots[pod := Taken(s, pod) - 1], requests := s.requests - {r})
  }

  function Next(lim: Limits, s: System, step: Step): System
    requires Enabled(s, step)
  {
    match step
    case Tick(d) => s.(now := s.now + d)
    case Arrive(r, pod, u) => Goto(s, r, Waiting(pod, u))
    case TakeSlot(r) =>
      var pod := s.requests[r].pod;
      if Taken(s, pod) < lim.cap
      then Goto(s.(slots := s.slots[pod := Taken(s, pod) + 1]), r, Claiming(pod, s.requests[r].user))
      else s.(requests := s.requests - {r})
    case ClaimGap(r) =>
      var (pod, u) := (s.requests[r].pod, s.requests[r].user);
      var s' := s.(history := s.history + [Claim(u, s.now)]);
      if Granted(lim.strict, s.last, u, s.now, lim.gap) then Goto(s'.(last := s.last[u := s.now]), r, Running(pod, u))
      else Goto(s', r, Denied(pod, u))
    case GapUnknown(r) => Goto(s, r, Running(s.requests[r].pod, s.requests[r].user))
    case FreeSlot(r) => Freed(s, r)
    case Finish(r) => Freed(s, r)
    case GiveBack(u) => s.(last := s.last - {u}, history := s.history + [Clear(u)])
    case Leave(r) => s.(requests := s.requests - {r})
    case Restart(pod) =>
      s.(slots := s.slots[pod := 0], requests := map r | r in s.requests && s.requests[r].pod != pod :: s.requests[r])
  }

  /** The requests that have a slot of a pod: being let in, being refused, or running. */
  function Holders(s: System, pod: Pod): set<nat> {
    set r | r in s.requests && s.requests[r].pod == pod && !s.requests[r].Waiting?
  }

  ghost predicate SlotsHeld(lim: Limits, s: System, pod: Pod) { Taken(s, pod) == |Holders(s, pod)| <= lim.cap }

  ghost predicate HistoryTold(lim: Limits, s: System) {
    s.last == Stored(lim.strict, lim.gap, s.history) && TimedBy(s.history, s.now)
  }

  /** A request changes its stage without taking or giving a slot, or leaves without one. */
  lemma HoldersUnmoved(lim: Limits, s: System, step: Step, pod: Pod)
    requires Enabled(s, step) && !step.TakeSlot? && !step.FreeSlot? && !step.Finish? && !step.Restart?
    ensures Holders(Next(lim, s, step), pod) == Holders(s, pod) && Taken(Next(lim, s, step), pod) == Taken(s, pod)
  {
    var s' := Next(lim, s, step);
    forall r ensures r in Holders(s', pod) <==> r in Holders(s, pod) {
    }
  }

  lemma HolderJoins(lim: Limits, s: System, r: nat, pod: Pod)
    requires Enabled(s, TakeSlot(r))
    ensures var s' := Next(lim, s, TakeSlot(r));
            Holders(s', pod) ==
            if s.requests[r].pod == pod && Taken(s, pod) < lim.cap then Holders(s, pod) + {r} else Holders(s, pod)
    ensures r !in Holders(s, pod)
  {
    var s' := Next(lim, s, TakeSlot(r));
    forall q | q != r ensures q in Holders(s', pod) <==> q in Holders(s, pod) {
    }
  }

  lemma HolderLeaves(s: System, r: nat, pod: Pod)
    requires r in s.requests && !s.requests[r].Waiting?
    ensures Holders(Freed(s, r), pod) == Holders(s, pod) - {r}
    ensures s.requests[r].pod == pod <==> r in Holders(s, pod)
  {
  }

  lemma TakingKeepsSlots(lim: Limits, s: System, r: nat, pod: Pod)
    requires Enabled(s, TakeSlot(r)) && SlotsHeld(lim, s, pod)
    ensures SlotsHeld(lim, Next(lim, s, TakeSlot(r)), pod)
  {
    HolderJoins(lim, s, r, pod);
  }

  lemma FreeingKeepsSlots(lim: Limits, s: System, r: nat, pod: Pod)
    requires r in s.requests && !s.requests[r].Waiting? && SlotsHeld(lim, s, pod)
    ensures SlotsHeld(lim, Freed(s, r), pod)
  {
    HolderLeaves(s, r, pod);
  }

  lemma RestartKeepsSlots(lim: Limits, s: System, p: Pod, pod: Pod)
    requires SlotsHeld(lim, s, pod)
    ensures SlotsHeld(lim, Next(lim, s, Restart(p)), pod)
  {
    assert Holders(Next(lim, s, Restart(p)), pod) == if p == pod then {} else Holders(s, pod);
  }

  lemma StepKeepsSlots(lim: Limits, s: System, step: Step, pod: Pod)
    requires Enabled(s, step) && SlotsHeld(lim, s, pod)
    ensures SlotsHeld(lim, Next(lim, s, step), pod)
  {
    match step
    case TakeSlot(r) => TakingKeepsSlots(lim, s, r, pod);
    case FreeSlot(r) => FreeingKeepsSlots(lim, s, r, pod);
    case Finish(r) => FreeingKeepsSlots(lim, s, r, pod);
    case Restart(p) => RestartKeepsSlots(lim, s, p, pod);
    case _ => HoldersUnmoved(lim, s, step, pod);
  }

  lemma StoredSnoc(strict: bool, gap: int, ops: seq<Op>, op: Op)
    ensures Stored(strict, gap, ops + [op]) == AfterOp(strict, gap, Stored(strict, gap, ops), op)
  {
    assert (ops + [op])[..|ops|] == ops;
  }

  predicate TimedBy(ops: seq<Op>, now: int) {
    Timed(ops) && forall i :: 0 <= i < |ops| && ops[i].Claim? ==> ops[i].at <= now
  }

  /** The operation a step adds to the history, if any. */
  function Added(s: System, step: Step): seq<Op>
    requires Enabled(s, step)
  {
    match step
    case ClaimGap(r) => [Claim(s.requests[r].user, s.now)]
    case GiveBack(u) => [Clear(u)]
    case _ => []
  }

  /** One operation more, made now. */
  lemma OpTold(ops: seq<Op>, now: int, op: Op)
    requires TimedBy(ops, now) && (op.Claim? ==> op.at == now)
    ensures TimedBy(ops + [op], now)
  {
  }

  lemma TimePasses(ops: seq<Op>, now: int, later: int)
    requires TimedBy(ops, now) && now <= later
    ensures TimedBy(ops, later)
  {
  }

  /** Only an added operation changes what the database holds. */
  lemma StepAdds(lim: Limits, s: System, step: Step)
    requires Enabled(s, step)
    ensures var s' := Next(lim, s, step);
            && s'.history == s.history + Added(s, step) && s.now <= s'.now
            && s'.last == if Added(s, step) == [] then s.last
                          else AfterOp(lim.strict, lim.gap, s.last, Added(s, step)[0])
    ensures Added(s, step) != [] ==> Next(lim, s, step).now == s.now
  {
  }

  lemma StepKeepsHistory(lim: Limits, s: System, step: Step)
    requires Enabled(s, step) && HistoryTold(lim, s)
    ensures HistoryTold(lim, Next(lim, s, step))
  {
    var added, s' := Added(s, step), Next(lim, s, step);
    StepAdds(lim, s, step);
    if added == [] {
      assert s.history + added == s.history;
      TimePasses(s.history, s.now, s'.now);
    } else {
      OpTold(s.history, s.now, added[0]);
      StoredSnoc(lim.strict, lim.gap, s.history, added[0]);
      assert s.history + added == s.history + [added[0]];
    }
  }

  ghost predicate Reaches(lim: Limits, s: System, n: nat)
    decreases n
  {
    if n == 0 then s == IDLE
    else exists q, step :: Reaches(lim, q, n - 1) && Enabled(q, step) && s == Next(lim, q, step)
  }

  /** In every run: on each pod the slots taken are the requests being let in, being refused or running, and
    * never more than there are; and the store of starts holds what the history of claims and clears says. */
  lemma {:induction false} GuardIsSafe(lim: Limits, s: System, n: nat, pod: Pod)
    requires Reaches(lim, s, n)
    ensures SlotsHeld(lim, s, pod) && HistoryTold(lim, s)
    decreases n
  {
    if n == 0 {
      assert Holders(s, pod) == {};
    } else {
      var q, step :| Reaches(lim, q, n - 1) && Enabled(q, step) && s == Next(lim, q, step);
      GuardIsSafe(lim, q, n - 1, pod);
      StepKeepsSlots(lim, q, step, pod);
      StepKeepsHistory(lim, q, step);
    }
  }

  /** In every run, whatever the pods: two granted starts of one user, with no clear between, are the gap apart,
    * in the database more than the gap. */
  lemma StartsAreSpaced(lim: Limits, s: System, n: nat, i: nat, j: nat)
    requires Reaches(lim, s, n) && i < j
    requires GrantedAt(lim.strict, lim.gap, s.history, i) && GrantedAt(lim.strict, lim.gap, s.history, j)
    requires s.history[i].user == s.history[j].user && forall k :: i < k < j ==>
             s.history[k] != Clear(s.history[i].user)
    ensures s.history[j].at - s.history[i].at >= lim.gap
    ensures lim.strict ==> s.history[j].at - s.history[i].at > lim.gap
  {
    GuardIsSafe(lim, s, n, 0);
    GrantsAreSpaced(lim.strict, lim.gap, s.history, i, j);
  }

  /** A granted claim is exactly one that starts its request running. */
  lemma GrantStartsRequest(lim: Limits, s: System, n: nat, r: nat)
    requires Reaches(lim, s, n) && Enabled(s, ClaimGap(r))
    ensures var s' := Next(lim, s, ClaimGap(r));
            s'.requests[r].Running? <==> GrantedAt(lim.strict, lim.gap, s'.history, |s.history|)
  {
    GuardIsSafe(lim, s, n, 0);
    var s' := Next(lim, s, ClaimGap(r));
    assert s'.history[..|s.history|] == s.history;
  }

  /** What a request with its slot does until it is let in or refused. */
  function Claims(lim: Limits, last: map<User, int>, now: int, r: nat, u: User, gapFails: bool): seq<Step> {
    if gapFails then [GapUnknown(r)] + []
    else if Granted(lim.strict, last, u, now, lim.gap) then [ClaimGap(r)] + []
    else [ClaimGap(r)] + ([FreeSlot(r)] + [])
  }

  /** What one request does until it is let in or refused. */
  function Attempt(lim: Limits, s: System, r: nat, pod: Pod, u: User, gapFails: bool): seq<Step> {
    [Arrive(r, pod, u)] +
    ([TakeSlot(r)] + if Taken(s, pod) < lim.cap then Claims(lim, s.last, s.now, r, u, gapFails) else [])
  }

  /** The state after some steps, if each is enabled in its turn. */
  ghost predicate Takes(lim: Limits, s: System, steps: seq<Step>, r: System)
    decreases |steps|
  {
    if steps == [] then r == s else Enabled(s, steps[0]) && Takes(lim, Next(lim, s, steps[0]), steps[1..], r)
  }

  lemma TakesCons(lim: Limits, s: System, step: Step, more: seq<Step>, r: System)
    requires Enabled(s, step) && Takes(lim, Next(lim, s, step), more, r)
    ensures Takes(lim, s, [step] + more, r)
  {
    assert ([step] + more)[1..] == more;
  }

  lemma ClaimsOfOne(lim: Limits, s: System, r: nat, gapFails: bool) returns (t: System)
    requires r in s.requests && s.requests[r].Claiming?
    ensures var q := s.requests[r];
            var open := gapFails || Granted(lim.strict, s.last, q.user, s.now, lim.gap);
            && Takes(lim, s, Claims(lim, s.last, s.now, r, q.user, gapFails), t)
            && t.requests == (if open then s.requests[r := Running(q.pod, q.user)] else s.requests - {r})
            && Taken(t, q.pod) == Taken(s, q.pod) - (if open then 0 else 1)
            && t.last == if open && !gapFails then s.last[q.user := s.now] else s.last
  {
    if gapFails {
      t := Next(lim, s, GapUnknown(r));
      TakesCons(lim, s, GapUnknown(r), [], t);
    } else {
      t := Next(lim, s, ClaimGap(r));
      if Granted(lim.strict, s.last, s.requests[r].user, s.now, lim.gap) {
        TakesCons(lim, s, ClaimGap(r), [], t);
      } else {
        var c := t;
        t := Next(lim, c, FreeSlot(r));
        TakesCons(lim, c, FreeSlot(r), [], t);
        TakesCons(lim, s, ClaimGap(r), [FreeSlot(r)] + [], t);
      }
    }
  }

  /** A request arrives and takes a slot, if one is free. */
  lemma SlotOfOne(lim: Limits, s: System, r: nat, pod: Pod, u: User) returns (a: System, b: System)
    requires r !in s.requests
    ensures a == Next(lim, s, Arrive(r, pod, u)) && Enabled(a, TakeSlot(r)) && b == Next(lim, a, TakeSlot(r))
    ensures var free := Taken(s, pod) < lim.cap;
            && b.requests == (if free then s.requests[r := Claiming(pod, u)] else s.requests)
            && Taken(b, pod) == Taken(s, pod) + (if free then 1 else 0) && b.last == s.last && b.now == s.now
  {
    a := Next(lim, s, Arrive(r, pod, u));
    b := Next(lim, a, TakeSlot(r));
  }

  /** Acquire, alone on its pod, is such a run: the request runs, takes its slot and is remembered exactly as the
    * contract of Acquire says, and a refused one leaves everything but the history as it was. */
  lemma AttemptIsAcquire(lim: Limits, s: System, r: nat, pod: Pod, u: User, gapFails: bool) returns (t: System)
    requires r !in s.requests
    ensures Takes(lim, s, Attempt(lim, s, r, pod, u, gapFails), t)
    ensures var since := if u in s.last then s.now - s.last[u] else 0;
            var ok := Taken(s, pod) < lim.cap
                && (gapFails || u !in s.last || since > lim.gap || (since == lim.gap && !lim.strict));
            && t.requests == (if ok then s.requests[r := Running(pod, u)] else s.requests)
            && Taken(t, pod) == Taken(s, pod) + (if ok then 1 else 0)
            && t.last == if ok && !gapFails then s.last[u := s.now] else s.last
  {
    var a, b := SlotOfOne(lim, s, r, pod, u);
    var more: seq<Step> := [];
    if Taken(s, pod) < lim.cap {
      t := ClaimsOfOne(lim, b, r, gapFails);
      more := Claims(lim, s.last, s.now, r, u, gapFails);
    } else {
      t := b;
    }
    TakesCons(lim, a, TakeSlot(r), more, t);
    TakesCons(lim, s, Arrive(r, pod, u), [TakeSlot(r)] + more, t);
  }
}
