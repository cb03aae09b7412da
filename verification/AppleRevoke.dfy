/** Revoking an account's Apple token around its deletion: one account, any number of deletions, purges
  * and retriers on any replicas, any of which may stop at any point.
  *
  * A step is one SQL statement, one call to Apple, or a crash. Accounts do not interact: the queue has at
  * most one row for each (see AppleQueue).
  */
module AppleRevoke {
  import opened Options

  type Token = nat

  /** A queued revocation; its id is fresh each time the account is queued anew. Times are in minutes. */
  datatype Row = Row(id: nat, token: Token, failedAt: int, attempts: nat, lastTried: int)

  const MAX_AGE := 30 * 24 * 60
  const MAX_ATTEMPTS := 20

  /** Where a process stands. The first five delete the account (for the person, or purging it), the others retry. */
  datatype Stage =
    | Started(purge: bool)
    | Holding(purge: bool, token: Token)
    | Unrevoked(purge: bool, token: Token)
    | Cleared(purge: bool, had: Option<Token>)
    | Refused
    | Claimed(id: nat, token: Token)
    | Unopened(id: nat, token: Token)
    | Answered(id: nat, token: Token)
    | Unanswered(id: nat, token: Token)

  /** last: the token kept when the account was deleted. dropped: tokens whose row expired or could not be opened. */
  datatype State = State(now: int, live: bool, kept: Option<Token>, last: Option<Token>, row: Option<Row>, nextId: nat,
                         revoked: set<Token>, dropped: set<Token>, procs: map<nat, Stage>)

  const START := State(0, true, None, None, None, 0, {}, {}, map[])

  datatype Step =
    | Tick(minutes: nat)
    | Keep(token: Option<Token>)       // a sign-in keeps a new token; unlinking forgets it
    | Begin(p: nat, purge: bool)
    | ReadToken(p: nat)
    | Revoke(p: nat, landed: bool, answered: bool) // landed: Apple did revoke; answered: the caller learns so
    | Enqueue(p: nat)
    | Delete(p: nat)
    | LoseAnswer(p: nat)               // the purge's delete lands, but the purge is told that it failed
    | Refuse(p: nat)                   // the purge's delete failed or found nothing to delete
    | Cancel(p: nat)
    | Expire
    | Claim(p: nat)
    | Open(p: nat, readable: bool)
    | DropUnreadable(p: nat)
    | RetryRevoke(p: nat, landed: bool, answered: bool)
    | Resolve(p: nat)
    | RecordFailure(p: nat)
    | Stop(p: nat)                     // a crash, or an error that ends the process

  function Power(n: nat): nat { if n == 0 then 1 else 2 * Power(n - 1) }

  /** Minutes to wait after the given number of attempts. */
  function Backoff(attempts: nat): nat {
    var shift := if attempts <= 1 then 0 else if attempts - 1 > 9 then 9 else attempts - 1;
    if 5 * Power(shift) < 24 * 60 then 5 * Power(shift) else 24 * 60
  }

  /** The wait is five minutes at first, doubles with each attempt, and stays at a day. */
  lemma BackoffDoubles(attempts: nat)
    ensures Backoff(0) == Backoff(1) == 5
    ensures attempts > 0 ==>
            Backoff(attempts + 1) == if 2 * Backoff(attempts) < 1440 then 2 * Backoff(attempts) else 1440
  {
    assert Power(4) == 16 && Power(8) == 16 * Power(4) && Power(9) == 2 * Power(8);
  }

  predicate Expired(r: Row, now: int) { r.failedAt < now - MAX_AGE || r.attempts >= MAX_ATTEMPTS }

  predicate Due(r: Row, now: int) { r.lastTried <= now - Backoff(r.attempts) }

  predicate Enabled(s: State, step: Step) {
    match step
    case Tick(_) => true
    case Keep(_) => s.live
    case Begin(p, _) => p !in s.procs
    case ReadToken(p) => p in s.procs && s.procs[p].Started?
    case Revoke(p, landed, answered) => p in s.procs && s.procs[p].Holding? && (answered ==> landed)
    case Enqueue(p) => p in s.procs && s.procs[p].Unrevoked?
    case Delete(p) => p in s.procs && s.procs[p].Cleared? && (s.live || !s.procs[p].purge)
    case LoseAnswer(p) => p in s.procs && s.procs[p].Cleared? && s.procs[p].purge && s.live
    case Refuse(p) => p in s.procs && s.procs[p].Cleared? && s.procs[p].purge
    case Cancel(p) => p in s.procs && s.procs[p].Refused?
    case Expire => s.row.Some? && Expired(s.row.value, s.now)
    case Claim(p) => p !in s.procs && s.row.Some? && Due(s.row.value, s.now)
    case Open(p, _) => p in s.procs && s.procs[p].Claimed?
    case DropUnreadable(p) => p in s.procs && s.procs[p].Unopened?
    case RetryRevoke(p, landed, answered) => p in s.procs && s.procs[p].Claimed? && (answered ==> landed)
    case Resolve(p) => p in s.procs && s.procs[p].Answered?
    case RecordFailure(p) => p in s.procs && s.procs[p].Unanswered?
    case Stop(p) => p in s.procs
  }

  function Goto(s: State, p: nat, stage: Stage): State { s.(procs := s.procs[p := stage]) }

  function Done(s: State, p: nat): State { s.(procs := s.procs - {p}) }

  /** The account deleted, if it still was there. */
  function Gone(s: State): State { if s.live then s.(live := false, last := s.kept, kept := None) else s }

  /** The row, deleted by id. */
  function Without(row: Option<Row>, id: nat): Option<Row> {
    if row.Some? && row.value.id == id then None else row
  }

  function Upserted(s: State, token: Token): Row {
    if s.row.None? then Row(s.nextId, token, s.now, 1, s.now)
    else s.row.value.(token := token, attempts := s.row.value.attempts + 1, lastTried := s.now)
  }

  function Next(s: State, step: Step): State
    requires Enabled(s, step)
  {
    match step
    case Tick(d) => s.(now := s.now + d)
    case Keep(t) => s.(kept := t)
    case Begin(p, purge) => Goto(s, p, Started(purge))
    case ReadToken(p) =>
      var purge := s.procs[p].purge;
      Goto(s, p, if s.kept.None? then Cleared(purge, None) else Holding(purge, s.kept.value))
    case Revoke(p, landed, answered) =>
      var (purge, token) := (s.procs[p].purge, s.procs[p].token);
      Goto(s.(revoked := if landed then s.revoked + {token} else s.revoked), p,
           if answered then Cleared(purge, Some(token)) else Unrevoked(purge, token))
    case Enqueue(p) =>
      var (purge, token) := (s.procs[p].purge, s.procs[p].token);
      Goto(s.(row := Some(Upserted(s, token)), nextId := s.nextId + 1), p, Cleared(purge, Some(token)))
    case Delete(p) => Done(Gone(s), p)
    case LoseAnswer(p) => Goto(Gone(s), p, Refused)
    case Refuse(p) => Goto(s, p, Refused)
    case Cancel(p) => Done(s.(row := None), p)
    case Expire => s.(row := None, dropped := s.dropped + {s.row.value.token})
    case Claim(p) =>
      Goto(s.(row := Some(s.row.value.(lastTried := s.now))), p, Claimed(s.row.value.id, s.row.value.token))
    case Open(p, readable) =>
      Goto(s, p, if readable then s.procs[p] else Unopened(s.procs[p].id, s.procs[p].token))
    case DropUnreadable(p) =>
      Done(s.(row := Without(s.row, s.procs[p].id), dropped := s.dropped + {s.procs[p].token}), p)
    case RetryRevoke(p, landed, answered) =>
      var (id, token) := (s.procs[p].id, s.procs[p].token);
      Goto(s.(revoked := if landed then s.revoked + {token} else s.revoked), p,
           if answered then Answered(id, token) else Unanswered(id, token))
    case Resolve(p) => Done(s.(row := Without(s.row, s.procs[p].id)), p)
    case RecordFailure(p) =>
      Done(if s.row.Some? && s.row.value.id == s.procs[p].id
           then s.(row := Some(s.row.value.(attempts := s.row.value.attempts + 1, lastTried := s.now))) else s, p)
    case Stop(p) => Done(s, p)
  }

  // ---------------------------------------------------------------------------------------------
  // No token is lost
  // ---------------------------------------------------------------------------------------------

  /** Revoked, still queued, expired by the limits, or dropped as unreadable. */
  predicate Safe(s: State, t: Token) {
    t in s.revoked || t in s.dropped || (s.row.Some? && s.row.value.token == t)
  }

  /** What the deletion promises: the token the account had is not lost. */
  predicate NoTokenLost(s: State) { !s.live && s.last.Some? ==> Safe(s, s.last.value) }

  /** A deletion that has read the token. */
  predicate Reading(stage: Stage) { stage.Holding? || stage.Unrevoked? || stage.Cleared? }

  function Read(stage: Stage): Option<Token>
    requires Reading(stage)
  {
    if stage.Cleared? then stage.had else Some(stage.token)
  }

  /** The token a reading deletion saw is the one at stake. */
  predicate Current(s: State, stage: Stage)
    requires Reading(stage)
  {
    if s.live then s.kept.None? || Read(stage) == s.kept
    else s.last.None? || Read(stage).None? || Read(stage) == s.last
  }

  predicate ReadingAt(s: State, p: nat) { p in s.procs && Reading(s.procs[p]) }

  predicate ClearedAt(s: State, p: nat) { p in s.procs && s.procs[p].Cleared? }

  /** The account is gone, or a deletion is cleared to go ahead. */
  ghost predicate Pending(s: State) { !s.live || exists p :: ClearedAt(s, p) }

  /** The token at stake: the account's, or the one it had when it was deleted. */
  function Stake(s: State): Option<Token> { if s.live then s.kept else s.last }

  ghost predicate ReadersCurrent(s: State) {
    (!s.live ==> s.kept.None?) && forall p :: ReadingAt(s, p) ==> Current(s, s.procs[p])
  }

  predicate AnsweredIsRevoked(s: State, p: nat) {
    p in s.procs && s.procs[p].Answered? ==> s.procs[p].token in s.revoked
  }

  ghost predicate Guarded(s: State) {
    && ReadersCurrent(s)
    && (Pending(s) && Stake(s).Some? ==> Safe(s, Stake(s).value))
    && (forall p :: AnsweredIsRevoked(s, p))
  }

  /** The queue row a retrier is about to delete holds another token than the one it claimed. */
  predicate Replaced(s: State, p: nat)
    requires p in s.procs && (s.procs[p].Answered? || s.procs[p].Unopened?)
  {
    s.row.Some? && s.row.value.id == s.procs[p].id && s.row.value.token != s.procs[p].token
  }

  /** Three rules about the state before a step, the stages of the other processes included. A new token is kept
    * only while no deletion has read the old one; a queued revoke is cancelled only while the account is there
    * and no deletion is cleared; a retrier deletes a row only if it still holds the token it claimed. */
  ghost predicate Careful(s: State, step: Step)
    requires Enabled(s, step)
  {
    match step
    case Keep(t) => t.Some? ==> forall p :: !ReadingAt(s, p)
    case Cancel(_) => !Pending(s)
    case Resolve(p) => !Replaced(s, p)
    case DropUnreadable(p) => !Replaced(s, p)
    case _ => true
  }

  lemma StepKeepsReaders(s: State, step: Step)
    requires Enabled(s, step) && ReadersCurrent(s) && (step.Keep? ==> Careful(s, step))
    ensures ReadersCurrent(Next(s, step))
  {
    var s' := Next(s, step);
    forall p | ReadingAt(s', p) ensures Current(s', s'.procs[p]) {
      assert step.ReadToken? || ReadingAt(s, p);
    }
  }

  lemma StepKeepsAnswers(s: State, step: Step, p: nat)
    requires Enabled(s, step) && AnsweredIsRevoked(s, p)
    ensures AnsweredIsRevoked(Next(s, step), p)
  {
  }

  /** What was at stake before a step, when something is at stake after it. */
  lemma StakeBefore(s: State, step: Step)
    requires Enabled(s, step) && ReadersCurrent(s) && Careful(s, step)
    requires var s' := Next(s, step); Pending(s') && Stake(s').Some? && !Safe(s', Stake(s').value)
    ensures Pending(s) && Stake(s) == Stake(Next(s, step))
  {
    var s' := Next(s, step);
    if s'.live {
      var p :| ClearedAt(s', p);
      assert ReadingAt(s', p);
      StepKeepsReaders(s, step);
      assert Current(s', s'.procs[p]);
      if step.Keep? && step.token.Some? {
        assert ReadingAt(s, p);
      } else {
        assert ClearedAt(s, p);
      }
    } else if s.live {
      assert (step.Delete? || step.LoseAnswer?) && ClearedAt(s, step.p);
    }
  }

  lemma StillSafe(s: State, step: Step)
    requires Enabled(s, step) && Guarded(s) && Careful(s, step) && Pending(s) && Stake(s).Some?
             && Stake(s) == Stake(Next(s, step))
    ensures Safe(Next(s, step), Stake(s).value)
  {
    match step
    case Enqueue(p) => assert ReadingAt(s, p) && Current(s, s.procs[p]);
    case Resolve(p) => assert AnsweredIsRevoked(s, p);
    case _ =>
  }

  /** Whatever any process does, a careful step keeps the guard. */
  lemma CarefulKeepsGuard(s: State, step: Step)
    requires Enabled(s, step) && Guarded(s) && Careful(s, step)
    ensures Guarded(Next(s, step))
  {
    var s' := Next(s, step);
    StepKeepsReaders(s, step);
    if Pending(s') && Stake(s').Some? && !Safe(s', Stake(s').value) {
      StakeBefore(s, step);
      StillSafe(s, step);
    }
    forall p ensures AnsweredIsRevoked(s', p) {
      StepKeepsAnswers(s, step, p);
    }
  }

  // ---------------------------------------------------------------------------------------------
  // Whole runs
  // ---------------------------------------------------------------------------------------------

  /** n steps lead from s to r; in a careful run each of them is careful. */
  ghost predicate Leads(s: State, r: State, n: nat, careful: bool)
    decreases n
  {
    if n == 0 then r == s
    else exists q, step ::
        Leads(s, q, n - 1, careful) && Enabled(q, step) && (careful ==> Careful(q, step)) && r == Next(q, step)
  }

  lemma {:induction false} GuardedRun(s: State, r: State, n: nat)
    requires Guarded(s) && Leads(s, r, n, true)
    ensures Guarded(r) && NoTokenLost(r)
    decreases n
  {
    if n > 0 {
      var q, step :| Leads(s, q, n - 1, true) && Enabled(q, step) && Careful(q, step) && r == Next(q, step);
      GuardedRun(s, q, n - 1);
      CarefulKeepsGuard(q, step);
    }
  }

  /** Whatever deletions, purges, retriers, crashes and delays do, a run that keeps the three rules loses no token. */
  lemma CarefulRunsLoseNothing(r: State, n: nat)
    requires Leads(START, r, n, true)
    ensures NoTokenLost(r)
  {
    GuardedRun(START, r, n);
  }

  /** An account goes only by the hand of a deletion that was cleared, and then its token is safe. */
  lemma DeletedOnlyWhenSafe(s: State, step: Step)
    requires Guarded(s) && Enabled(s, step) && s.live && !Next(s, step).live
    ensures (step.Delete? || step.LoseAnswer?) && s.procs[step.p].Cleared?
            && (s.kept.Some? ==> Safe(s, s.kept.value) && Next(s, step).last == s.kept)
  {
    assert ClearedAt(s, step.p);
  }

  // ---------------------------------------------------------------------------------------------
  // Breaking one rule once
  // ---------------------------------------------------------------------------------------------

  /** A token as a sign-in brings it: none that was revoked, dropped, queued or read before. */
  ghost predicate Fresh(s: State, t: Token) {
    && t !in s.revoked + s.dropped && (s.row.Some? ==> s.row.value.token != t)
    && forall p :: ReadingAt(s, p) ==> Read(s.procs[p]) != Some(t)
  }

  /** The account's token has neither been revoked nor dropped. */
  predicate StakeOpen(s: State) { Stake(s).Some? && Stake(s).value !in s.revoked + s.dropped }

  /** After the step, and careful steps only, the token can be lost. */
  ghost predicate LossPossible(s: State, step: Step)
    requires Enabled(s, step)
  {
    exists r, n :: Leads(Next(s, step), r, n, true) && !NoTokenLost(r)
  }

  /** When breaking a rule does harm: there is a token to lose, and for the queue the account is gone or about to go. */
  ghost predicate Breach(s: State, step: Step)
    requires Enabled(s, step)
  {
    !Careful(s, step) && (!step.Keep? ==> Pending(s) && StakeOpen(s))
  }

  lemma OneStep(s: State, step: Step)
    requires Enabled(s, step) && Careful(s, step)
    ensures Leads(s, Next(s, step), 1, true)
  {
    assert Leads(s, s, 0, true);
  }

  lemma TwoSteps(s: State, first: Step, second: Step)
    requires Enabled(s, first) && Careful(s, first) && Enabled(Next(s, first), second)
             && Careful(Next(s, first), second)
    ensures Leads(s, Next(Next(s, first), second), 2, true)
  {
    OneStep(s, first);
  }

  /** A deletion that read another token goes ahead: the account's own is lost. */
  lemma StaleDeletionLoses(s: State, p: nat, t: Token) returns (r: State, n: nat)
    requires s.live && s.kept == Some(t) && t !in s.revoked + s.dropped && (s.row.Some? ==> s.row.value.token != t)
    requires ReadingAt(s, p) && Read(s.procs[p]) != Some(t)
    ensures Leads(s, r, n, true) && !NoTokenLost(r)
  {
    if s.procs[p].Cleared? {
      OneStep(s, Delete(p));
      r, n := Next(s, Delete(p)), 1;
    } else {
      var first := if s.procs[p].Holding? then Revoke(p, true, true) else Enqueue(p);
      TwoSteps(s, first, Delete(p));
      r, n := Next(Next(s, first), Delete(p)), 2;
    }
  }

  /** Once the queue has lost an open token that is pending, the account's deletion loses it. */
  lemma UnqueuedLoses(s: State) returns (r: State, n: nat)
    requires ReadersCurrent(s) && Pending(s) && StakeOpen(s) && s.row.None?
    ensures Leads(s, r, n, true) && !NoTokenLost(r)
  {
    if s.live {
      var p :| ClearedAt(s, p);
      OneStep(s, Delete(p));
      r, n := Next(s, Delete(p)), 1;
    } else {
      r, n := s, 0;
    }
  }

  lemma BreachEmptiesQueue(s: State, step: Step)
    requires Enabled(s, step) && Guarded(s) && Breach(s, step) && !step.Keep?
    ensures var s' := Next(s, step); ReadersCurrent(s') && Pending(s') && StakeOpen(s') && s'.row.None?
  {
    var s' := Next(s, step);
    StepKeepsReaders(s, step);
    if s.live {
      var p :| ClearedAt(s, p);
      assert ClearedAt(s', p);
    }
  }

  lemma BreachLoses(s: State, step: Step)
    requires Enabled(s, step) && Guarded(s) && Breach(s, step)
             && (step.Keep? && step.token.Some? ==> Fresh(s, step.token.value))
    ensures LossPossible(s, step)
  {
    var s' := Next(s, step);
    if step.Keep? {
      var p :| ReadingAt(s, p);
      var r, n := StaleDeletionLoses(s', p, step.token.value);
    } else {
      BreachEmptiesQueue(s, step);
      var r, n := UnqueuedLoses(s');
    }
  }

  lemma HarmlessKeepsGuard(s: State, step: Step)
    requires Enabled(s, step) && Guarded(s) && !Breach(s, step)
    ensures Guarded(Next(s, step))
  {
    if Careful(s, step) {
      CarefulKeepsGuard(s, step);
    } else {
      var s' := Next(s, step);
      StepKeepsReaders(s, step);
      forall p ensures AnsweredIsRevoked(s', p) {
        StepKeepsAnswers(s, step, p);
      }
      if Pending(s') && s'.live {
        var p :| ClearedAt(s', p);
        assert ClearedAt(s, p);
      }
    }
  }

  /** Exactly the breaches lose a token: after one, careful steps can lead to the loss; after any other step
    * of any process they cannot. */
  lemma LossIffBreach(s: State, step: Step)
    requires Enabled(s, step) && Guarded(s) && (step.Keep? && step.token.Some? ==> Fresh(s, step.token.value))
    ensures LossPossible(s, step) <==> Breach(s, step)
  {
    if Breach(s, step) {
      BreachLoses(s, step);
    } else {
      HarmlessKeepsGuard(s, step);
      forall r, n: nat | Leads(Next(s, step), r, n, true) ensures NoTokenLost(r) {
        GuardedRun(Next(s, step), r, n);
      }
    }
  }

  // ---------------------------------------------------------------------------------------------
  // Runs that break a rule
  // ---------------------------------------------------------------------------------------------

  /** A set of states that no step leaves. */
  ghost predicate Closed(reach: iset<State>) {
    forall q, step :: q in reach && Enabled(q, step) ==> Next(q, step) in reach
  }

  ghost function Queued(s: State, p: nat, purge: bool): State
    requires s.kept.Some?
  {
    s.(row := Some(Upserted(s, s.kept.value)), nextId := s.nextId + 1, procs := s.procs[p := Cleared(purge, s.kept)])
  }

  /** A deletion that finds Apple unreachable and queues the revoke, up to being cleared. */
  lemma Queues(reach: iset<State>, s: State, p: nat, purge: bool) returns (r: State)
    requires Closed(reach) && s in reach && s.live && s.kept.Some? && p !in s.procs
    ensures r == Queued(s, p, purge) && r in reach
  {
    var s1 := Next(s, Begin(p, purge));
    var s2 := Next(s1, ReadToken(p));
    var s3 := Next(s2, Revoke(p, false, false));
    r := Next(s3, Enqueue(p));
    assert r.procs == s.procs[p := Cleared(purge, s.kept)];
  }

  /** Two deletions of one account, one of them the purge: Apple is unreachable, both queue the revoke, one
    * deletes the account, the purge finds it gone and cancels the queued revoke. The token is lost. */
  lemma RefusedPurge(reach: iset<State>) returns (r: State)
    requires Closed(reach) && START in reach
    ensures r in reach && !NoTokenLost(r)
  {
    var s := Next(START, Keep(Some(7)));
    s := Queues(reach, s, 1, false);
    s := Queues(reach, s, 2, true);
    assert s.procs[1] == Cleared(false, Some(7)) && s.procs[2] == Cleared(true, Some(7));
    s := Next(s, Delete(1));
    assert !s.live && s.last == Some(7) && s.procs[2] == Cleared(true, Some(7)) && s.revoked == {} && s.dropped == {};
    s := Next(s, Refuse(2));
    r := Next(s, Cancel(2));
  }

  /** The person signs in again between the revoke and the deletion: the new token goes unrevoked. */
  lemma SignInDuringDeletion(reach: iset<State>) returns (r: State)
    requires Closed(reach) && START in reach
    ensures r in reach && !NoTokenLost(r)
  {
    var s := Next(START, Keep(Some(7)));
    s := Next(s, Begin(1, false));
    s := Next(s, ReadToken(1));
    assert s.procs[1] == Holding(false, 7);
    s := Next(s, Revoke(1, true, true));
    assert s.procs[1] == Cleared(false, Some(7)) && s.revoked == {7} && s.live && s.row.None? && s.dropped == {};
    s := Next(s, Keep(Some(8)));
    r := Next(s, Delete(1));
  }

  predicate RetrierHoldsOldToken(s: State) {
    && s.live && s.kept == Some(8) && s.procs == map[2 := Answered(0, 7)] && s.revoked == {7} && s.dropped == {}
    && s.row.Some? && s.row.value.id == 0
  }

  /** A deletion queues the revoke and crashes; five minutes pass. */
  lemma CrashAfterQueueing(reach: iset<State>) returns (s: State)
    requires Closed(reach) && START in reach
    ensures s in reach && s.row == Some(Row(0, 7, 0, 1, 0)) && s.procs == map[] && s.now == 5 && s.live
    ensures s.revoked == {} && s.dropped == {} && s.last.None?
  {
    s := Next(START, Keep(Some(7)));
    s := Queues(reach, s, 1, false);
    s := Next(s, Stop(1));
    s := Next(s, Tick(5));
  }

  /** A retrier then claims and revokes that token, and the person signs in again. */
  lemma CrashThenSignIn(reach: iset<State>) returns (r: State)
    requires Closed(reach) && START in reach
    ensures r in reach && RetrierHoldsOldToken(r)
  {
    var s := CrashAfterQueueing(reach);
    assert Power(0) == 1 && Backoff(1) == 5;
    s := Next(s, Claim(2));
    assert s.procs == map[2 := Claimed(0, 7)];
    s := Next(s, RetryRevoke(2, true, true));
    r := Next(s, Keep(Some(8)));
  }

  /** Then a deletion replaces the queued token, and the retrier resolves the row it had claimed. */
  lemma StaleResolve(reach: iset<State>) returns (r: State)
    requires Closed(reach) && START in reach
    ensures r in reach && !NoTokenLost(r)
  {
    var s := CrashThenSignIn(reach);
    s := Queues(reach, s, 3, false);
    assert s.procs[2] == Answered(0, 7) && s.procs[3] == Cleared(false, Some(8)) && s.row.value.id == 0;
    s := Next(s, Resolve(2));
    assert s.row.None? && s.procs[3] == Cleared(false, Some(8)) && s.revoked == {7} && s.dropped == {};
    r := Next(s, Delete(3));
  }

  ghost predicate Reachable(r: State) { exists n :: Leads(START, r, n, false) }

  lemma ReachableIsClosed() returns (reach: iset<State>)
    ensures Closed(reach) && START in reach && forall r :: r in reach <==> Reachable(r)
  {
    reach := iset r | Reachable(r);
    assert Leads(START, START, 0, false);
    forall q, step | q in reach && Enabled(q, step) ensures Next(q, step) in reach {
      var n: nat :| Leads(START, q, n, false);
      assert Leads(START, Next(q, step), n + 1, false);
    }
  }

  /** The person's deletion queues the revoke and is done. Only then the purge takes up the account from a list
    * it made before, finds no token and no account, and cancels the queued revoke. The token is lost. */
  lemma LatePurge(reach: iset<State>) returns (r: State)
    requires Closed(reach) && START in reach
    ensures r in reach && !NoTokenLost(r)
  {
    var s := Next(START, Keep(Some(7)));
    s := Queues(reach, s, 1, false);
    s := Next(s, Delete(1));
    assert !s.live && s.last == Some(7) && s.kept.None? && s.procs == map[] && s.revoked == {} && s.dropped == {};
    s := Next(s, Begin(2, true));
    s := Next(s, ReadToken(2));
    assert s.procs[2] == Cleared(true, None);
    s := Next(s, Refuse(2));
    r := Next(s, Cancel(2));
  }

  /** The purge queues the revoke and deletes the account, but the answer to its delete is lost: it takes the
    * account for still there and cancels the queued revoke. The token is lost, with no other process at all. */
  lemma UnheardDelete(reach: iset<State>) returns (r: State)
    requires Closed(reach) && START in reach
    ensures r in reach && !NoTokenLost(r)
  {
    var s := Next(START, Keep(Some(7)));
    s := Queues(reach, s, 1, true);
    assert s.procs[1] == Cleared(true, Some(7)) && s.live && s.revoked == {} && s.dropped == {};
    s := Next(s, LoseAnswer(1));
    r := Next(s, Cancel(1));
  }

  /** So the promise does not hold of every run: a token can be lost in each of these ways. */
  lemma TokensCanBeLost() returns (purged: State, late: State, unheard: State, signedIn: State, stale: State)
    ensures Reachable(purged) && !NoTokenLost(purged) && Reachable(late) && !NoTokenLost(late)
    ensures Reachable(unheard) && !NoTokenLost(unheard)
    ensures Reachable(signedIn) && !NoTokenLost(signedIn) && Reachable(stale) && !NoTokenLost(stale)
  {
    var reach := ReachableIsClosed();
    purged := RefusedPurge(reach);
    late := LatePurge(reach);
    unheard := UnheardDelete(reach);
    signedIn := SignInDuringDeletion(reach);
    stale := StaleResolve(reach);
  }

  // ---------------------------------------------------------------------------------------------
  // The life of a queued row
  // ---------------------------------------------------------------------------------------------

  predicate RowFits(s: State) {
    s.row.Some? ==> s.row.value.id < s.nextId && s.row.value.failedAt <= s.row.value.lastTried <= s.now
  }

  /** r has the row of s, as it is later on. */
  predicate SameRow(s: State, r: State) { s.row.Some? && r.row.Some? && r.row.value.id == s.row.value.id }

  predicate Aged(s: State, r: State)
    requires SameRow(s, r)
  {
    && r.row.value.failedAt == s.row.value.failedAt
    && r.row.value.attempts >= s.row.value.attempts && r.row.value.lastTried >= s.row.value.lastTried
  }

  lemma RowAgesByStep(s: State, step: Step)
    requires RowFits(s) && Enabled(s, step)
    ensures var r := Next(s, step); RowFits(r) && r.now >= s.now && r.nextId >= s.nextId
    ensures SameRow(s, Next(s, step)) ==> Aged(s, Next(s, step))
    ensures Next(s, step).row.Some? && Next(s, step).row.value.id < s.nextId ==> SameRow(s, Next(s, step))
  {
  }

  /** A row keeps its first failure time; its attempts only grow and its last try only moves forward. */
  lemma {:induction false} RowAges(s: State, r: State, n: nat)
    requires RowFits(s) && Leads(s, r, n, false)
    ensures RowFits(r) && r.now >= s.now && r.nextId >= s.nextId && (SameRow(s, r) ==> Aged(s, r))
    decreases n
  {
    if n > 0 {
      var q, step :| Leads(s, q, n - 1, false) && Enabled(q, step) && r == Next(q, step);
      RowAges(s, q, n - 1);
      RowAgesByStep(q, step);
    }
  }

  /** On every replica together, two claims of one row are at least its backoff apart: five minutes or more. */
  lemma ClaimsAreSpaced(s: State, p: nat, r: State, n: nat, q: nat)
    requires RowFits(s) && Enabled(s, Claim(p)) && Leads(Next(s, Claim(p)), r, n, false)
    requires SameRow(s, r) && Enabled(r, Claim(q))
    ensures r.now >= s.now + Backoff(r.row.value.attempts) >= s.now + 5
  {
    RowAges(Next(s, Claim(p)), r, n);
    PowerAtLeastOne(if r.row.value.attempts <= 1 then 0 else if r.row.value.attempts - 1 > 9 then 9
        else r.row.value.attempts - 1);
  }

  lemma {:induction false} PowerAtLeastOne(n: nat)
    ensures Power(n) >= 1
  {
    if n > 0 {
      PowerAtLeastOne(n - 1);
    }
  }

  /** A queued row expires no sooner than 30 days after it was first queued, or after 20 attempts. */
  lemma ExpiresByTheLimits(s: State, r: State, n: nat)
    requires RowFits(s) && Leads(s, r, n, false) && SameRow(s, r) && Enabled(r, Expire)
    ensures r.now > s.row.value.failedAt + 43_200 || r.row.value.attempts >= 20
  {
    RowAges(s, r, n);
  }
}
