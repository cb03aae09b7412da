/** The e-mail sent a while after a user's re-authentication flag was raised: any number of waiting
  * processes, interleaved with raises and clears of the flag on any replicas.
  */
module ReauthEmail {
  import opened Options

  /** In seconds. */
  const GRACE := 20

  /** What one read of the flag returns. */
  datatype Reading = Failed | Clear | Raised(at: int)

  /** One process from start to end, given what its two reads return and whether it was shut down between them. */
  method SendAfterGrace(first: Reading, stopped: bool, second: Reading) returns (sent: bool)
    ensures sent <==> first.Raised? && !stopped && second.Raised? && second.at == first.at
  {
    if !first.Raised? || stopped {
      return false;
    }
    if second.Failed? {
      return false;
    }
    if second.Clear? || second.at != first.at {
      return false;
    }
    return true;
  }

  // ---------------------------------------------------------------------------------------------
  // All interleavings
  // ---------------------------------------------------------------------------------------------

  /** A process: the raise that started it, then the raise its first read saw. */
  datatype Stage = Started(mine: int) | Waiting(mine: int, first: int, until: int) | Over(mine: int)

  /** flag: when it was raised, while it is. raises: all raise times so far. firsts, mails: for each raise time, how
    * many first reads saw it and how many e-mails were sent for it. */
  datatype State = State(now: int, flag: Option<int>, raises: set<int>, procs: map<nat, Stage>,
                         firsts: multiset<int>, mails: multiset<int>)

  const START := State(0, None, {}, map[], multiset{}, multiset{})

  datatype Step =
    | Tick(d: nat)
    | Raise(p: nat, at: int)  // the replica that flips the flag starts process p; raise times are distinct
    | ClearFlag
    | FirstRead(p: nat)
    | SecondRead(p: nat)
    | Stop(p: nat)            // a failed read, a shutdown, a crash

  predicate Enabled(s: State, step: Step) {
    match step
    case Tick(_) => true
    case Raise(p, at) => s.flag.None? && at !in s.raises && p !in s.procs
    case ClearFlag => true
    case FirstRead(p) => p in s.procs && s.procs[p].Started?
    case SecondRead(p) => p in s.procs && s.procs[p].Waiting? && s.now >= s.procs[p].until
    case Stop(p) => p in s.procs && !s.procs[p].Over?
  }

  function Next(s: State, step: Step): State
    requires Enabled(s, step)
  {
    match step
    case Tick(d) => s.(now := s.now + d)
    case Raise(p, at) => s.(flag := Some(at), raises := s.raises + {at}, procs := s.procs[p := Started(at)])
    case ClearFlag => s.(flag := None)
    case FirstRead(p) =>
      var mine := s.procs[p].mine;
      if s.flag.None? then s.(procs := s.procs[p := Over(mine)])
      else s.(procs := s.procs[p := Waiting(mine, s.flag.value, s.now + GRACE)],
          firsts := s.firsts + multiset{s.flag.value})
    case SecondRead(p) =>
      var (mine, first) := (s.procs[p].mine, s.procs[p].first);
      s.(procs := s.procs[p := Over(mine)],
         mails := if s.flag == Some(first) then s.mails + multiset{first} else s.mails)
    case Stop(p) => s.(procs := s.procs[p := Over(s.procs[p].mine)])
  }

  /** A first read that comes before the next change of the flag. */
  predicate Prompt(s: State, step: Step)
    requires Enabled(s, step)
  {
    step.FirstRead? ==> s.flag == Some(s.procs[step.p].mine)
  }

  ghost predicate Leads(s: State, r: State, n: nat, prompt: bool)
    decreases n
  {
    if n == 0 then r == s
    else exists q, step ::
        Leads(s, q, n - 1, prompt) && Enabled(q, step) && (prompt ==> Prompt(q, step)) && r == Next(q, step)
  }

  // ---------------------------------------------------------------------------------------------
  // Each process is SendAfterGrace
  // ---------------------------------------------------------------------------------------------

  /** A process that has read keeps what it read until it is over. */
  lemma {:induction false} WaiterKeeps(s: State, p: nat, r: State, n: nat)
    requires p in s.procs && !s.procs[p].Started? && Leads(s, r, n, false)
    ensures p in r.procs && (r.procs[p] == s.procs[p] || r.procs[p].Over?)
    decreases n
  {
    if n > 0 {
      var q, step :| Leads(s, q, n - 1, false) && Enabled(q, step) && r == Next(q, step);
      WaiterKeeps(s, p, q, n - 1);
      WaiterStep(q, step, p);
    }
  }

  lemma WaiterStep(s: State, step: Step, p: nat)
    requires Enabled(s, step) && p in s.procs && !s.procs[p].Started?
    ensures var r := Next(s, step); p in r.procs && (r.procs[p] == s.procs[p] || r.procs[p].Over?)
  {
  }

  /** Whatever else happens between a process's two reads, the second comes no sooner than the grace and sends for
    * the raise it saw first exactly when SendAfterGrace does; a process that stops sends nothing. */
  lemma ProcessSends(s: State, p: nat, r: State, n: nat)
    requires Enabled(s, FirstRead(p)) && Leads(Next(s, FirstRead(p)), r, n, false)
    ensures Enabled(r, SecondRead(p)) ==>
              && s.flag.Some? && r.now >= s.now + 20
              && Next(r, SecondRead(p)).mails ==
                 r.mails + (if r.flag == s.flag then multiset{s.flag.value} else multiset{})
    ensures Enabled(r, Stop(p)) ==> Next(r, Stop(p)).mails == r.mails
  {
    WaiterKeeps(Next(s, FirstRead(p)), p, r, n);
  }

  // ---------------------------------------------------------------------------------------------
  // No more e-mails for a raise than processes that saw it
  // ---------------------------------------------------------------------------------------------

  function WaitingOn(s: State, t: int): set<nat> {
    set p | p in s.procs && s.procs[p].Waiting? && s.procs[p].first == t
  }

  ghost predicate Bounded(s: State, t: int) { s.mails[t] + |WaitingOn(s, t)| <= s.firsts[t] }

  lemma WaitersAfter(s: State, step: Step, t: int)
    requires Enabled(s, step)
    ensures WaitingOn(Next(s, step), t) ==
            match step
            case FirstRead(p) => if s.flag == Some(t) then WaitingOn(s, t) + {p} else WaitingOn(s, t)
            case SecondRead(p) => WaitingOn(s, t) - {p}
            case Stop(p) => WaitingOn(s, t) - {p}
            case _ => WaitingOn(s, t)
  {
    var s' := Next(s, step);
    forall p | p in s.procs && s'.procs[p] == s.procs[p] ensures p in WaitingOn(s', t) <==> p in WaitingOn(s, t) {
    }
  }

  lemma StepKeepsBound(s: State, step: Step, t: int)
    requires Enabled(s, step) && Bounded(s, t)
    ensures Bounded(Next(s, step), t)
  {
    WaitersAfter(s, step, t);
    if step.SecondRead? {
      assert s.procs[step.p].first == t <==> step.p in WaitingOn(s, t);
    }
  }

  /** In every run, the e-mails for a raise are no more than the processes whose first read saw it. */
  lemma {:induction false} MailsNeverExceedFirstReads(r: State, n: nat, t: int)
    requires Leads(START, r, n, false)
    ensures Bounded(r, t) && r.mails[t] <= r.firsts[t]
    decreases n
  {
    if n > 0 {
      var q, step :| Leads(START, q, n - 1, false) && Enabled(q, step) && r == Next(q, step);
      MailsNeverExceedFirstReads(q, n - 1, t);
      StepKeepsBound(q, step, t);
    } else {
      assert WaitingOn(r, t) == {};
    }
  }

  // ---------------------------------------------------------------------------------------------
  // A raise that is over stays over
  // ---------------------------------------------------------------------------------------------

  predicate Ended(s: State, t: int) { t in s.raises && s.flag != Some(t) }

  lemma StepKeepsEnded(s: State, step: Step, t: int)
    requires Enabled(s, step) && Ended(s, t)
    ensures var r := Next(s, step); Ended(r, t) && r.mails[t] == s.mails[t] && r.firsts[t] == s.firsts[t]
  {
  }

  /** Once cleared, or cleared and raised again, a raise gets no more e-mails, in any run. */
  lemma {:induction false} EndedRaiseGetsNoMail(s: State, r: State, n: nat, t: int)
    requires Leads(s, r, n, false) && Ended(s, t)
    ensures Ended(r, t) && r.mails[t] == s.mails[t] && r.firsts[t] == s.firsts[t]
    decreases n
  {
    if n > 0 {
      var q, step :| Leads(s, q, n - 1, false) && Enabled(q, step) && r == Next(q, step);
      EndedRaiseGetsNoMail(s, q, n - 1, t);
      StepKeepsEnded(q, step, t);
    }
  }

  // ---------------------------------------------------------------------------------------------
  // Prompt first reads: one raise, one e-mail
  // ---------------------------------------------------------------------------------------------

  /** How far the e-mail of raise t has come, told from its own process. */
  predicate Told(s: State, p: nat, t: int) {
    p in s.procs && s.procs[p].mine == t ==>
      match s.procs[p]
      case Started(_) => s.firsts[t] == 0 && s.mails[t] == 0
      case Waiting(_, first, _) => first == t && s.firsts[t] == 1 && s.mails[t] == 0
      case Over(_) => s.firsts[t] <= 1 && s.mails[t] <= s.firsts[t]
  }

  /** Every raise started one process, and every process was started by a raise. */
  ghost predicate Owned(s: State) {
    && (forall p :: p in s.procs ==> s.procs[p].mine in s.raises)
    && (forall p, q :: p in s.procs && q in s.procs && s.procs[p].mine == s.procs[q].mine ==> p == q)
    && (forall t :: t in s.raises ==> exists p :: Owns(s, p, t))
    && (s.flag.Some? ==> s.flag.value in s.raises)
  }

  predicate Owns(s: State, p: nat, t: int) { p in s.procs && s.procs[p].mine == t }

  ghost predicate OneEach(s: State) {
    && Owned(s)
    && (forall p, t :: Told(s, p, t))
    && (forall t :: t !in s.raises ==> s.firsts[t] == 0 && s.mails[t] == 0)
  }

  lemma StepKeepsOwners(s: State, step: Step)
    requires Enabled(s, step) && Owned(s)
    ensures Owned(Next(s, step))
  {
    var s' := Next(s, step);
    forall p ensures p in s'.procs && !(step.Raise? && p == step.p) ==>
        p in s.procs && s'.procs[p].mine == s.procs[p].mine {
    }
    if step.Raise? {
      assert Owns(s', step.p, step.at);
    }
    forall t | t in s'.raises ensures exists p :: Owns(s', p, t) {
      if t in s.raises {
        var p :| Owns(s, p, t);
        assert Owns(s', p, t);
      }
    }
  }

  lemma StepTells(s: State, step: Step, p: nat, t: int)
    requires Enabled(s, step) && Prompt(s, step) && OneEach(s)
    ensures Told(Next(s, step), p, t)
  {
    assert Told(s, p, t);
    if step.FirstRead? || step.SecondRead? || step.Stop? {
      assert Told(s, step.p, s.procs[step.p].mine);
    }
  }

  lemma PromptStep(s: State, step: Step)
    requires Enabled(s, step) && Prompt(s, step) && OneEach(s)
    ensures OneEach(Next(s, step))
  {
    var s' := Next(s, step);
    StepKeepsOwners(s, step);
    forall p, t ensures Told(s', p, t) {
      StepTells(s, step, p, t);
    }
    forall t | t !in s'.raises ensures s'.firsts[t] == 0 && s'.mails[t] == 0 {
      if step.SecondRead? {
        assert Told(s, step.p, s.procs[step.p].mine);
      }
    }
  }

  lemma {:induction false} PromptRuns(r: State, n: nat)
    requires Leads(START, r, n, true)
    ensures OneEach(r)
    decreases n
  {
    if n > 0 {
      var q, step :| Leads(START, q, n - 1, true) && Enabled(q, step) && Prompt(q, step) && r == Next(q, step);
      PromptRuns(q, n - 1);
      PromptStep(q, step);
    }
  }

  /** If every first read precedes the next change of the flag, no raise gets two e-mails. */
  lemma OneRaiseAtMostOneMail(r: State, n: nat, t: int)
    requires Leads(START, r, n, true)
    ensures r.mails[t] <= 1
  {
    PromptRuns(r, n);
    if t in r.raises {
      var p :| Owns(r, p, t);
      assert Told(r, p, t);
    }
  }

  /** Then, when the process of a raise reaches its second read: exactly one e-mail if the raise still stands,
    * none if it was cleared or raised again, and none later. */
  lemma StandingRaiseGetsItsMail(s: State, n: nat, p: nat, r: State, m: nat)
    requires Leads(START, s, n, true) && Enabled(s, SecondRead(p)) && Leads(Next(s, SecondRead(p)), r, m, false)
    ensures var t := s.procs[p].mine;
            && s.mails[t] == 0
            && Next(s, SecondRead(p)).mails[t] == (if s.flag == Some(t) then 1 else 0)
            && (s.flag != Some(t) ==> r.mails[t] == 0)
  {
    PromptRuns(s, n);
    var t := s.procs[p].mine;
    assert Told(s, p, t);
    if s.flag != Some(t) {
      EndedRaiseGetsNoMail(Next(s, SecondRead(p)), r, m, t);
    }
  }

  // ---------------------------------------------------------------------------------------------
  // How many e-mails a raise can still get, exactly
  // ---------------------------------------------------------------------------------------------

  function Unread(s: State): set<nat> { set p | p in s.procs && s.procs[p].Started? }

  /** The e-mails sent for raise t and, while it stands, one for each process that waits on it or has not read yet. */
  function Most(s: State, t: int): nat {
    s.mails[t] + if s.flag == Some(t) then |WaitingOn(s, t)| + |Unread(s)| else 0
  }

  lemma UnreadAfter(s: State, step: Step)
    requires Enabled(s, step)
    ensures Unread(Next(s, step)) ==
            match step
            case Raise(p, _) => Unread(s) + {p}
            case FirstRead(p) => Unread(s) - {p}
            case Stop(p) => Unread(s) - {p}
            case _ => Unread(s)
  {
    var s' := Next(s, step);
    forall p | p in s.procs && s'.procs[p] == s.procs[p] ensures p in Unread(s') <==> p in Unread(s) {
    }
  }

  lemma StepNeverRaisesMost(s: State, step: Step, t: int)
    requires Enabled(s, step) && t in s.raises
    ensures t in Next(s, step).raises && Most(Next(s, step), t) <= Most(s, t)
  {
    if s.flag == Some(t) {
      WaitersAfter(s, step, t);
      UnreadAfter(s, step);
      if step.FirstRead? {
        assert step.p in Unread(s) && step.p !in WaitingOn(s, t);
      } else if step.SecondRead? {
        assert s.procs[step.p].first == t <==> step.p in WaitingOn(s, t);
      }
    }
  }

  lemma {:induction false} MostNeverRises(s: State, r: State, n: nat, t: int)
    requires Leads(s, r, n, false) && t in s.raises
    ensures t in r.raises && r.mails[t] <= Most(r, t) <= Most(s, t)
    decreases n
  {
    if n > 0 {
      var q, step :| Leads(s, q, n - 1, false) && Enabled(q, step) && r == Next(q, step);
      MostNeverRises(s, q, n - 1, t);
      StepNeverRaisesMost(q, step, t);
    }
  }

  /** Some run leads from s to r. */
  ghost predicate Onward(s: State, r: State) { exists n :: Leads(s, r, n, false) }

  lemma {:induction false} LeadsOn(s: State, q: State, n: nat, r: State, m: nat)
    requires Leads(s, q, n, false) && Leads(q, r, m, false)
    ensures Leads(s, r, n + m, false)
    decreases m
  {
    if m > 0 {
      var u, step :| Leads(q, u, m - 1, false) && Enabled(u, step) && r == Next(u, step);
      LeadsOn(s, q, n, u, m - 1);
    }
  }

  lemma Stay(s: State)
    ensures Onward(s, s)
  {
    assert Leads(s, s, 0, false);
  }

  lemma OneMore(s: State, q: State, step: Step)
    requires Onward(s, q) && Enabled(q, step)
    ensures Onward(s, Next(q, step))
  {
    var n: nat :| Leads(s, q, n, false);
    assert Leads(s, Next(q, step), n + 1, false);
  }

  lemma AndOn(s: State, q: State, r: State)
    requires Onward(s, q) && Onward(q, r)
    ensures Onward(s, r)
  {
    var n: nat :| Leads(s, q, n, false);
    var m: nat :| Leads(q, r, m, false);
    LeadsOn(s, q, n, r, m);
  }

  /** Everyone who has not read yet reads, and then waits on the standing raise. */
  lemma {:induction false} EveryoneReads(s: State, t: int) returns (r: State)
    requires s.flag == Some(t)
    ensures Onward(s, r) && r.flag == Some(t) && r.mails == s.mails
    ensures |WaitingOn(r, t)| == |WaitingOn(s, t)| + |Unread(s)|
    decreases |Unread(s)|
  {
    if Unread(s) == {} {
      Stay(s);
      r := s;
    } else {
      var p :| p in Unread(s);
      var q := OneReads(s, t, p);
      r := EveryoneReads(q, t);
      AndOn(s, q, r);
    }
  }

  lemma OneReads(s: State, t: int, p: nat) returns (q: State)
    requires s.flag == Some(t) && p in Unread(s)
    ensures Onward(s, q) && q.flag == Some(t) && q.mails == s.mails
    ensures |WaitingOn(q, t)| == |WaitingOn(s, t)| + 1 && |Unread(q)| == |Unread(s)| - 1
  {
    q := Next(s, FirstRead(p));
    WaitersAfter(s, FirstRead(p), t);
    UnreadAfter(s, FirstRead(p));
    assert p !in WaitingOn(s, t);
    Stay(s);
    OneMore(s, s, FirstRead(p));
  }

  /** A process that waits on the standing raise sits out its grace and sends. */
  lemma OneSends(s: State, t: int, p: nat) returns (q: State)
    requires s.flag == Some(t) && p in WaitingOn(s, t)
    ensures Onward(s, q) && q.flag == Some(t) && q.mails[t] == s.mails[t] + 1
    ensures |WaitingOn(q, t)| == |WaitingOn(s, t)| - 1
  {
    var tick := Tick(if s.procs[p].until > s.now then s.procs[p].until - s.now else 0);
    var u := Next(s, tick);
    q := Next(u, SecondRead(p));
    WaitersAfter(s, tick, t);
    WaitersAfter(u, SecondRead(p), t);
    Stay(s);
    OneMore(s, s, tick);
    OneMore(s, u, SecondRead(p));
  }

  /** Everyone who waits on the standing raise sends. */
  lemma {:induction false} EveryoneSends(s: State, t: int) returns (r: State)
    requires s.flag == Some(t)
    ensures Onward(s, r) && r.mails[t] == s.mails[t] + |WaitingOn(s, t)|
    decreases |WaitingOn(s, t)|
  {
    if WaitingOn(s, t) == {} {
      Stay(s);
      r := s;
    } else {
      var p :| p in WaitingOn(s, t);
      var q := OneSends(s, t, p);
      r := EveryoneSends(q, t);
      AndOn(s, q, r);
    }
  }

  lemma MostIsReached(s: State, t: int) returns (r: State)
    ensures Onward(s, r) && r.mails[t] == Most(s, t)
  {
    if s.flag == Some(t) {
      var q := EveryoneReads(s, t);
      r := EveryoneSends(q, t);
      AndOn(s, q, r);
    } else {
      Stay(s);
      r := s;
    }
  }

  ghost predicate CanGet(s: State, t: int, k: nat) { exists r :: Onward(s, r) && r.mails[t] >= k }

  /** From any state, a raise can come to k e-mails if and only if k is at most those sent already and, while it
    * stands, the processes waiting on it and those that have not read yet. */
  lemma CanGetIffMost(s: State, t: int, k: nat)
    requires t in s.raises
    ensures CanGet(s, t, k) <==> k <= Most(s, t)
  {
    if CanGet(s, t, k) {
      var r :| Onward(s, r) && r.mails[t] >= k;
      var n: nat :| Leads(s, r, n, false);
      MostNeverRises(s, r, n, t);
    }
    if k <= Most(s, t) {
      var r := MostIsReached(s, t);
    }
  }

  ghost predicate Known(s: State) {
    && (s.flag.Some? ==> s.flag.value in s.raises)
    && (forall p :: p in s.procs && s.procs[p].Waiting? ==> s.procs[p].first in s.raises)
    && (forall t :: t in s.mails ==> t in s.raises)
  }

  lemma StepKeepsKnown(s: State, step: Step)
    requires Enabled(s, step) && Known(s)
    ensures Known(Next(s, step))
  {
  }

  lemma {:induction false} OnlyKnownRaises(r: State, n: nat)
    requires Leads(START, r, n, false)
    ensures Known(r)
    decreases n
  {
    if n > 0 {
      var q, step :| Leads(START, q, n - 1, false) && Enabled(q, step) && r == Next(q, step);
      OnlyKnownRaises(q, n - 1);
      StepKeepsKnown(q, step);
    }
  }

  lemma NobodyWaits(s: State, t: int)
    requires Known(s) && t !in s.raises
    ensures WaitingOn(s, t) == {} && s.mails[t] == 0
  {
    assert forall p :: p !in WaitingOn(s, t);
  }

  /** When a raise happens: it can get two e-mails if and only if the process of some earlier raise has not read yet. */
  lemma TwoMailsIffStraggler(s: State, n: nat, p: nat, t: int)
    requires Leads(START, s, n, false) && Enabled(s, Raise(p, t))
    ensures CanGet(Next(s, Raise(p, t)), t, 2) <==> Unread(s) != {}
  {
    OnlyKnownRaises(s, n);
    NobodyWaits(s, t);
    UnreadAfter(s, Raise(p, t));
    WaitersAfter(s, Raise(p, t), t);
    CanGetIffMost(Next(s, Raise(p, t)), t, 2);
    assert p !in Unread(s);
  }

  /** Two raises, the first one cleared, and neither process has read. */
  lemma TwoRaises() returns (s: State)
    ensures Onward(START, s) && s.flag == Some(20) && s.raises == {10, 20} && s.mails == multiset{}
    ensures s.procs == map[1 := Started(10), 2 := Started(20)]
  {
    var a := Next(START, Raise(1, 10));
    var b := Next(a, ClearFlag);
    s := Next(b, Raise(2, 20));
    Stay(START);
    OneMore(START, START, Raise(1, 10));
    OneMore(START, a, ClearFlag);
    OneMore(START, b, Raise(2, 20));
  }

  /** The first process is slow to start: by its first read the flag was cleared and raised again. Both processes
    * then see the second raise, both find it standing, and both send. */
  lemma LateFirstReadMailsTwice() returns (r: State, n: nat, t: int)
    ensures Leads(START, r, n, false) && t in r.raises && r.mails[t] == 2
  {
    var s := TwoRaises();
    t := 20;
    assert Unread(s) == {1, 2} && WaitingOn(s, t) == {};
    r := MostIsReached(s, t);
    var m: nat :| Leads(s, r, m, false);
    MostNeverRises(s, r, m, t);
    AndOn(START, s, r);
    n :| Leads(START, r, n, false);
  }
}
