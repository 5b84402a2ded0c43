/**
 * The check queue as a protocol: one master adds checks and then joins a pool of workers until all
 * are done. Each region held under the mutex is one atomic step, so is each check run outside it,
 * and a thread blocked on its condition variable may be woken at any time.
 */
module CheckQueue {
  import opened Products
  import opened Common

  type Job = nat

  /** What a check returns, and the largest batch. */
  datatype Config = Config(check: Job -> bool, nBatchSize: nat)

  /** The fields under the mutex. */
  datatype Shared = Shared(queue: seq<Job>, nIdle: int, nTotal: int, fAllOk: bool, nTodo: int)

  /** Where a thread is: outside Loop, before its first critical section, or somewhere inside. */
  datatype Phase =
    | Outside
    | Starting
    | Waiting
    | Woken
    | Working(rest: seq<Job>, fOk: bool, nNow: nat)

  const MASTER := 0

  /** `added` holds the checks added since the master last returned from Wait. */
  datatype State = State(sh: Shared, threads: seq<Phase>, added: seq<Job>)

  datatype Step =
    | Add(vChecks: seq<Job>, w: nat)
    | CallWait
    | Enter(t: nat)
    | RunCheck(t: nat)
    | Spurious(t: nat)

  datatype Effect = Quiet | Returns(fRet: bool)

  ghost predicate Bad(c: Config, jobs: seq<Job>) {
    exists i :: 0 <= i < |jobs| && !c.check(jobs[i])
  }

  predicate AllGood(c: Config, jobs: seq<Job>) {
    forall i :: 0 <= i < |jobs| ==> c.check(jobs[i])
  }

  // ---- the critical section of Loop ----

  /** First part: the results of the last batch go in, a new thread is counted, a woken one is idle no more. */
  function CleanUp(sh: Shared, p: Phase): Shared {
    match p
    case Working(_, fOk, nNow) => sh.(fAllOk := sh.fAllOk && fOk, nTodo := sh.nTodo - nNow)
    case Starting => sh.(nTotal := sh.nTotal + 1)
    case Woken => sh.(nIdle := sh.nIdle - 1)
    case _ => sh
  }

  /** The divisor is positive in every reachable state, see BatchIsShared. */
  function BatchSize(c: Config, sh: Shared): int {
    var d := sh.nTotal + sh.nIdle + 1;
    if d <= 0 then 1 else Max(1, Min(c.nBatchSize, |sh.queue| / d))
  }

  function Reversed(s: seq<Job>): (r: seq<Job>)
    ensures |r| == |s| && forall i :: 0 <= i < |s| ==> r[i] == s[|s| - 1 - i]
  {
    if s == [] then [] else Reversed(s[1..]) + [s[0]]
  }

  /** A batch is taken off the end of the queue, last first. */
  function Take(c: Config, sh: Shared): (Shared, Phase)
    requires sh.queue != []
  {
    var nNow := BatchSize(c, sh);
    BatchFits(c, sh);
    var n := |sh.queue| - nNow;
    (sh.(queue := sh.queue[..n]), Working(Reversed(sh.queue[n..]), sh.fAllOk, nNow))
  }

  lemma BatchFits(c: Config, sh: Shared)
    requires sh.queue != []
    ensures 1 <= BatchSize(c, sh) <= |sh.queue|
  {
    if sh.nTotal + sh.nIdle + 1 > 0 { QuotientAtMost(|sh.queue|, sh.nTotal + sh.nIdle + 1); }
  }

  /** Second part: with nothing queued the master returns when nothing is left to do; others wait. */
  function Proceed(c: Config, sh: Shared, fMaster: bool): (Shared, Phase, Effect) {
    if sh.queue == [] then
      if fMaster && sh.nTodo == 0
      then (sh.(nTotal := sh.nTotal - 1, fAllOk := true), Outside, Returns(sh.fAllOk))
      else (sh.(nIdle := sh.nIdle + 1), Waiting, Quiet)
    else
      var (sh', p) := Take(c, sh); (sh', p, Quiet)
  }

  function Wake(p: Phase): Phase {
    if p == Waiting then Woken else p
  }

  // ---- steps ----

  ghost predicate Enabled(s: State, step: Step)
  {
    match step
    case Add(vChecks, w) =>
      && |s.threads| > MASTER && s.threads[MASTER] == Outside
      && (|vChecks| == 1 ==> NotifiesOne(s.threads, w))
    case CallWait => |s.threads| > MASTER && s.threads[MASTER] == Outside
    case Enter(t) =>
      && t < |s.threads|
      && match s.threads[t] {
           case Starting => true
           case Woken => true
           case Working(rest, _, _) => rest == []
           case _ => false
         }
    case RunCheck(t) => t < |s.threads| && s.threads[t].Working? && s.threads[t].rest != []
    case Spurious(t) => t < |s.threads| && s.threads[t] == Waiting
  }

  /** notify_one picks some waiting worker, if there is one. */
  ghost predicate NotifiesOne(threads: seq<Phase>, w: nat) {
    || (MASTER < w < |threads| && threads[w] == Waiting)
    || (forall t :: MASTER < t < |threads| ==> threads[t] != Waiting)
  }

  function NotifyWorkers(threads: seq<Phase>, n: nat, w: nat): (r: seq<Phase>)
    ensures |r| == |threads|
  {
    if n == 0 then threads
    else if n == 1 then (if MASTER < w < |threads| then threads[w := Wake(threads[w])] else threads)
    else seq(|threads|, t requires 0 <= t < |threads| => if t == MASTER then threads[t] else Wake(threads[t]))
  }

  /** The worker that brings nTodo to zero notifies the master. */
  function NotifyMaster(threads: seq<Phase>, t: nat, nTodo: int): (r: seq<Phase>)
    ensures |r| == |threads|
  {
    if t != MASTER && t < |threads| && threads[t].Working? && nTodo == 0
    then threads[MASTER := Wake(threads[MASTER])] else threads
  }

  function RunOne(c: Config, p: Phase): Phase
    requires p.Working? && p.rest != []
  {
    p.(rest := p.rest[1..], fOk := p.fOk && c.check(p.rest[0]))
  }

  ghost function Next(c: Config, s: State, step: Step): (State, Effect)
    requires Enabled(s, step)
  {
    match step
    case Add(vChecks, w) =>
      (State(s.sh.(queue := s.sh.queue + vChecks, nTodo := s.sh.nTodo + |vChecks|),
             NotifyWorkers(s.threads, |vChecks|, w), s.added + vChecks), Quiet)
    case CallWait => (s.(threads := s.threads[MASTER := Starting]), Quiet)
    case Enter(t) =>
      var sh1 := CleanUp(s.sh, s.threads[t]);
      var (sh2, p, effect) := Proceed(c, sh1, t == MASTER);
      (State(sh2, NotifyMaster(s.threads, t, sh1.nTodo)[t := p], if effect.Returns? then [] else s.added), effect)
    case RunCheck(t) => (s.(threads := s.threads[t := RunOne(c, s.threads[t])]), Quiet)
    case Spurious(t) => (s.(threads := s.threads[t := Woken]), Quiet)
  }

  /** nWorkers threads about to enter Loop, and the master outside. */
  function Init(nWorkers: nat): State {
    State(Shared([], 0, 0, true, 0), seq(nWorkers + 1, t => if t == MASTER then Outside else Starting), [])
  }

  // ---- the invariant ----

  function Idle(p: Phase): int { if p == Waiting || p == Woken then 1 else 0 }
  function Inside(p: Phase): int { if p == Outside || p == Starting then 0 else 1 }
  function Held(p: Phase): int { if p.Working? then p.nNow else 0 }

  function Sum(f: Phase -> int, ts: seq<Phase>): int {
    if ts == [] then 0 else f(ts[0]) + Sum(f, ts[1..])
  }

  lemma {:induction false} SumUpdate(f: Phase -> int, ts: seq<Phase>, t: nat, p: Phase)
    requires t < |ts|
    ensures Sum(f, ts[t := p]) == Sum(f, ts) - f(ts[t]) + f(p)
  {
    if t == 0 {
      assert ts[0 := p][1..] == ts[1..];
    } else {
      assert ts[t := p][1..] == ts[1..][t - 1 := p];
      SumUpdate(f, ts[1..], t - 1, p);
    }
  }

  lemma {:induction false} SumSame(f: Phase -> int, ts: seq<Phase>, us: seq<Phase>)
    requires |ts| == |us| && forall t :: 0 <= t < |ts| ==> f(ts[t]) == f(us[t])
    ensures Sum(f, ts) == Sum(f, us)
  {
    if ts != [] {
      SumSame(f, ts[1..], us[1..]);
    }
  }

  lemma {:induction false} SumBound(f: Phase -> int, ts: seq<Phase>, t: nat)
    requires t < |ts| && forall u :: 0 <= u < |ts| ==> f(ts[u]) >= 0
    ensures 0 <= f(ts[t]) <= Sum(f, ts)
  {
    SumNonnegative(f, ts[1..]);
    if t > 0 {
      SumBound(f, ts[1..], t - 1);
    }
  }

  lemma {:induction false} SumNonnegative(f: Phase -> int, ts: seq<Phase>)
    requires forall u :: 0 <= u < |ts| ==> f(ts[u]) >= 0
    ensures Sum(f, ts) >= 0
  {
    if ts != [] {
      SumNonnegative(f, ts[1..]);
    }
  }

  lemma {:induction false} SumZero(f: Phase -> int, ts: seq<Phase>)
    requires forall u :: 0 <= u < |ts| ==> f(ts[u]) == 0
    ensures Sum(f, ts) == 0
  {
    if ts != [] {
      SumZero(f, ts[1..]);
    }
  }

  /** The counters say what the threads are doing; nTodo counts the queue and all batches in hand. */
  ghost predicate CountsAgree(sh: Shared, threads: seq<Phase>) {
    && sh.nIdle == Sum(Idle, threads) && sh.nTotal == Sum(Inside, threads)
    && sh.nTodo == |sh.queue| + Sum(Held, threads)
  }

  predicate PhaseOk(p: Phase, fMaster: bool) {
    && (p == Outside ==> fMaster)
    && (p.Working? ==> p.nNow >= 1 && |p.rest| <= p.nNow)
  }

  ghost predicate Tainted(c: Config, p: Phase) {
    p.Working? && (!p.fOk || Bad(c, p.rest))
  }

  ghost predicate AnyTainted(c: Config, threads: seq<Phase>) {
    exists t :: 0 <= t < |threads| && Tainted(c, threads[t])
  }

  /** A failed check is remembered somewhere until it reaches fAllOk, and nothing else is. */
  ghost predicate FailureKept(c: Config, s: State) {
    Bad(c, s.added) <==> !s.sh.fAllOk || Bad(c, s.sh.queue) || AnyTainted(c, s.threads)
  }

  /** The master sleeps only while some worker still has checks to report. */
  ghost predicate MasterWatched(s: State)
    requires |s.threads| > MASTER
  {
    s.threads[MASTER] == Waiting ==> s.sh.queue == [] && s.sh.nTodo > 0
  }

  /** Queued checks are never left to workers that are all asleep. */
  ghost predicate QueueWatched(s: State) {
    s.sh.queue != [] && |s.threads| > 1 ==> exists t :: MASTER < t < |s.threads| && s.threads[t] != Waiting
  }

  ghost predicate Inv(c: Config, s: State) {
    && |s.threads| > MASTER
    && (forall t :: 0 <= t < |s.threads| ==> PhaseOk(s.threads[t], t == MASTER))
    && CountsAgree(s.sh, s.threads) && s.sh.nTodo <= |s.added|
    && FailureKept(c, s) && MasterWatched(s) && QueueWatched(s)
  }

  lemma InitHolds(c: Config, nWorkers: nat)
    ensures Inv(c, Init(nWorkers))
  {
    var ts := Init(nWorkers).threads;
    SumZero(Idle, ts);
    SumZero(Inside, ts);
    SumZero(Held, ts);
  }

  // ---- lists of checks ----

  lemma BadConcat(c: Config, a: seq<Job>, b: seq<Job>)
    ensures Bad(c, a + b) <==> Bad(c, a) || Bad(c, b)
  {
    if Bad(c, a + b) {
      var i :| 0 <= i < |a + b| && !c.check((a + b)[i]);
      if i < |a| { assert !c.check(a[i]); } else { assert !c.check(b[i - |a|]); }
    }
    if Bad(c, a) {
      var i :| 0 <= i < |a| && !c.check(a[i]);
      assert !c.check((a + b)[i]);
    }
    if Bad(c, b) {
      var i :| 0 <= i < |b| && !c.check(b[i]);
      assert !c.check((a + b)[|a| + i]);
    }
  }

  lemma BadReversed(c: Config, a: seq<Job>)
    ensures Bad(c, Reversed(a)) <==> Bad(c, a)
  {
    var r := Reversed(a);
    if Bad(c, r) {
      var i :| 0 <= i < |r| && !c.check(r[i]);
      assert !c.check(a[|a| - 1 - i]);
    }
    if Bad(c, a) {
      var i :| 0 <= i < |a| && !c.check(a[i]);
      assert !c.check(r[|a| - 1 - i]);
    }
  }

  /** Taking a batch loses no bad check. */
  lemma TakeKeepsBad(c: Config, sh: Shared)
    requires sh.queue != []
    ensures var (sh', p) := Take(c, sh);
            && sh' == sh.(queue := sh'.queue) && p.Working? && 1 <= p.nNow == |p.rest| && p.fOk == sh.fAllOk
            && |sh.queue| == |sh'.queue| + p.nNow
            && (Bad(c, sh.queue) <==> Bad(c, sh'.queue) || Bad(c, p.rest))
  {
    BatchFits(c, sh);
    hide BatchSize, Bad;
    var n := |sh.queue| - BatchSize(c, sh);
    assert sh.queue == sh.queue[..n] + sh.queue[n..];
    BadConcat(c, sh.queue[..n], sh.queue[n..]);
    BadReversed(c, sh.queue[n..]);
  }

  // ---- threads other than t ----

  ghost predicate TaintedElse(c: Config, threads: seq<Phase>, t: nat) {
    exists u :: 0 <= u < |threads| && u != t && Tainted(c, threads[u])
  }

  lemma TaintedSplit(c: Config, threads: seq<Phase>, t: nat, p: Phase)
    requires t < |threads|
    ensures AnyTainted(c, threads) <==> Tainted(c, threads[t]) || TaintedElse(c, threads, t)
    ensures AnyTainted(c, threads[t := p]) <==> Tainted(c, p) || TaintedElse(c, threads, t)
  {
    hide Tainted;
    if Tainted(c, threads[t]) { assert AnyTainted(c, threads); }
    if Tainted(c, p) { assert Tainted(c, threads[t := p][t]); }
    if TaintedElse(c, threads, t) {
      var u :| 0 <= u < |threads| && u != t && Tainted(c, threads[u]);
      assert Tainted(c, threads[t := p][u]);
    }
    if AnyTainted(c, threads[t := p]) {
      var u :| 0 <= u < |threads| && Tainted(c, threads[t := p][u]);
      assert u != t ==> Tainted(c, threads[u]);
    }
  }

  lemma WakeKeepsTaint(c: Config, ts: seq<Phase>, us: seq<Phase>, t: nat)
    requires |ts| == |us| && forall u :: 0 <= u < |ts| ==> us[u] == ts[u] || us[u] == Wake(ts[u])
    ensures TaintedElse(c, us, t) <==> TaintedElse(c, ts, t)
    ensures AnyTainted(c, us) <==> AnyTainted(c, ts)
  {
    forall u | 0 <= u < |ts|
      ensures Tainted(c, us[u]) <==> Tainted(c, ts[u])
    {
    }
    hide Tainted;
    if TaintedElse(c, us, t) {
      var u :| 0 <= u < |us| && u != t && Tainted(c, us[u]);
      assert Tainted(c, ts[u]);
    }
    if TaintedElse(c, ts, t) {
      var u :| 0 <= u < |ts| && u != t && Tainted(c, ts[u]);
      assert Tainted(c, us[u]);
    }
    if AnyTainted(c, us) {
      var u :| 0 <= u < |us| && Tainted(c, us[u]);
      assert Tainted(c, ts[u]);
    }
    if AnyTainted(c, ts) {
      var u :| 0 <= u < |ts| && Tainted(c, ts[u]);
      assert Tainted(c, us[u]);
    }
  }

  lemma WakeKeepsCounts(sh: Shared, ts: seq<Phase>, us: seq<Phase>)
    requires |ts| == |us| && forall u :: 0 <= u < |ts| ==> us[u] == ts[u] || us[u] == Wake(ts[u])
    ensures CountsAgree(sh, us) <==> CountsAgree(sh, ts)
  {
    SumSame(Idle, ts, us);
    SumSame(Inside, ts, us);
    SumSame(Held, ts, us);
  }

  /** With nothing queued and nothing to do, nobody holds a batch. */
  lemma NobodyWorks(sh: Shared, threads: seq<Phase>, t: nat)
    requires CountsAgree(sh, threads) && t < |threads|
    requires forall u :: 0 <= u < |threads| ==> PhaseOk(threads[u], u == MASTER)
    ensures 0 <= Held(threads[t]) <= sh.nTodo - |sh.queue|
    ensures sh.nTodo >= |sh.queue|
  {
    SumBound(Held, threads, t);
  }

  /** There are as many idle threads as all but the working ones; each working one has something to do. */
  lemma CountsNonnegative(sh: Shared, threads: seq<Phase>, t: nat)
    requires CountsAgree(sh, threads) && t < |threads|
    ensures Idle(threads[t]) <= sh.nIdle && Inside(threads[t]) <= sh.nTotal && 0 <= sh.nIdle && 0 <= sh.nTotal
  {
    SumBound(Idle, threads, t);
    SumBound(Inside, threads, t);
  }

  // ---- Enter ----

  /** The counters just after the clean-up: thread t counts as inside, neither idle nor holding anything. */
  lemma CleanUpCounts(sh: Shared, threads: seq<Phase>, t: nat, p: Phase)
    requires CountsAgree(sh, threads) && t < |threads|
    requires threads[t] == Starting || threads[t] == Woken || threads[t].Working?
    ensures var sh1 := CleanUp(sh, threads[t]);
            && sh1.queue == sh.queue
            && sh1.nIdle == Sum(Idle, threads[t := p]) - Idle(p)
            && sh1.nTotal == Sum(Inside, threads[t := p]) - Inside(p) + 1
            && sh1.nTodo == |sh1.queue| + Sum(Held, threads[t := p]) - Held(p)
  {
    SumUpdate(Idle, threads, t, p);
    SumUpdate(Inside, threads, t, p);
    SumUpdate(Held, threads, t, p);
  }

  lemma ProceedCounts(c: Config, sh1: Shared, fMaster: bool, nIdle: int, nTotal: int, nHeld: int)
    requires sh1.nIdle == nIdle && sh1.nTotal == nTotal + 1 && sh1.nTodo == |sh1.queue| + nHeld
    ensures var (sh2, p, effect) := Proceed(c, sh1, fMaster);
            && PhaseOk(p, fMaster) && sh2.nTodo == sh1.nTodo
            && sh2.nIdle == nIdle + Idle(p) && sh2.nTotal == nTotal + Inside(p)
            && sh2.nTodo == |sh2.queue| + nHeld + Held(p)
            && (effect.Returns? ==> fMaster && p == Outside && sh1.queue == [] && sh1.nTodo == 0)
            && (effect.Returns? ==> sh2.fAllOk && sh2.queue == [] && effect.fRet == sh1.fAllOk)
            && (p == Waiting ==> sh2.queue == [] && sh1.queue == [] && (fMaster ==> sh1.nTodo != 0))
            && (sh1.queue == [] ==> !p.Working?)
            && (sh2.queue != [] ==> p.Working?)
  {
    if sh1.queue != [] { TakeKeepsBad(c, sh1); }
    hide Take, Bad;
  }

  lemma ProceedKeepsBad(c: Config, sh1: Shared, fMaster: bool)
    ensures var (sh2, p, effect) := Proceed(c, sh1, fMaster);
            effect.Quiet? ==>
              (!sh1.fAllOk || Bad(c, sh1.queue) <==> !sh2.fAllOk || Bad(c, sh2.queue) || Tainted(c, p))
  {
    if sh1.queue != [] { TakeKeepsBad(c, sh1); }
    hide Take, Bad;
  }

  lemma EnterCounts(c: Config, s: State, t: nat)
    requires Inv(c, s) && Enabled(s, Enter(t))
    ensures var s' := Next(c, s, Enter(t)).0;
            CountsAgree(s'.sh, s'.threads) && s'.sh.nTodo <= |s'.added|
    ensures forall u :: 0 <= u < |s.threads| ==> PhaseOk(Next(c, s, Enter(t)).0.threads[u], u == MASTER)
  {
    hide FailureKept, MasterWatched, QueueWatched, Bad, Take;
    var sh1 := CleanUp(s.sh, s.threads[t]);
    var (sh2, p, effect) := Proceed(c, sh1, t == MASTER);
    CleanUpCounts(s.sh, s.threads, t, p);
    var ts := s.threads[t := p];
    ProceedCounts(c, sh1, t == MASTER, Sum(Idle, ts) - Idle(p), Sum(Inside, ts) - Inside(p), Sum(Held, ts) - Held(p));
    var s' := Next(c, s, Enter(t)).0;
    WakeKeepsCounts(sh2, ts, s'.threads);
    NobodyWorks(s.sh, s.threads, t);
  }

  lemma EnterKeepsFailure(c: Config, s: State, t: nat)
    requires Inv(c, s) && Enabled(s, Enter(t))
    ensures var (s', effect) := Next(c, s, Enter(t));
            && FailureKept(c, s')
            && (effect.Returns? ==> (effect.fRet <==> !Bad(c, s.added)))
  {
    hide MasterWatched, QueueWatched, Bad, Take, CountsAgree;
    var sh1 := CleanUp(s.sh, s.threads[t]);
    var (sh2, p, effect) := Proceed(c, sh1, t == MASTER);
    var s' := Next(c, s, Enter(t)).0;
    var ts := NotifyMaster(s.threads, t, sh1.nTodo);
    NoneIsGood(c);
    TaintedSplit(c, s.threads, t, p);
    TaintedSplit(c, ts, t, p);
    WakeKeepsTaint(c, s.threads, ts, t);
    ProceedKeepsBad(c, sh1, t == MASTER);
    assert Bad(c, s.added) <==> !sh1.fAllOk || Bad(c, sh1.queue) || TaintedElse(c, s.threads, t);
    if effect.Returns? {
      NobodyElseTainted(c, s, t);
    }
  }

  lemma NoneIsGood(c: Config)
    ensures !Bad(c, [])
  {
  }

  lemma NobodyElseTainted(c: Config, s: State, t: nat)
    requires Inv(c, s) && Enabled(s, Enter(t))
    requires Proceed(c, CleanUp(s.sh, s.threads[t]), t == MASTER).2.Returns?
    ensures !TaintedElse(c, s.threads, t)
  {
    hide FailureKept, MasterWatched, QueueWatched, Bad, Take;
    var sh1 := CleanUp(s.sh, s.threads[t]);
    CleanUpCounts(s.sh, s.threads, t, Outside);
    forall u | 0 <= u < |s.threads| && u != t
      ensures !Tainted(c, s.threads[u])
    {
      SumBound(Held, s.threads[t := Outside], u);
    }
  }

  lemma EnterKeepsWatch(c: Config, s: State, t: nat)
    requires Inv(c, s) && Enabled(s, Enter(t))
    ensures var s' := Next(c, s, Enter(t)).0; MasterWatched(s') && QueueWatched(s')
  {
    hide FailureKept, Bad, Take;
    var sh1 := CleanUp(s.sh, s.threads[t]);
    var (sh2, p, effect) := Proceed(c, sh1, t == MASTER);
    CleanUpCounts(s.sh, s.threads, t, p);
    var ts := s.threads[t := p];
    ProceedCounts(c, sh1, t == MASTER, Sum(Idle, ts) - Idle(p), Sum(Inside, ts) - Inside(p), Sum(Held, ts) - Held(p));
    var s' := Next(c, s, Enter(t)).0;
    NobodyWorks(s.sh, s.threads, t);
    if sh2.queue != [] && t == MASTER && |s.threads| > 1 {
      var u :| MASTER < u < |s.threads| && s.threads[u] != Waiting;
      assert s'.threads[u] != Waiting;
    }
    if sh2.queue != [] && t != MASTER {
      assert s'.threads[t] != Waiting;
    }
  }

  // ---- the other steps ----

  lemma AddKeeps(c: Config, s: State, vChecks: seq<Job>, w: nat)
    requires Inv(c, s) && Enabled(s, Add(vChecks, w))
    ensures Inv(c, Next(c, s, Add(vChecks, w)).0)
  {
    hide Bad;
    var s' := Next(c, s, Add(vChecks, w)).0;
    WakeKeepsCounts(s.sh, s.threads, s'.threads);
    WakeKeepsTaint(c, s.threads, s'.threads, MASTER);
    BadConcat(c, s.sh.queue, vChecks);
    BadConcat(c, s.added, vChecks);
    if |vChecks| == 0 {
      assert s.sh.queue + vChecks == s.sh.queue;
    } else if |s.threads| > 1 {
      AddWakes(s.threads, |vChecks|, w);
    }
  }

  /** After the notification some worker is awake. */
  lemma AddWakes(threads: seq<Phase>, n: nat, w: nat)
    requires n > 0 && (n == 1 ==> NotifiesOne(threads, w)) && |threads| > 1
    ensures var us := NotifyWorkers(threads, n, w); exists t :: MASTER < t < |us| && us[t] != Waiting
  {
    var us := NotifyWorkers(threads, n, w);
    var t := if n == 1 && MASTER < w < |threads| then w else 1;
    assert us[t] != Waiting;
  }

  lemma CallWaitKeeps(c: Config, s: State)
    requires Inv(c, s) && Enabled(s, CallWait)
    ensures Inv(c, Next(c, s, CallWait).0)
  {
    hide Bad;
    SumUpdate(Idle, s.threads, MASTER, Starting);
    SumUpdate(Inside, s.threads, MASTER, Starting);
    SumUpdate(Held, s.threads, MASTER, Starting);
    TaintedSplit(c, s.threads, MASTER, Starting);
    QueueWatchSame(s, s.threads[MASTER := Starting]);
  }

  lemma QueueWatchSame(s: State, us: seq<Phase>)
    requires QueueWatched(s) && |us| == |s.threads|
    requires forall t :: MASTER < t < |us| && s.threads[t] != Waiting ==> us[t] != Waiting
    ensures QueueWatched(s.(threads := us))
  {
    if s.sh.queue != [] && |s.threads| > 1 {
      var t :| MASTER < t < |s.threads| && s.threads[t] != Waiting;
      assert us[t] != Waiting;
    }
  }

  lemma SpuriousKeeps(c: Config, s: State, t: nat)
    requires Inv(c, s) && Enabled(s, Spurious(t))
    ensures Inv(c, Next(c, s, Spurious(t)).0)
  {
    hide Bad, Tainted;
    var us := s.threads[t := Woken];
    WakeKeepsCounts(s.sh, s.threads, us);
    WakeKeepsTaint(c, s.threads, us, t);
    QueueWatchSame(s, us);
  }

  lemma RunCheckKeeps(c: Config, s: State, t: nat)
    requires Inv(c, s) && Enabled(s, RunCheck(t))
    ensures Inv(c, Next(c, s, RunCheck(t)).0)
  {
    hide Bad;
    var p, q := s.threads[t], RunOne(c, s.threads[t]);
    SumUpdate(Idle, s.threads, t, q);
    SumUpdate(Inside, s.threads, t, q);
    SumUpdate(Held, s.threads, t, q);
    TaintedSplit(c, s.threads, t, q);
    BadFirst(c, p.rest);
    QueueWatchSame(s, s.threads[t := q]);
  }

  lemma BadFirst(c: Config, jobs: seq<Job>)
    requires jobs != []
    ensures Bad(c, jobs) <==> !c.check(jobs[0]) || Bad(c, jobs[1..])
  {
    BadConcat(c, [jobs[0]], jobs[1..]);
    assert [jobs[0]] + jobs[1..] == jobs;
    assert Bad(c, [jobs[0]]) <==> !c.check(jobs[0]) by {
      if !c.check(jobs[0]) { assert !c.check([jobs[0]][0]); }
    }
  }

  /** Every step keeps the invariant, and a Wait that returns gives the conjunction of all checks added for it. */
  lemma StepKeeps(c: Config, s: State, step: Step)
    requires Inv(c, s) && Enabled(s, step)
    ensures var (s', effect) := Next(c, s, step);
            && Inv(c, s')
            && (effect.Returns? ==> (effect.fRet <==> AllGood(c, s.added)))
  {
    match step
    case Add(vChecks, w) => AddKeeps(c, s, vChecks, w);
    case CallWait => CallWaitKeeps(c, s);
    case Enter(t) =>
      EnterCounts(c, s, t);
      EnterKeepsFailure(c, s, t);
      EnterKeepsWatch(c, s, t);
      hide CountsAgree, FailureKept, MasterWatched, QueueWatched, CleanUp, Proceed;
    case RunCheck(t) => RunCheckKeeps(c, s, t);
    case Spurious(t) => SpuriousKeeps(c, s, t);
  }

  /** When Wait returns nothing is queued, nobody holds a check, and the state is as before the first Add. */
  lemma ReturnIsClean(c: Config, s: State, t: nat)
    requires Inv(c, s) && Enabled(s, Enter(t)) && Next(c, s, Enter(t)).1.Returns?
    ensures var s' := Next(c, s, Enter(t)).0;
            && s'.sh.queue == [] && s'.sh.nTodo == 0 && s'.sh.fAllOk && s'.added == []
            && t == MASTER && s'.threads[MASTER] == Outside
            && forall u :: 0 <= u < |s'.threads| ==> !s'.threads[u].Working?
  {
    EnterCounts(c, s, t);
    var s' := Next(c, s, Enter(t)).0;
    hide FailureKept, MasterWatched, QueueWatched, Take, Bad;
    forall u | 0 <= u < |s'.threads|
      ensures !s'.threads[u].Working?
    {
      NobodyWorks(s'.sh, s'.threads, u);
    }
  }

  // ---- whole runs ----

  datatype Verdict = Verdict(fRet: bool, jobs: seq<Job>)

  ghost predicate Possible(c: Config, s: State, steps: seq<Step>)
    decreases |steps|
  {
    steps == [] || (Enabled(s, steps[0]) && Possible(c, Next(c, s, steps[0]).0, steps[1..]))
  }

  /** Where an interleaving leads, and what each Wait on the way returned for which checks. */
  ghost function Run(c: Config, s: State, steps: seq<Step>): (State, seq<Verdict>)
    requires Possible(c, s, steps)
    decreases |steps|
  {
    if steps == [] then (s, []) else
    var (s1, effect) := Next(c, s, steps[0]);
    var (s2, verdicts) := Run(c, s1, steps[1..]);
    (s2, (if effect.Returns? then [Verdict(effect.fRet, s.added)] else []) + verdicts)
  }

  function AddedBy(steps: seq<Step>): seq<Job> {
    if steps == [] then [] else (if steps[0].Add? then steps[0].vChecks else []) + AddedBy(steps[1..])
  }

  function Judged(verdicts: seq<Verdict>): seq<Job> {
    if verdicts == [] then [] else verdicts[0].jobs + Judged(verdicts[1..])
  }

  predicate Correct(c: Config, v: Verdict) {
    v.fRet <==> AllGood(c, v.jobs)
  }

  /**
   * In every interleaving: the invariant holds, each Wait returns the conjunction of the checks it
   * was for, and every check ever added was for exactly one Wait or is still pending.
   */
  lemma {:induction false} RunIsCorrect(c: Config, s: State, steps: seq<Step>)
    requires Inv(c, s) && Possible(c, s, steps)
    ensures var (s', verdicts) := Run(c, s, steps);
            && Inv(c, s')
            && (forall i :: 0 <= i < |verdicts| ==> Correct(c, verdicts[i]))
            && Judged(verdicts) + s'.added == s.added + AddedBy(steps)
    decreases |steps|
  {
    hide Inv, Enabled, Next, AllGood;
    if steps != [] {
      StepKeeps(c, s, steps[0]);
      NextAdds(c, s, steps[0]);
      var (s1, effect) := Next(c, s, steps[0]);
      RunIsCorrect(c, s1, steps[1..]);
      var (s2, verdicts) := Run(c, s1, steps[1..]);
      var adds := if steps[0].Add? then steps[0].vChecks else [];
      if effect.Returns? {
        var v := Verdict(effect.fRet, s.added);
        assert ([v] + verdicts)[1..] == verdicts;
        Regrouped(s.added, s1.added, Judged(verdicts), s2.added, s.added, adds, AddedBy(steps[1..]));
      } else {
        assert [] + verdicts == verdicts && [] + Judged(verdicts) == Judged(verdicts);
        Regrouped([], s1.added, Judged(verdicts), s2.added, s.added, adds, AddedBy(steps[1..]));
      }
    }
  }

  lemma Regrouped(x: seq<Job>, y: seq<Job>, j: seq<Job>, z: seq<Job>, base: seq<Job>, adds: seq<Job>, more: seq<Job>)
    requires x + y == base + adds && j + z == y + more
    ensures (x + j) + z == base + (adds + more)
  {
    assert (x + j) + z == x + (j + z) == (x + y) + more;
  }

  lemma NextAdds(c: Config, s: State, step: Step)
    requires Enabled(s, step)
    ensures var (s', effect) := Next(c, s, step);
            (if effect.Returns? then s.added else []) + s'.added == s.added + (if step.Add? then step.vChecks else [])
  {
    hide Enabled, CleanUp;
  }

  // ---- nobody is left behind ----

  /** A master asleep in Wait: some worker holds a batch and will report. */
  lemma MasterNotStranded(c: Config, s: State)
    requires Inv(c, s) && s.threads[MASTER] == Waiting
    ensures exists t :: MASTER < t < |s.threads| && s.threads[t].Working?
  {
    hide FailureKept, Bad, Tainted;
    if forall t :: MASTER < t < |s.threads| ==> !s.threads[t].Working? {
      SumZero(Held, s.threads);
      assert false;
    }
  }

  ghost predicate MasterInside(s: State) {
    |s.threads| > MASTER && s.threads[MASTER] != Outside
  }

  /** While the master is in Wait, some thread can go on without being woken: there is no deadlock. */
  lemma SomebodyCanGoOn(c: Config, s: State)
    requires Inv(c, s) && MasterInside(s)
    ensures exists t :: Enabled(s, Enter(t)) || Enabled(s, RunCheck(t))
  {
    hide CountsAgree, FailureKept, QueueWatched, Bad;
    if s.threads[MASTER] == Waiting {
      MasterNotStranded(c, s);
      var t :| MASTER < t < |s.threads| && s.threads[t].Working?;
      assert Enabled(s, Enter(t)) || Enabled(s, RunCheck(t));
    } else {
      assert Enabled(s, Enter(MASTER)) || Enabled(s, RunCheck(MASTER));
    }
  }

  function Awake(p: Phase): int {
    if p == Starting || p == Woken then 1 else if p.Working? then |p.rest| else 0
  }

  /** What is left to do: reports outstanding, then checks queued, then checks and wake-ups in hand. */
  ghost predicate Smaller(a: State, b: State) {
    || a.sh.nTodo < b.sh.nTodo
    || (a.sh.nTodo == b.sh.nTodo && |a.sh.queue| < |b.sh.queue|)
    || (a.sh.nTodo == b.sh.nTodo && |a.sh.queue| == |b.sh.queue| && Sum(Awake, a.threads) < Sum(Awake, b.threads))
  }

  /** Every step inside Loop but a spurious wake-up brings Wait nearer to its return. */
  lemma StepProgresses(c: Config, s: State, step: Step)
    requires Inv(c, s) && Enabled(s, step) && (step.Enter? || step.RunCheck?)
    ensures var (s', effect) := Next(c, s, step);
            effect.Returns? || (Smaller(s', s) && 0 <= s'.sh.nTodo && 0 <= Sum(Awake, s'.threads))
  {
    hide FailureKept, MasterWatched, QueueWatched, Bad;
    var s' := Next(c, s, step).0;
    AwakeNonnegative(s'.threads);
    match step
    case RunCheck(t) =>
      SumUpdate(Awake, s.threads, t, RunOne(c, s.threads[t]));
      NobodyWorks(s.sh, s.threads, t);
    case Enter(t) =>
      EnterCounts(c, s, t);
      EnterProgresses(c, s, t);
      NobodyWorks(s'.sh, s'.threads, t);
  }

  lemma AwakeNonnegative(threads: seq<Phase>)
    ensures 0 <= Sum(Awake, threads)
  {
    SumNonnegative(Awake, threads);
  }

  lemma EnterProgresses(c: Config, s: State, t: nat)
    requires Inv(c, s) && Enabled(s, Enter(t))
    ensures var (s', effect) := Next(c, s, Enter(t)); effect.Returns? || Smaller(s', s)
  {
    hide CountsAgree, FailureKept, MasterWatched, QueueWatched, Bad, Take;
    var sh1 := CleanUp(s.sh, s.threads[t]);
    if sh1.queue != [] { TakeKeepsBad(c, sh1); }
    var (sh2, p, effect) := Proceed(c, sh1, t == MASTER);
    SumUpdate(Awake, s.threads, t, p);
  }

  // ---- endless schedules ----

  /** States and steps of an endless run, whatever the threads and the master do in it. */
  ghost predicate Schedule(c: Config, states: nat -> State, steps: nat -> Step) {
    forall i: nat :: Follows(c, states(i), steps(i), states(i + 1))
  }

  ghost predicate Follows(c: Config, s: State, step: Step, s': State) {
    Enabled(s, step) && s' == Next(c, s, step).0
  }

  /** Woken for nothing while the master is in Wait. */
  ghost predicate Disturbed(states: nat -> State, steps: nat -> Step, i: nat) {
    steps(i).Spurious? && MasterInside(states(i))
  }

  ghost predicate ReturnsAt(c: Config, states: nat -> State, steps: nat -> Step, n: nat) {
    Enabled(states(n), steps(n)) && Next(c, states(n), steps(n)).1.Returns?
  }

  /** The master leaves Loop only by returning. */
  lemma StaysInside(c: Config, s: State, step: Step)
    requires Enabled(s, step) && MasterInside(s)
    ensures step.Enter? || step.RunCheck? || step.Spurious?
    ensures var (s', effect) := Next(c, s, step); effect.Returns? || MasterInside(s')
  {
    hide CleanUp, BatchSize, Reversed;
  }

  lemma {:induction false} ScheduleKeeps(c: Config, states: nat -> State, steps: nat -> Step, n: nat)
    requires Inv(c, states(0)) && Schedule(c, states, steps)
    ensures Inv(c, states(n))
  {
    hide Inv, Enabled, Next;
    if n > 0 {
      ScheduleKeeps(c, states, steps, n - 1);
      assert Follows(c, states(n - 1), steps(n - 1), states(n - 1 + 1));
      StepKeeps(c, states(n - 1), steps(n - 1));
    }
  }

  /** From n on nobody is woken for nothing: Wait returns, however unfair the schedule. */
  lemma {:induction false} ReturnsUndisturbed(c: Config, states: nat -> State, steps: nat -> Step, n: nat)
    returns (m: nat)
    requires Inv(c, states(n)) && MasterInside(states(n)) && Schedule(c, states, steps)
    requires forall i: nat :: n <= i ==> !Disturbed(states, steps, i)
    ensures n <= m && ReturnsAt(c, states, steps, m)
    decreases states(n).sh.nTodo, |states(n).sh.queue|, Sum(Awake, states(n).threads)
  {
    hide Inv, Enabled, Next, MasterInside;
    assert Follows(c, states(n), steps(n), states(n + 1)) && !Disturbed(states, steps, n);
    StaysInside(c, states(n), steps(n));
    if ReturnsAt(c, states, steps, n) {
      m := n;
    } else {
      StepProgresses(c, states(n), steps(n));
      StepKeeps(c, states(n), steps(n));
      m := ReturnsUndisturbed(c, states, steps, n + 1);
    }
  }

  /**
   * In every endless schedule, with any number of additions and calls of Wait, a Wait that is under
   * way returns, provided that it is not disturbed by spurious wake-ups for ever.
   */
  lemma {:induction false} WaitReturns(c: Config, states: nat -> State, steps: nat -> Step, n: nat, quiet: nat)
    returns (m: nat)
    requires Inv(c, states(0)) && Schedule(c, states, steps) && MasterInside(states(n))
    requires forall i: nat :: quiet <= i ==> !Disturbed(states, steps, i)
    ensures n <= m && ReturnsAt(c, states, steps, m)
    decreases quiet - n
  {
    hide Inv, Enabled, Next, MasterInside;
    ScheduleKeeps(c, states, steps, n);
    if quiet <= n {
      m := ReturnsUndisturbed(c, states, steps, n);
    } else if ReturnsAt(c, states, steps, n) {
      m := n;
    } else {
      assert Follows(c, states(n), steps(n), states(n + 1));
      StaysInside(c, states(n), steps(n));
      m := WaitReturns(c, states, steps, n + 1, quiet);
    }
  }

  /** Some thread that can go on, or else the next call of Wait. */
  ghost function Choice(s: State): Step {
    if exists step :: GoesOn(s, step) then var step :| GoesOn(s, step); step else CallWait
  }

  ghost predicate GoesOn(s: State, step: Step) {
    Enabled(s, step) && (step.Enter? || step.RunCheck?)
  }

  lemma ChoiceEnabled(c: Config, s: State)
    requires Inv(c, s)
    ensures Enabled(s, Choice(s)) && !Choice(s).Spurious?
  {
    hide CountsAgree, FailureKept, MasterWatched, QueueWatched;
    if MasterInside(s) {
      SomebodyCanGoOn(c, s);
      var t :| Enabled(s, Enter(t)) || Enabled(s, RunCheck(t));
      assert GoesOn(s, Enter(t)) || GoesOn(s, RunCheck(t));
    }
  }

  ghost function Chosen(c: Config, s: State, n: nat): (r: State)
    requires Inv(c, s)
    ensures Inv(c, r)
  {
    if n == 0 then s else
    var before := Chosen(c, s, n - 1);
    ChoiceEnabled(c, before);
    StepKeeps(c, before, Choice(before));
    Next(c, before, Choice(before)).0
  }

  /** Every state of the protocol starts an endless schedule in which nobody is woken for nothing. */
  lemma SchedulesExist(c: Config, s: State) returns (states: nat -> State, steps: nat -> Step)
    requires Inv(c, s)
    ensures states(0) == s && Schedule(c, states, steps)
    ensures forall i: nat :: !Disturbed(states, steps, i)
  {
    hide Inv, Enabled, Next, Choice;
    states := (i: nat) => Chosen(c, s, i);
    steps := (i: nat) => Choice(Chosen(c, s, i));
    forall i: nat
      ensures Follows(c, states(i), steps(i), states(i + 1)) && !Disturbed(states, steps, i)
    {
      ChoiceEnabled(c, Chosen(c, s, i));
      StepKeeps(c, Chosen(c, s, i), Choice(Chosen(c, s, i)));
    }
  }

  /** In particular a Wait under way can always be carried to its return. */
  lemma WaitCanReturn(c: Config, s: State) returns (states: nat -> State, steps: nat -> Step, m: nat)
    requires Inv(c, s) && MasterInside(s)
    ensures states(0) == s && Schedule(c, states, steps) && ReturnsAt(c, states, steps, m)
  {
    hide Inv, Enabled, Next, Schedule, MasterInside, ReturnsAt;
    states, steps := SchedulesExist(c, s);
    m := WaitReturns(c, states, steps, 0, 0);
  }

  // ---- the controller ----

  predicate IsIdle(sh: Shared) {
    sh.nTotal == sh.nIdle && sh.nTodo == 0 && sh.fAllOk
  }

  /** The assertion of CCheckQueueControl holds whenever nothing was added since the last Wait. */
  lemma UnusedIsIdle(c: Config, s: State)
    requires Inv(c, s) && s.threads[MASTER] == Outside && s.added == []
    ensures IsIdle(s.sh)
  {
    hide MasterWatched, QueueWatched, Bad;
    NoneIsGood(c);
    SumNonnegative(Held, s.threads);
    forall t | 0 <= t < |s.threads|
      ensures Idle(s.threads[t]) == Inside(s.threads[t])
    {
      NobodyWorks(s.sh, s.threads, t);
    }
    SumEqual(Idle, Inside, s.threads);
  }

  lemma {:induction false} SumEqual(f: Phase -> int, g: Phase -> int, ts: seq<Phase>)
    requires forall t :: 0 <= t < |ts| ==> f(ts[t]) == g(ts[t])
    ensures Sum(f, ts) == Sum(g, ts)
  {
    if ts != [] {
      SumEqual(f, g, ts[1..]);
    }
  }

  /** The batch of a thread that is about to take one: its share, as far as the limit goes, and at least one check. */
  lemma BatchIsShared(c: Config, s: State, t: nat)
    requires Inv(c, s) && Enabled(s, Enter(t)) && s.sh.queue != []
    ensures var sh1, p := CleanUp(s.sh, s.threads[t]), Next(c, s, Enter(t)).0.threads[t];
            && sh1.nTotal + sh1.nIdle + 1 > 0 && p.Working? && p.nNow == |p.rest| >= 1
            && (p.nNow > 1 ==> p.nNow <= c.nBatchSize && p.nNow <= |s.sh.queue| / (sh1.nTotal + sh1.nIdle + 1))
            && (p.nNow >= c.nBatchSize || p.nNow >= |s.sh.queue| / (sh1.nTotal + sh1.nIdle + 1))
  {
    hide FailureKept, MasterWatched, QueueWatched, Bad;
    var sh1 := CleanUp(s.sh, s.threads[t]);
    SumNonnegativeCounts(s.threads);
    CountsNonnegative(s.sh, s.threads, t);
    hide CountsAgree;
    TakeKeepsBad(c, sh1);
    BatchBound(c, sh1);
    hide BatchSize;
  }

  lemma BatchBound(c: Config, sh: Shared)
    requires sh.nTotal + sh.nIdle + 1 > 0
    ensures BatchSize(c, sh) > 1 ==>
              BatchSize(c, sh) <= c.nBatchSize && BatchSize(c, sh) <= |sh.queue| / (sh.nTotal + sh.nIdle + 1)
    ensures BatchSize(c, sh) >= c.nBatchSize || BatchSize(c, sh) >= |sh.queue| / (sh.nTotal + sh.nIdle + 1)
  {
  }

  lemma SumNonnegativeCounts(threads: seq<Phase>)
    ensures Sum(Idle, threads) >= 0 && Sum(Inside, threads) >= 0
  {
    SumNonnegative(Idle, threads);
    SumNonnegative(Inside, threads);
  }
}
