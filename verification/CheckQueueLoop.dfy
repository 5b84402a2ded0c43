/** The regions of the check queue that hold the mutex, and the loop over a batch, on the queue's own fields. */
module CheckQueueLoop {
  import opened Common
  import opened CheckQueue

  class CCheckQueue {
    const c: Config
    var queue: seq<Job>
    var nIdle: int
    var nTotal: int
    var fAllOk: bool
    var nTodo: int

    ghost function Abs(): Shared
      reads this
    {
      Shared(queue, nIdle, nTotal, fAllOk, nTodo)
    }

    constructor (c: Config)
      ensures this.c == c && Abs() == Init(0).sh
    {
      this.c := c;
      queue, nIdle, nTotal, fAllOk, nTodo := [], 0, 0, true, 0;
    }

    method DoAdd(vChecks: seq<Job>)
      modifies this
      ensures Abs() == old(Abs()).(queue := old(queue) + vChecks, nTodo := old(nTodo) + |vChecks|)
    {
      for i := 0 to |vChecks|
        invariant Abs() == old(Abs()).(queue := old(queue) + vChecks[..i])
      {
        assert vChecks[..i + 1] == vChecks[..i] + [vChecks[i]];
        queue := queue + [vChecks[i]];
      }
      assert vChecks[..|vChecks|] == vChecks;
      nTodo := nTodo + |vChecks|;
    }

    /** The clean-up after the previous turn; says whether the master is to be notified. */
    method DoCleanUp(p: Phase, fMaster: bool) returns (notify: bool)
      requires p == Starting || p == Woken || p.Working?
      modifies this
      ensures Abs() == CleanUp(old(Abs()), p)
      ensures notify <==> p.Working? && nTodo == 0 && !fMaster
    {
      notify := false;
      if p.Working? {
        fAllOk := fAllOk && p.fOk;
        nTodo := nTodo - p.nNow;
        if nTodo == 0 && !fMaster {
          notify := true;
        }
      } else if p == Starting {
        nTotal := nTotal + 1;
      } else {
        nIdle := nIdle - 1;
      }
    }

    method DoProceed(fMaster: bool) returns (p: Phase, effect: Effect)
      modifies this
      ensures (Abs(), p, effect) == Proceed(c, old(Abs()), fMaster)
    {
      if queue == [] {
        if fMaster && nTodo == 0 {
          nTotal := nTotal - 1;
          var fRet := fAllOk;
          fAllOk := true;
          return Outside, Returns(fRet);
        }
        nIdle := nIdle + 1;
        return Waiting, Quiet;
      }
      var vChecks := TakeBatch();
      p, effect := Working(vChecks, fAllOk, |vChecks|), Quiet;
    }

    /** How many checks to process now. */
    method ChooseSize() returns (nNow: int)
      ensures nNow == BatchSize(c, Abs())
    {
      var d := nTotal + nIdle + 1;
      nNow := if d <= 0 then 1 else Max(1, Min(c.nBatchSize, |queue| / d));
    }

    /** Moves checks from the end of the queue into a batch, one by one. */
    method TakeBatch() returns (vChecks: seq<Job>)
      requires queue != []
      modifies this`queue
      ensures (Abs(), Working(vChecks, fAllOk, |vChecks|)) == Take(c, old(Abs()))
    {
      BatchFits(c, Abs());
      var nNow := ChooseSize();
      hide BatchSize;
      ghost var n := |queue| - nNow;
      vChecks := [];
      for i := 0 to nNow
        invariant |vChecks| == i && queue == old(queue)[..|old(queue)| - i]
        invariant forall k :: 0 <= k < i ==> vChecks[k] == old(queue)[|old(queue)| - 1 - k]
      {
        vChecks := vChecks + [queue[|queue| - 1]];
        queue := queue[..|queue| - 1];
      }
      assert vChecks == Reversed(old(queue)[n..]);
    }
  }

  /** After the first failure the rest of the batch is skipped; the answer is the conjunction all the same. */
  method RunBatch(c: Config, vChecks: seq<Job>, fAllOk: bool) returns (fOk: bool)
    ensures fOk <==> fAllOk && AllGood(c, vChecks)
  {
    fOk := fAllOk;
    for i := 0 to |vChecks|
      invariant fOk <==> fAllOk && AllGood(c, vChecks[..i])
    {
      if fOk {
        fOk := c.check(vChecks[i]);
      }
      assert forall k :: 0 <= k < i ==> vChecks[..i + 1][k] == vChecks[..i][k];
      assert vChecks[..i + 1][i] == vChecks[i];
      if fAllOk && AllGood(c, vChecks[..i + 1]) {
        forall k | 0 <= k < i
          ensures c.check(vChecks[..i][k])
        {
          assert c.check(vChecks[..i + 1][k]);
        }
        assert AllGood(c, vChecks[..i]);
      }
    }
    assert vChecks[..|vChecks|] == vChecks;
  }

  /** Running the checks one step at a time, as the protocol does, comes to the same. */
  ghost function RunAll(c: Config, p: Phase): (r: Phase)
    requires p.Working?
    ensures r.Working? && r.rest == [] && r.nNow == p.nNow
    ensures r.fOk <==> p.fOk && AllGood(c, p.rest)
    decreases |p.rest|
  {
    if p.rest == [] then p else
    var q := RunOne(c, p);
    assert AllGood(c, p.rest) <==> c.check(p.rest[0]) && AllGood(c, q.rest) by {
      assert p.rest == [p.rest[0]] + q.rest;
      if c.check(p.rest[0]) && AllGood(c, q.rest) {
        forall k | 0 <= k < |p.rest|
          ensures c.check(p.rest[k])
        {
          if k > 0 { assert c.check(q.rest[k - 1]); }
        }
      }
      if AllGood(c, p.rest) {
        forall k | 0 <= k < |q.rest|
          ensures c.check(q.rest[k])
        {
          assert c.check(p.rest[k + 1]);
        }
      }
    }
    RunAll(c, q)
  }
}
