/** The flush-commit state machine as it is carried out, under the flush lock. */
module FcsmMachine {
  import opened Chunks
  import opened Fcsm

  lemma BytesNext(items: seq<Item>, k: nat)
    requires k < |items|
    ensures Bytes(items[..k + 1]) == Bytes(items[..k]) + items[k].length
  {
    assert items[..k + 1] == items[..k] + [items[k]];
    BytesConcat(items[..k], [items[k]]);
    assert [items[k]][1..] == [];
  }

  /** What the targets reached at n leave of a queue, and whom they tell. */
  function Left(q: seq<Tgt>, n: nat): seq<Tgt> {
    q[Met(q, n)..]
  }

  function Heard(q: seq<Tgt>, n: nat): seq<Waiter> {
    Waiters(q[..Met(q, n)])
  }

  lemma PopEnd(q: seq<Tgt>, n: nat)
    requires q == [] || n < q[0].goal
    ensures Left(q, n) == q && Heard(q, n) == []
  {
  }

  lemma PopStep(q: seq<Tgt>, n: nat)
    requires q != [] && q[0].goal <= n
    ensures Left(q[1..], n) == Left(q, n)
    ensures Told(q[0].waiter) + Heard(q[1..], n) == Heard(q, n)
  {
    hide Met;
    var k := Met(q[1..], n);
    assert Met(q, n) == k + 1 by { MetStep(q, n); }
    assert q[..k + 1][0] == q[0] && q[..k + 1][1..] == q[1..][..k];
  }

  lemma MetStep(q: seq<Tgt>, n: nat)
    requires q != [] && q[0].goal <= n
    ensures Met(q, n) == 1 + Met(q[1..], n)
  {
  }

  lemma PoppedFlush(f: Fc)
    ensures PopFlush(f) == f.(ftgtq := Left(f.ftgtq, f.flushed), answered := f.answered + Heard(f.ftgtq, f.flushed))
  {
  }

  lemma PoppedCommit(f: Fc)
    ensures PopCommit(f) == f.(ctgtq := Left(f.ctgtq, f.committed), answered := f.answered + Heard(f.ctgtq, f.committed))
  {
  }

  lemma PoppedReady(f: Fc)
    requires Kept(f) && CommitAhead(f) && Handles(f)
    ensures var g := PopFlush(f);
            Kept(g) && CommitAhead(g) && Handles(g) && (g.ftgtq != [] ==> g.flushed < g.ftgtq[0].goal)
  {
    hide Kept, PopFlush;
    PopFlushKeeps(f);
  }

  class Machine {
    var flushing: nat
    var flushed: nat
    var committing: nat
    var committed: nat
    var running: bool
    var ftgtq: seq<Tgt>
    var ctgtq: seq<Tgt>
    var stable: bool
    var appendAt: nat
    var commitInProgress: bool
    var dirty: seq<Item>
    var inflight: seq<Item>
    var pending: seq<Item>
    var answered: seq<Waiter>

    function State(): Fc
      reads this
    {
      Fc(flushing, flushed, committing, committed, running, ftgtq, ctgtq, stable, appendAt, commitInProgress,
         dirty, inflight, pending, answered)
    }

    constructor (stableWrites: bool)
      ensures State() == Fc(0, 0, 0, 0, false, [], [], stableWrites, 0, false, [], [], [], []) && Kept(State())
    {
      flushing, flushed, committing, committed, running := 0, 0, 0, 0, false;
      ftgtq, ctgtq, stable, appendAt, commitInProgress := [], [], stableWrites, 0, false;
      dirty, inflight, pending, answered := [], [], [], [];
    }

    /** Complete the waiting task, or tell the waiting thread. */
    method Tell(w: Waiter)
      modifies this`answered
      ensures answered == old(answered) + Told(w)
    {
      if w != Nobody {
        answered := answered + [w];
      }
    }

    /** ctgtq_cleanup() */
    method CtgtqCleanup()
      modifies this`ctgtq, this`answered
      ensures ctgtq == [] && answered == old(answered) + Waiters(old(ctgtq))
    {
      while ctgtq != []
        invariant answered + Waiters(ctgtq) == old(answered) + Waiters(old(ctgtq))
        decreases |ctgtq|
      {
        Tell(ctgtq[0].waiter);
        ctgtq := ctgtq[1..];
      }
    }

    /** ftgtq_cleanup(), after a truncate */
    method FtgtqCleanup()
      modifies this`ftgtq, this`answered
      ensures State() == CleanUp(old(State()))
    {
      while ftgtq != []
        invariant answered + Waiters(ftgtq) == old(answered) + Waiters(old(ftgtq))
        decreases |ftgtq|
      {
        Tell(ftgtq[0].waiter);
        ftgtq := ftgtq[1..];
      }
    }

    /** All that is commit pending is dirty again. */
    method Redirty()
      modifies this`dirty, this`pending
      ensures dirty == InsertAll(old(dirty), old(pending)) && pending == []
    {
      while pending != []
        invariant InsertAll(dirty, pending) == InsertAll(old(dirty), old(pending))
        decreases |pending|
      {
        dirty := Insert(dirty, pending[0]);
        pending := pending[1..];
      }
    }

    /** switch_to_stable_write() */
    method SwitchToStableWrite()
      requires !stable && !commitInProgress && inflight == []
      modifies this`stable, this`dirty, this`pending, this`ctgtq, this`answered
      ensures State() == Switch(old(State()))
    {
      hide InsertAll;
      Redirty();
      stable := true;
      CtgtqCleanup();
    }

    /** Send the items out; each one counts as flushing from now on. */
    method Send(out: seq<Item>)
      requires out != []
      modifies this`flushing, this`appendAt, this`running
      ensures running && flushing == old(flushing) + Bytes(out)
      ensures appendAt == if stable then old(appendAt) else old(appendAt) + Bytes(out)
    {
      var k := 0;
      while k < |out|
        invariant k <= |out|
        invariant flushing == old(flushing) + Bytes(out[..k])
        invariant appendAt == if stable then old(appendAt) else old(appendAt) + Bytes(out[..k])
        invariant 0 < k ==> running
      {
        BytesNext(out, k);
        running := true;
        flushing := flushing + out[k].length;
        if !stable {
          appendAt := appendAt + out[k].length;
        }
        k := k + 1;
      }
      assert out[..k] == out;
    }

    /** sync_membufs() on the first n dirty items */
    method SyncMembufs(n: nat)
      requires n <= |dirty| && !commitInProgress && inflight == []
      modifies this
      ensures State() == Sync(old(State()), n)
    {
      hide InsertAll, Bytes;
      if n == 0 {
        return;
      }
      var out := dirty[..n];
      var rewrite := !stable && appendAt != dirty[0].offset;
      dirty := dirty[n..];
      if rewrite {
        SwitchToStableWrite();
      }
      Send(out);
      inflight := inflight + out;
    }

    /** commit_membufs() on everything commit pending */
    method CommitMembufs()
      requires pending != []
      modifies this`committing, this`running, this`commitInProgress
      ensures State() == StartCommit(old(State()))
    {
      commitInProgress := true;
      var k := 0;
      while k < |pending|
        invariant k <= |pending| && committing == old(committing) + Bytes(pending[..k])
        invariant running == (old(running) || 0 < k)
        modifies this`committing, this`running
      {
        BytesNext(pending, k);
        committing := committing + pending[k].length;
        running := true;
        k := k + 1;
      }
      assert pending[..k] == pending;
    }

    /** ensure_flush() */
    method EnsureFlush(w: Waiter, full: bool, late: seq<Item>)
      requires Kept(State()) && Positive(late) && (full ==> pending == [])
      modifies this
      ensures State() == Fcsm.EnsureFlush(old(State()), w, full, late)
      ensures Kept(State())
    {
      hide Kept, Sync, InsertAll, Contiguous;
      ghost var s := State();
      EnsureFlushKeeps(s, w, full, late);
      FlushGoalIsLast(s);
      KeptFacts(s);
      var bytesToFlush := Bytes(dirty);
      var lastFlushSeq := Front(ftgtq);
      var goal := Max(flushing + bytesToFlush, lastFlushSeq);
      if running {
        if w == Nobody && goal == lastFlushSeq {
          return;
        }
        ftgtq := ftgtq + [Tgt(goal, w, full)];
        return;
      }
      assert flushed == flushing && flushing <= goal;
      if goal == flushed {
        Tell(w);
        return;
      }
      Kick(w, full, late, bytesToFlush, goal);
    }

    /** The end of ensure_flush() on a stopped machine: collect what is dirty by now and send it out. */
    method Kick(w: Waiter, full: bool, late: seq<Item>, bytesToFlush: nat, goal: nat)
      requires Kept(State()) && Positive(late) && !running && dirty != [] && inflight == [] && !commitInProgress
      requires bytesToFlush == Bytes(dirty) && goal == FlushGoal(State()) != flushed
      modifies this
      ensures State() == Fcsm.EnsureFlush(old(State()), w, full, late)
    {
      hide Kept, Sync, InsertAll, Contiguous, FlushGoal;
      KeptFacts(State());
      BytesPositive(dirty);
      LateKeeps(State(), late);
      dirty := InsertAll(dirty, late);
      var n := |dirty|;
      assert bytesToFlush <= Bytes(dirty);
      if !stable {
        n := Contiguous(dirty);
        if full && Bytes(dirty[..n]) < bytesToFlush {
          n := |dirty|;
          stable := true;
        }
      }
      assert 0 < n;
      SyncMembufs(n);
      ftgtq := ftgtq + [Tgt(goal, w, false)];
    }

    /** ensure_commit() */
    method EnsureCommit(w: Waiter, full: bool, mdeb: nat, late: seq<Item>)
      requires Kept(State()) && !stable && Positive(late) && (full ==> pending == [])
      modifies this
      ensures State() == Fcsm.EnsureCommit(old(State()), w, full, mdeb, late)
      ensures Kept(State())
    {
      hide Kept, Fcsm.EnsureFlush;
      ghost var s := State();
      EnsureCommitKeeps(s, w, full, mdeb, late);
      KeptFacts(s);
      BytesPositive(pending);
      var commitBytes := Bytes(pending);
      if full {
        assert commitBytes == 0;
        commitBytes := Bytes(dirty);
      } else if commitBytes == 0 {
        commitBytes := if mdeb < Bytes(dirty) then Bytes(dirty) - mdeb else 0;
      }
      if commitBytes == 0 {
        Tell(w);
        return;
      }
      CommitGoalAttainable(s, full, mdeb);
      var goal := Max(committed + commitBytes, Front(ctgtq));
      if running {
        ctgtq := ctgtq + [Tgt(goal, w, full)];
        return;
      }
      if flushed < goal {
        EnsureFlush(Nobody, full, late);
        if !stable {
          ctgtq := ctgtq + [Tgt(goal, w, false)];
        } else if w.Task? {
          Tell(w);
        } else if w.Done? {
          EnsureFlush(w, false, []);
        }
      } else {
        CommitMembufs();
        ctgtq := ctgtq + [Tgt(goal, w, false)];
      }
    }

    /** The loop of on_flush_complete() over the flush targets. */
    method PopFlushTargets()
      modifies this`ftgtq, this`answered
      ensures State() == PopFlush(old(State()))
    {
      hide Left, Heard, Met, Waiters, Told;
      while ftgtq != [] && ftgtq[0].goal <= flushed
        invariant Left(ftgtq, flushed) == Left(old(ftgtq), flushed)
        invariant answered + Heard(ftgtq, flushed) == old(answered) + Heard(old(ftgtq), flushed)
        decreases |ftgtq|
      {
        PopStep(ftgtq, flushed);
        var w := ftgtq[0].waiter;
        Associates(answered, Told(w), Heard(ftgtq[1..], flushed));
        Tell(w);
        ftgtq := ftgtq[1..];
      }
      PopEnd(ftgtq, flushed);
      assert PopFlush(old(State())) == old(State()).(ftgtq := ftgtq, answered := answered) by {
        PoppedFlush(old(State()));
      }
    }

    /** The loop of on_commit_complete() over the commit targets. */
    method PopCommitTargets()
      modifies this`ctgtq, this`answered
      ensures State() == PopCommit(old(State()))
    {
      hide Left, Heard, Met, Waiters, Told;
      while ctgtq != [] && ctgtq[0].goal <= committed
        invariant Left(ctgtq, committed) == Left(old(ctgtq), committed)
        invariant answered + Heard(ctgtq, committed) == old(answered) + Heard(old(ctgtq), committed)
        decreases |ctgtq|
      {
        PopStep(ctgtq, committed);
        var w := ctgtq[0].waiter;
        Associates(answered, Told(w), Heard(ctgtq[1..], committed));
        Tell(w);
        ctgtq := ctgtq[1..];
      }
      PopEnd(ctgtq, committed);
      assert PopCommit(old(State())) == old(State()).(ctgtq := ctgtq, answered := answered) by {
        PoppedCommit(old(State()));
      }
    }

    /** on_flush_complete() from where it holds the flush lock */
    method HandleFlush()
      requires Kept(State()) && CommitAhead(State())
      modifies this
      ensures State() == Fcsm.HandleFlush(old(State()))
      ensures Kept(State()) && CommitAhead(State())
    {
      hide Kept, PopFlush, Continue, Continues;
      ghost var s := State();
      if inflight != [] || commitInProgress || !running {
        assert running || ftgtq == [] by { KeptFacts(s); }
        return;
      }
      assert flushed == flushing by { KeptFacts(s); }
      PopFlushTargets();
      PoppedReady(s);
      GoOn();
      HandleFlushKeeps(s);
    }

    /** Start a commit or a flush, or stop. */
    method GoOn()
      requires Kept(State()) && CommitAhead(State()) && Handles(State())
      requires ftgtq != [] ==> flushed < ftgtq[0].goal
      modifies this
      ensures State() == Continue(old(State()))
    {
      hide Kept, Sync, Contiguous, StartCommit;
      assert flushed == flushing by { KeptFacts(State()); }
      if ctgtq != [] && ctgtq[0].goal <= flushed {
        assert !stable && pending != [] by { CommitHasData(State()); }
        CommitMembufs();
      } else if flushing < Front(ftgtq) || flushing < Front(ctgtq) {
        GoalNeedsDirty(State());
        var n := if stable then |dirty| else Contiguous(dirty);
        assert 0 < n;
        SyncMembufs(n);
      } else if ftgtq == [] && ctgtq == [] {
        running := false;
      } else {
        assert false;
      }
    }

    /** on_commit_complete() from where it holds the flush lock */
    method HandleCommit()
      requires Kept(State()) && Handles(State()) && committed == flushed
      modifies this
      ensures State() == Fcsm.HandleCommit(old(State()))
      ensures Kept(State()) && CommitAhead(State())
    {
      hide Kept, Sync, PopCommit, Contiguous, Met;
      ghost var s := State();
      HandleCommitKeeps(s);
      PopCommitKeeps(s);
      PopCommitTargets();
      if ftgtq != [] || ctgtq != [] {
        assert ctgtq == [] || committed < ctgtq[0].goal;
        SyncMembufs(if stable then |dirty| else Contiguous(dirty));
      } else {
        assert flushing == flushed by { KeptFacts(s); }
        running := false;
      }
    }

    /**
      run(): what follows a write of the application.  It is answered now, or queued to be answered
      when all dirty data has reached the server.
     */
    method Run(w: Waiter, inline: bool, needCommit: bool, needFlush: bool, mdeb: nat, ghost asked: multiset<Waiter>)
      requires Kept(State()) && Accounted(State(), asked) && w.Task?
      modifies this
      ensures State() == AfterWrite(old(State()), w, inline, needCommit, needFlush, mdeb)
      ensures Kept(State()) && Accounted(State(), asked + multiset{w})
      ensures !inline ==> w in answered
    {
      hide Kept, Accounted, Fcsm.EnsureFlush, Fcsm.EnsureCommit, Told;
      assert Told(w) == [w] by { ToldTask(w); }
      if inline {
        if stable {
          EnsureFlushAccounts(State(), w, false, [], asked);
          EnsureFlush(w, false, []);
        } else {
          EnsureCommitAccounts(State(), w, false, mdeb, [], asked);
          EnsureCommit(w, false, mdeb, []);
        }
        return;
      }
      if needCommit && !stable && !commitInProgress {
        EnsureCommitAccounts(State(), Nobody, false, mdeb, [], asked);
        NobodyAsked(asked);
        EnsureCommit(Nobody, false, mdeb, []);
      }
      if needFlush {
        EnsureFlushAccounts(State(), Nobody, false, [], asked);
        NobodyAsked(asked);
        EnsureFlush(Nobody, false, []);
      }
      AppendAccounts(State(), Tgt(0, w, false), asked);
      AnswerKeeps(State(), w);
      Tell(w);
    }
  }
}
