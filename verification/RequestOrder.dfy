/** Requests go out in the order in which they entered sendChan
    (zk/conn.go:477-572, 752-830, 954-965). */
module RequestOrder {
  import opened Xid
  import opened RequestEngine
  import opened RequestInvariant

  ghost predicate Before(q: seq<nat>, a: nat, b: nat)
  {
    exists i, j :: 0 <= i < j < |q| && q[i] == a && q[j] == b
  }

  /** Past its caller, sendChan and the sender's first hand. */
  predicate Past(s: State, a: nat)
  {
    a in s.reqs && !s.reqs[a].calling && a !in s.queue && s.sender != Holding(a)
  }

  /** Past its caller. */
  predicate Queued(s: State, a: nat)
  {
    a in s.reqs && !s.reqs[a].calling
  }

  /** As long as a is not past the sender's hand, b waits behind it. */
  ghost predicate Behind(s: State, a: nat, b: nat)
  {
    && Queued(s, a) && Queued(s, b)
    && (a in s.queue ==> Before(s.queue, a, b))
    && (s.sender == Holding(a) ==> b in s.queue)
  }

  lemma {:induction false} HandStays(s: State, step: Step)
    requires Enabled(s, step) && !step.Dequeue?
    ensures var s' := Apply(s, step);
            s'.sender == s.sender || !s'.sender.Holding? || s'.sender == Holding(s.draws + 1)
  {
    hide Enabled, Apply, BySender;
    if BySender(step) {
      SenderHandStays(s, step);
    } else {
      OtherHandStays(s, step);
    }
  }

  lemma {:induction false} SenderHandStays(s: State, step: Step)
    requires Enabled(s, step) && BySender(step) && !step.Dequeue?
    ensures var s' := Apply(s, step);
            s'.sender == s.sender || !s'.sender.Holding? || s'.sender == Holding(s.draws + 1)
  {
    hide XidOf, SetRequest, Answer, Inserted;
  }

  lemma {:induction false} OtherHandStays(s: State, step: Step)
    requires Enabled(s, step) && !BySender(step)
    ensures var s' := Apply(s, step);
            s'.sender == s.sender || !s'.sender.Holding? || s'.sender == Holding(s.draws + 1)
  {
    hide XidOf, SetRequest, Answer, Inserted;
  }

  /** The three steps that change the queue. */
  lemma {:induction false} QueueSteps(s: State, step: Step)
    requires Enabled(s, step)
    ensures var s' := Apply(s, step);
            && (step.Enqueue? ==>
                  s'.queue == s.queue + [step.k] && s'.sender == s.sender && step.k in s.reqs && s.reqs[step.k].calling)
            && (step.Dequeue? ==>
                  s.queue != [] && s'.queue == s.queue[1..] && s.sender.Idle? && s'.sender == Holding(s.queue[0]))
            && (step.FlushUnsent? ==>
                  s.queue != [] && s'.queue == s.queue[1..] && s.phase.Connecting? && s'.sender == s.sender)
  {
    hide XidOf, SetRequest, Answer, SendOk, Inserted;
  }

  /** What one step does to the queue and to the sender's first hand. */
  lemma {:induction false} QueueChanges(s: State, step: Step)
    requires Enabled(s, step)
    ensures var s' := Apply(s, step);
            || (s'.queue == s.queue && (s'.sender == s.sender || !s'.sender.Holding? || s'.sender == Holding(s.draws + 1)))
            || (step.Enqueue? && s'.queue == s.queue + [step.k] && s'.sender == s.sender && step.k in s.reqs && s.reqs[step.k].calling)
            || (s.queue != [] && s'.queue == s.queue[1..] && s.sender.Idle? && s'.sender == Holding(s.queue[0]))
            || (s.queue != [] && s'.queue == s.queue[1..] && s.phase.Connecting? && s'.sender == s.sender)
  {
    hide Enabled, Apply;
    if step.Enqueue? || step.Dequeue? || step.FlushUnsent? {
      QueueSteps(s, step);
    } else {
      QueueStays(s, step);
      HandStays(s, step);
    }
  }

  lemma {:induction false} QueuedStays(s: State, step: Step, a: nat)
    requires Enabled(s, step) && Queued(s, a) && a != s.draws + 1
    ensures Queued(Apply(s, step), a)
  {
    hide XidOf, Inserted;
    if step.Insert? {
      InsertKeepsCalling(s, s.sender.k, a);
    }
  }

  lemma {:induction false} InsertKeepsCalling(s: State, k: nat, a: nat)
    requires k in s.reqs && a in s.reqs
    ensures Inserted(s, k).reqs[a].calling == s.reqs[a].calling
  {
    hide XidOf;
  }

  lemma {:induction false} TailBefore(q: seq<nat>, a: nat, b: nat)
    requires NoRepeats(q) && q != [] && (a in q ==> Before(q, a, b))
    ensures a in q[1..] ==> Before(q[1..], a, b)
    ensures q[0] == a ==> b in q[1..] && a !in q[1..]
    ensures q[0] == b ==> a !in q
  {
    if a in q {
      var i, j :| 0 <= i < j < |q| && q[i] == a && q[j] == b;
      assert q[1..][j - 1] == b;
      if i > 0 {
        assert q[1..][i - 1] == a;
      }
    }
  }

  lemma {:induction false} LongerBefore(q: seq<nat>, a: nat, b: nat, k: nat)
    requires Before(q, a, b)
    ensures Before(q + [k], a, b)
  {
    var i, j :| 0 <= i < j < |q| && q[i] == a && q[j] == b;
    assert (q + [k])[i] == a && (q + [k])[j] == b;
  }

  lemma {:induction false} BehindStays(s: State, step: Step, a: nat, b: nat)
    requires Inv(s) && Enabled(s, step) && Behind(s, a, b)
    ensures Behind(Apply(s, step), a, b)
  {
    hide Apply, Enabled, Before, AllSound, HasTwin, XidOf;
    QueueChanges(s, step);
    QueuedStays(s, step, a);
    QueuedStays(s, step, b);
    var s' := Apply(s, step);
    if step.Enqueue? && s'.queue == s.queue + [step.k] {
      assert step.k != a;
      if a in s.queue {
        LongerBefore(s.queue, a, b, step.k);
      }
      assert b in s.queue ==> b in s.queue + [step.k];
    } else if s.queue != [] {
      TailBefore(s.queue, a, b);
    }
  }

  lemma {:induction false} PastStays(s: State, step: Step, a: nat)
    requires Inv(s) && Enabled(s, step) && Past(s, a)
    ensures Past(Apply(s, step), a)
  {
    hide Apply, Enabled, AllSound, Phased, HasTwin, XidOf;
    QueueChanges(s, step);
    QueuedStays(s, step, a);
  }

  lemma {:induction false} QueuedRun(states: seq<State>, steps: seq<Step>, i: nat, j: nat, a: nat)
    requires IsRun(states, steps) && i <= j < |states| && Queued(states[i], a)
    ensures Queued(states[j], a)
  {
    hide Enabled, Apply, Inv, Queued;
    if i < j {
      QueuedRun(states, steps, i, j - 1, a);
      RunInv(states, steps, j - 1);
      QueuedStep(states[j - 1], steps[j - 1], a);
    }
  }

  lemma {:induction false} QueuedStep(s: State, step: Step, a: nat)
    requires Inv(s) && Enabled(s, step) && Queued(s, a)
    ensures Queued(Apply(s, step), a)
  {
    hide Enabled, Apply, AllSound, Phased;
    QueuedStays(s, step, a);
  }

  lemma {:induction false} BehindRun(states: seq<State>, steps: seq<Step>, i: nat, j: nat, a: nat, b: nat)
    requires IsRun(states, steps) && i <= j < |states| && Behind(states[i], a, b)
    ensures Behind(states[j], a, b)
  {
    hide Enabled, Apply, Inv, Behind;
    if i < j {
      BehindRun(states, steps, i, j - 1, a, b);
      RunInv(states, steps, j - 1);
      BehindStays(states[j - 1], steps[j - 1], a, b);
    }
  }

  lemma {:induction false} PastRun(states: seq<State>, steps: seq<Step>, i: nat, j: nat, a: nat)
    requires IsRun(states, steps) && i <= j < |states| && Past(states[i], a)
    ensures Past(states[j], a)
  {
    hide Enabled, Apply, Inv, Past;
    if i < j {
      PastRun(states, steps, i, j - 1, a);
      RunInv(states, steps, j - 1);
      PastStays(states[j - 1], steps[j - 1], a);
    }
  }

  ghost predicate EnqueuedAt(states: seq<State>, steps: seq<Step>, i: nat, a: nat)
  {
    IsRun(states, steps) && i < |steps| && steps[i] == Enqueue(a)
  }

  /** Step i puts request a into the pending map, right before it is written. */
  ghost predicate InsertedAt(states: seq<State>, steps: seq<Step>, i: nat, a: nat)
  {
    IsRun(states, steps) && i < |steps| && steps[i] == Insert && states[i].sender == Holding(a)
  }

  lemma {:induction false} AfterEnqueue(s: State, a: nat, b: nat)
    requires Inv(s) && Enabled(s, Enqueue(b)) && Queued(s, a)
    ensures Behind(Apply(s, Enqueue(b)), a, b)
  {
    hide AllSound, Phased, HasTwin, XidOf;
    var q := s.queue + [b];
    assert q[|s.queue|] == b;
    if a in s.queue {
      var i :| 0 <= i < |s.queue| && s.queue[i] == a;
      assert q[i] == a;
    }
  }

  lemma {:induction false} HeldElsewhere(s: State, a: nat)
    requires Inv(s) && s.sender == Holding(a)
    ensures a in s.reqs && !s.reqs[a].calling && a !in s.queue
  {
    assert Sound(s.reqs[a], WhereIs(s, a), s.conn);
  }

  /** Requests enter the pending map, and so the wire, in the order in which they
      entered sendChan, over every run with any number of reconnects. */
  lemma {:induction false} SentInOrder(states: seq<State>, steps: seq<Step>, i: nat, a: nat, j: nat, b: nat, m: nat, n: nat)
    requires EnqueuedAt(states, steps, i, a) && EnqueuedAt(states, steps, j, b) && i < j
    requires InsertedAt(states, steps, m, a) && InsertedAt(states, steps, n, b)
    ensures a != b && m < n
  {
    hide Inv, Behind, Before;
    RunInv(states, steps, i);
    QueuedRun(states, steps, i + 1, j, a);
    RunInv(states, steps, j);
    AfterEnqueue(states[j], a, b);
    EnqueueFirst(states, steps, j, n, b);
    BehindRun(states, steps, j + 1, n, a, b);
    RunInv(states, steps, n);
    HeldElsewhere(states[n], b);
    BehindMeansPast(states[n], a, b);
    if n <= m {
      PastRun(states, steps, n, m, a);
    }
  }

  /** A request is inserted after it was enqueued. */
  lemma {:induction false} EnqueueFirst(states: seq<State>, steps: seq<Step>, j: nat, n: nat, b: nat)
    requires EnqueuedAt(states, steps, j, b) && InsertedAt(states, steps, n, b)
    ensures j < n
  {
    hide Inv;
    if n <= j {
      RunInv(states, steps, n);
      HeldElsewhere(states[n], b);
      QueuedRun(states, steps, n, j, b);
    }
  }

  lemma {:induction false} BehindMeansPast(s: State, a: nat, b: nat)
    requires Inv(s) && Behind(s, a, b) && s.sender == Holding(b) && b !in s.queue
    ensures Past(s, a) && a != b
  {
    hide Inv;
  }
}
