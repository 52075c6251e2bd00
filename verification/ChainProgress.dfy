/** Forwarding ends: a node holds up its caller while it waits for the next node, but it only ever
    waits for a node later in the chain, so no handlers wait for each other in a circle, every
    forwarded PUT is answered after a bounded number of steps, and an acknowledgement has come
    back along a path of nodes that have all stored the PUT. */
module ChainProgress {
  import opened Common
  import opened MetadataNodes
  import opened ChainSystem
  import opened ChainContainment

  // ----- What else the handlers keep -----

  /** Handler c was called by handler f and passed its acknowledgement up. */
  ghost predicate RelayedFrom(s: Sys, f: nat, c: nat) {
    && f < |s.frames| && c < |s.frames| && s.frames[f].PutFrame? && s.frames[c].PutFrame?
    && s.frames[c].caller == Some(f) && s.frames[f].put.Acked? && s.frames[c].put == s.frames[f].put
  }

  ghost predicate AnswerOk(s: Sys, f: nat)
    requires f < |s.frames| && s.frames[f].PutFrame?
  {
    match s.frames[f].put
    case Muted => !Up(s, s.frames[f].node)
    case Waiting(callee) => callee < |s.frames| && s.frames[callee].PutFrame? && s.frames[callee].caller == Some(f)
    case Acked(last) => last == s.frames[f].node || exists c: nat :: RelayedFrom(s, f, c)
    case _ => true
  }

  ghost predicate Answers(s: Sys) {
    forall f: nat :: f < |s.frames| && s.frames[f].PutFrame? ==> AnswerOk(s, f)
  }

  /** No step takes an answer back. */
  ghost predicate AnswersStay(s: Sys, t: Sys) {
    |s.frames| <= |t.frames| && forall f: nat :: f < |s.frames| && s.frames[f].PutFrame? && s.frames[f].put.Acked? ==>
      t.frames[f] == s.frames[f]
  }

  lemma StepKeepsAnswers(s: Sys, n: nat, st: Step)
    requires ChainInv(s, n) && Answers(s) && Enabled(s, st)
    ensures Answers(Next(s, st))
  {
    var t := Next(s, st);
    StepGrows(s, n, st);
    hide ChainInv;
    assert AnswersStay(s, t);
    forall f: nat | f < |t.frames| && t.frames[f].PutFrame?
      ensures AnswerOk(t, f)
    {
      if f < |s.frames| {
        assert AnswerOk(s, f);
        AnswerKept(s, t, f);
        if t.frames[f] != s.frames[f] {
          AnswerMade(s, n, st, f);
        }
      }
    }
  }

  lemma AnswerKept(s: Sys, t: Sys, f: nat)
    requires Grows(s, t) && AnswersStay(s, t) && f < |s.frames| && s.frames[f].PutFrame? && AnswerOk(s, f)
    ensures t.frames[f] == s.frames[f] ==> AnswerOk(t, f)
  {
    if t.frames[f] == s.frames[f] && s.frames[f].put.Acked? && s.frames[f].put.last != s.frames[f].node {
      var c: nat :| RelayedFrom(s, f, c);
      assert RelayedFrom(t, f, c);
    }
  }

  lemma AnswerMade(s: Sys, n: nat, st: Step, f: nat)
    requires Enabled(s, st) && Grows(s, Next(s, st)) && f < |s.frames| && f < |Next(s, st).frames|
    requires s.frames[f].PutFrame? && Next(s, st).frames[f].PutFrame? && Next(s, st).frames[f] != s.frames[f]
    requires AnswerOk(s, f)
    ensures AnswerOk(Next(s, st), f)
  {
    var t := Next(s, st);
    hide Grows;
    if st.Return? && f == st.f && t.frames[f].put.Acked? {
      assert RelayedFrom(t, f, s.frames[f].put.callee);
    }
  }

  lemma {:induction false} EveryAnswerIsOk(n: nat, states: seq<Sys>, steps: seq<Step>, k: nat)
    requires Run(n, states, steps) && k < |states|
    ensures ChainInv(states[k], n) && Answers(states[k])
  {
    hide ChainInv, Answers;
    ReachableInv(n, states, steps, k);
    if k == 0 {
      NoAnswers(n);
    } else {
      EveryAnswerIsOk(n, states, steps, k - 1);
      StepKeepsAnswers(states[k - 1], n, steps[k - 1]);
    }
  }

  lemma NoAnswers(n: nat)
    ensures Answers(Initial(n))
  {
  }

  // ----- The path of an acknowledgement -----

  /** A path of handlers, each called by the one before it, at nodes further and further down the
      chain, that have all stored the PUT and all relayed the same acknowledgement; it ends at a
      node that has no next one. */
  ghost predicate AckPath(s: Sys, path: seq<nat>, f: nat) {
    && path != [] && path[0] == f && f < |s.frames| && s.frames[f].PutFrame?
    && (forall i: nat :: i < |path| ==>
          && path[i] < |s.frames| && s.frames[path[i]].PutFrame? && s.frames[path[i]].op == s.frames[f].op
          && s.frames[path[i]].node < |s.applied| && s.frames[f].op in s.applied[s.frames[path[i]].node]
          && s.frames[path[i]].put == s.frames[f].put)
    && (forall i: nat :: i + 1 < |path| ==>
          && s.frames[path[i + 1]].caller == Some(path[i]) && s.frames[path[i]].node < s.frames[path[i + 1]].node)
    && var last := s.frames[path[|path| - 1]].node;
       last < |s.nodes| && Terminal(s.nodes[last]) && s.nodes[last].next == NO_PORT
  }

  /** Callers are handlers of the same PUT at earlier nodes. */
  ghost predicate Called(s: Sys) {
    forall f: nat :: f < |s.frames| && s.frames[f].PutFrame? && s.frames[f].caller.Some? ==>
      var c := s.frames[f].caller.value;
      c < |s.frames| && s.frames[c].PutFrame? && s.frames[c].op == s.frames[f].op && s.frames[c].node < s.frames[f].node
  }

  lemma StepKeepsCalled(s: Sys, n: nat, st: Step)
    requires ChainInv(s, n) && Called(s) && Enabled(s, st)
    ensures Called(Next(s, st))
  {
    var t := Next(s, st);
    StepGrows(s, n, st);
    forall f: nat | f < |t.frames| && t.frames[f].PutFrame? && t.frames[f].caller.Some?
      ensures var c := t.frames[f].caller.value;
        c < |t.frames| && t.frames[c].PutFrame? && t.frames[c].op == t.frames[f].op && t.frames[c].node < t.frames[f].node
    {
      if f < |s.frames| {
        assert SameRequest(s.frames[f], t.frames[f]);
      } else {
        assert st.Connect? && FrameOk(s, st.f);
      }
    }
  }

  lemma {:induction false} EveryCallIsForward(n: nat, states: seq<Sys>, steps: seq<Step>, k: nat)
    requires Run(n, states, steps) && k < |states|
    ensures Called(states[k])
  {
    hide ChainInv, Called;
    if k == 0 {
      NoCalls(n);
    } else {
      EveryCallIsForward(n, states, steps, k - 1);
      ReachableInv(n, states, steps, k - 1);
      StepKeepsCalled(states[k - 1], n, steps[k - 1]);
    }
  }

  lemma NoCalls(n: nat)
    ensures Called(Initial(n))
  {
  }

  /** What the invariant says of an acknowledged handler. */
  lemma AckedFacts(s: Sys, n: nat, f: nat)
    requires ChainInv(s, n) && f < |s.frames| && s.frames[f].PutFrame? && s.frames[f].put.Acked?
    ensures s.frames[f].node < n && |s.nodes| == n && |s.applied| == n && s.frames[f].op in s.applied[s.frames[f].node]
    ensures s.frames[f].put.last < n
    ensures Terminal(s.nodes[s.frames[f].put.last]) && s.nodes[s.frames[f].put.last].next == NO_PORT
  {
    hide Ops, Nodes, Terminal;
    var last := s.frames[f].put.last;
    assert FrameOk(s, f);
    assert LinkOk(s, last);
  }

  lemma PathGrows(s: Sys, f: nat, c: nat, rest: seq<nat>)
    requires RelayedFrom(s, f, c) && Called(s) && AckPath(s, rest, c)
    requires s.frames[f].node < |s.applied| && s.frames[f].op in s.applied[s.frames[f].node]
    ensures AckPath(s, [f] + rest, f)
  {
    hide Terminal;
    var path := [f] + rest;
    assert s.frames[c].op == s.frames[f].op && s.frames[f].node < s.frames[c].node;
    hide Called;
    assert forall i: nat :: 0 < i < |path| ==> path[i] == rest[i - 1];
  }

  lemma {:induction false} PathOf(s: Sys, n: nat, f: nat) returns (path: seq<nat>)
    requires ChainInv(s, n) && Answers(s) && Called(s)
    requires f < |s.frames| && s.frames[f].PutFrame? && s.frames[f].put.Acked?
    ensures AckPath(s, path, f)
    decreases n - s.frames[f].node
  {
    AckedFacts(s, n, f);
    hide ChainInv, Terminal;
    assert AnswerOk(s, f);
    if s.frames[f].put.last == s.frames[f].node {
      path := [f];
    } else {
      var c: nat :| RelayedFrom(s, f, c);
      var rest := PathOf(s, n, c);
      PathGrows(s, f, c, rest);
      path := [f] + rest;
    }
  }

  /** In every run, an acknowledgement at any entry node has come back along such a path. */
  lemma AckedAlongPath(n: nat, states: seq<Sys>, steps: seq<Step>, k: nat, f: nat) returns (path: seq<nat>)
    requires Run(n, states, steps) && k < |states|
    requires f < |states[k].frames| && states[k].frames[f].PutFrame? && states[k].frames[f].put.Acked?
    ensures AckPath(states[k], path, f)
  {
    EveryAnswerIsOk(n, states, steps, k);
    EveryCallIsForward(n, states, steps, k);
    path := PathOf(states[k], n, f);
  }

  // ----- Termination -----

  /** The steps that the handlers of PUTs take on their own. */
  predicate HandlerStep(st: Step) {
    st.Store? || st.Decide? || st.Connect? || st.Return? || st.Lost?
  }

  predicate Finished(put: PutPhase) {
    put.Acked? || put.Failed? || put.Muted?
  }

  /** How many steps a handler and the handlers it will call can still take. */
  function Work(frame: Frame, n: nat): nat {
    if frame.GetFrame? || frame.node >= n then 0
    else
      match frame.put
      case Arrived => 4 * (n - frame.node)
      case Written => 4 * (n - frame.node) - 1
      case Forwarding(_) => 4 * (n - frame.node) - 2
      case Waiting(_) => 1
      case _ => 0
  }

  function TotalWork(frames: seq<Frame>, n: nat): nat {
    if frames == [] then 0 else TotalWork(frames[..|frames| - 1], n) + Work(frames[|frames| - 1], n)
  }

  lemma {:induction false} WorkChanges(frames: seq<Frame>, n: nat, f: nat, frame: Frame)
    requires f < |frames|
    ensures TotalWork(frames[f := frame], n) == TotalWork(frames, n) - Work(frames[f], n) + Work(frame, n)
  {
    hide Work;
    var last := |frames| - 1;
    var changed := frames[f := frame];
    if f == last {
      assert changed[..last] == frames[..last];
    } else {
      WorkChanges(frames[..last], n, f, frame);
      assert changed[..last] == frames[..last][f := frame];
    }
  }

  lemma WorkAdds(frames: seq<Frame>, n: nat, frame: Frame)
    ensures TotalWork(frames + [frame], n) == TotalWork(frames, n) + Work(frame, n)
  {
    hide Work;
    assert (frames + [frame])[..|frames|] == frames;
  }

  /** A handler that calls no other one has less to do after its step. */
  lemma LessWork(s: Sys, n: nat, st: Step)
    requires |s.nodes| == n && Enabled(s, st) && HandlerStep(st)
    requires !(st.Connect? && Up(s, s.frames[st.f].put.target))
    ensures |Next(s, st).frames| == |s.frames| && Next(s, st).frames == s.frames[st.f := Next(s, st).frames[st.f]]
    ensures Work(Next(s, st).frames[st.f], n) < Work(s.frames[st.f], n)
  {
  }

  /** One that calls another one has so much less that there is enough for that one. */
  lemma CallWork(s: Sys, n: nat, f: nat)
    requires |s.nodes| == n && Enabled(s, Connect(f)) && FrameOk(s, f) && Up(s, s.frames[f].put.target)
    ensures var waits := s.frames[f].(put := Waiting(|s.frames|));
            var called := PutFrame(s.frames[f].op, s.frames[f].put.target, Some(f), Arrived);
            && DoConnect(s, f).frames == s.frames[f := waits] + [called]
            && Work(waits, n) + Work(called, n) < Work(s.frames[f], n)
  {
    hide StoredBefore, Gap;
  }

  /** Every step of a handler leaves less to do. */
  lemma HandlerStepWorks(s: Sys, n: nat, st: Step)
    requires ChainInv(s, n) && Enabled(s, st) && HandlerStep(st)
    ensures TotalWork(Next(s, st).frames, n) < TotalWork(s.frames, n)
  {
    var f := st.f;
    assert FrameOk(s, f);
    hide Links, Frames, Ops, Nodes, FrameOk, TotalWork, Work, DoStore, DoDecide, DoConnect, DoReturn;
    if st.Connect? && Up(s, s.frames[f].put.target) {
      var waits := s.frames[f].(put := Waiting(|s.frames|));
      var called := PutFrame(s.frames[f].op, s.frames[f].put.target, Some(f), Arrived);
      CallWork(s, n, f);
      WorkChanges(s.frames, n, f, waits);
      WorkAdds(s.frames[f := waits], n, called);
    } else {
      LessWork(s, n, st);
      WorkChanges(s.frames, n, f, Next(s, st).frames[f]);
    }
  }

  /** A run of handler steps from a given state. */
  ghost predicate HandlersRun(states: seq<Sys>, steps: seq<Step>) {
    && |states| == |steps| + 1
    && forall i: nat :: i < |steps| ==>
         HandlerStep(steps[i]) && Enabled(states[i], steps[i]) && states[i + 1] == Next(states[i], steps[i])
  }

  /** However the handlers are scheduled, they come to an end after at most as many steps as there
      is work in the state they start from. */
  lemma {:induction false} ForwardingIsBounded(n: nat, states: seq<Sys>, steps: seq<Step>, k: nat)
    requires HandlersRun(states, steps) && ChainInv(states[0], n) && k <= |steps|
    ensures ChainInv(states[k], n) && k + TotalWork(states[k].frames, n) <= TotalWork(states[0].frames, n)
  {
    hide ChainInv, TotalWork;
    if k > 0 {
      ForwardingIsBounded(n, states, steps, k - 1);
      HandlerStepWorks(states[k - 1], n, steps[k - 1]);
      StepKeepsInv(states[k - 1], n, steps[k - 1]);
    }
  }

  /** Each handler of the path waits for the next one, which handles the same PUT further down. */
  ghost predicate WaitPath(s: Sys, path: seq<nat>, f: nat) {
    && path != [] && path[0] == f
    && (forall i: nat :: i < |path| ==> path[i] < |s.frames| && s.frames[path[i]].PutFrame?)
    && (forall i: nat :: i + 1 < |path| ==>
          && s.frames[path[i]].put == Waiting(path[i + 1])
          && s.frames[path[i + 1]].op == s.frames[path[i]].op && s.frames[path[i]].node < s.frames[path[i + 1]].node)
  }

  /** What the invariant says of an unfinished handler. */
  lemma UnfinishedFacts(s: Sys, n: nat, f: nat)
    requires ChainInv(s, n) && f < |s.frames| && s.frames[f].PutFrame?
    ensures PutAt(s, f) && s.frames[f].node < n
    ensures s.frames[f].put.Forwarding? ==> IsNode(s, s.frames[f].put.target)
    ensures s.frames[f].put.Waiting? ==> var c := s.frames[f].put.callee;
      && PutAt(s, c) && s.frames[c].op == s.frames[f].op && s.frames[f].node < s.frames[c].node < n
  {
    hide Links, Ops, Nodes, StoredBefore, Gap, ReachedEnd;
    assert FrameOk(s, f);
    if s.frames[f].put.Waiting? {
      assert FrameOk(s, s.frames[f].put.callee);
    }
  }

  /** As long as a PUT handler is not finished, there is a path of handlers from it, each waiting for
      the next one, to one that can take a step: there is no deadlock, with any nodes crashed. */
  lemma {:induction false} HandlerCanStep(s: Sys, n: nat, f: nat) returns (st: Step, path: seq<nat>)
    requires ChainInv(s, n) && Answers(s)
    requires f < |s.frames| && s.frames[f].PutFrame? && !Finished(s.frames[f].put)
    ensures HandlerStep(st) && Enabled(s, st)
    ensures WaitPath(s, path, f) && st.f == path[|path| - 1]
    decreases n - s.frames[f].node
  {
    UnfinishedFacts(s, n, f);
    path := [f];
    hide ChainInv;
    match s.frames[f].put
    case Arrived => st := Store(f);
    case Written => st := Decide(f);
    case Forwarding(target) => st := Connect(f);
    case Waiting(callee) =>
      if !Finished(s.frames[callee].put) {
        var rest;
        st, rest := HandlerCanStep(s, n, callee);
        path := [f] + rest;
        assert forall i: nat :: 0 < i < |path| ==> path[i] == rest[i - 1];
      } else if s.frames[callee].put.Muted? {
        assert AnswerOk(s, callee);
        st := Lost(f);
      } else {
        st := Return(f);
      }
  }

  /** So when no handler can take a step any more, every PUT that reached a node has been answered, or
      its node has crashed. */
  lemma QuietMeansAnswered(n: nat, states: seq<Sys>, steps: seq<Step>, k: nat, f: nat)
    requires Run(n, states, steps) && k < |states|
    requires forall st :: HandlerStep(st) ==> !Enabled(states[k], st)
    requires f < |states[k].frames| && states[k].frames[f].PutFrame?
    ensures states[k].frames[f].put.Acked? || states[k].frames[f].put.Failed? ||
            !Up(states[k], states[k].frames[f].node)
  {
    EveryAnswerIsOk(n, states, steps, k);
    assert AnswerOk(states[k], f);
    hide ChainInv;
    if !Finished(states[k].frames[f].put) {
      var st, path := HandlerCanStep(states[k], n, f);
    }
  }
}
