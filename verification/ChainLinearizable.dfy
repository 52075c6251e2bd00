/** Without crashes the chain, whatever its length, is a linearizable map: every interleaving of
    any number of PUTs and GETs, overlapping on the same file or not, takes effect one operation
    at a time. A PUT takes effect when the tail stores it, a GET when the tail looks it up. */
module ChainLinearizable {
  import opened Common
  import opened MapObject
  import opened MetadataNodes
  import opened ChainSystem
  import opened ChainContainment
  import opened ChainHistory

  // ----- The state of a chain that nothing has happened to -----

  ghost predicate NodeIntact(s: Sys, n: nat, i: nat)
    requires Shape(s, n) && i < n
  {
    && s.alive[i] && !s.suspect[i]
    && s.nodes[i].next == (if i + 1 < n then i + 1 else NO_PORT)
    && (Terminal(s.nodes[i]) <==> i == n - 1)
  }

  ghost predicate Intact(s: Sys, n: nat)
    requires Shape(s, n)
  {
    forall i: nat :: i < n ==> NodeIntact(s, n, i)
  }

  /** Requests that nothing goes wrong with. */
  ghost predicate Smooth(s: Sys, n: nat, f: nat)
    requires f < |s.frames|
  {
    match s.frames[f]
    case PutFrame(_, node, _, put) =>
      && !put.Failed? && !put.Muted?
      && (put.Forwarding? ==> put.target == node + 1)
      && (put.Acked? ==> put.last == n - 1)
    case GetFrame(op, node, get) =>
      && (get.Asked? || get.Serving? ==> Awaits(s, op, f))
      && (node < n - 1 ==> get.Asked? || get.Absent?)
  }

  /** Two handlers of one PUT run at different nodes, and the earlier one has passed it on. */
  ghost predicate Apart(s: Sys, f: nat, g: nat)
    requires f < |s.frames| && g < |s.frames|
  {
    var a, b := s.frames[f], s.frames[g];
    a.PutFrame? && b.PutFrame? && a.op == b.op && f != g ==>
      a.node != b.node && (a.node < b.node ==> a.put.Waiting? || a.put.Acked?)
  }

  ghost predicate AllApart(s: Sys) {
    forall f: nat, g: nat :: f < |s.frames| && g < |s.frames| ==> Apart(s, f, g)
  }

  /** A PUT that a node has stored was stored by a handler there. */
  ghost predicate StoredByHandler(s: Sys, i: nat, o: nat) {
    exists f: nat :: f < |s.frames| && s.frames[f].PutFrame? && s.frames[f].op == o && s.frames[f].node == i
                     && !s.frames[f].put.Arrived?
  }

  ghost predicate OpSmooth(s: Sys, n: nat, o: nat)
    requires o < |s.ops|
  {
    match s.ops[o].call
    case PutCall(_) =>
      && s.ops[o].pos == 0 && s.ops[o].result != Some(PutFailed)
      && (Idle(s, o) ==> forall f :: 0 <= f < |s.frames| ==> s.frames[f].op != o)
    case GetCall(_) => true
  }

  ghost predicate Undisturbed(s: Sys, n: nat) {
    && ChainInv(s, n) && Intact(s, n)
    && (forall f: nat :: f < |s.frames| ==> Smooth(s, n, f))
    && AllApart(s)
    && (forall i: nat, o: nat :: i < n && o in s.applied[i] ==> StoredByHandler(s, i, o))
    && (forall o: nat :: o < |s.ops| ==> OpSmooth(s, n, o))
  }

  // ----- One step -----

  /** The steps that can happen when nothing has crashed. */
  ghost predicate Calm(s: Sys, st: Step) {
    Enabled(s, st) && !st.Crash? && !st.ClientLost? && !st.Lost? && !st.Suspect? && !st.HandleFailure?
  }

  lemma OnlyCalmSteps(s: Sys, n: nat, st: Step)
    requires Undisturbed(s, n) && Enabled(s, st) && !st.Crash?
    ensures Calm(s, st)
  {
    forall i: nat | i < n
      ensures Up(s, i) && !s.suspect[i]
    {
      assert NodeIntact(s, n, i);
    }
    forall i: nat | i < n && s.nodes[i].next != NO_PORT
      ensures Up(s, s.nodes[i].next)
    {
      assert NodeIntact(s, n, i);
    }
    forall f: nat | f < |s.frames|
      ensures Up(s, s.frames[f].node)
    {
      assert FrameOk(s, f);
    }
  }

  lemma StepIntact(s: Sys, n: nat, st: Step)
    requires Undisturbed(s, n) && Calm(s, st)
    ensures ChainInv(Next(s, st), n) && Intact(Next(s, st), n)
  {
    StepKeepsInv(s, n, st);
    var t := Next(s, st);
    forall i: nat | i < n
      ensures NodeIntact(t, n, i)
    {
      assert NodeIntact(s, n, i);
    }
  }

  lemma StepSmooth(s: Sys, n: nat, st: Step, f: nat)
    requires Undisturbed(s, n) && Calm(s, st) && f < |Next(s, st).frames|
    ensures Smooth(Next(s, st), n, f)
  {
    var t := Next(s, st);
    if f < |s.frames| {
      assert Smooth(s, n, f);
      if t.frames[f] == s.frames[f] || s.frames[f].GetFrame? {
        GetSmooth(s, n, st, f);
      } else {
        PutSmooth(s, n, st, f);
      }
    }
  }

  lemma PutSmooth(s: Sys, n: nat, st: Step, f: nat)
    requires Undisturbed(s, n) && Calm(s, st) && f < |s.frames| && s.frames[f].PutFrame?
    requires Next(s, st).frames[f] != s.frames[f]
    ensures Smooth(Next(s, st), n, f)
  {
    assert Smooth(s, n, f) && FrameOk(s, f);
    assert NodeIntact(s, n, s.frames[f].node);
    match st {
      case Return(_) =>
        assert Smooth(s, n, s.frames[f].put.callee);
      case Connect(_) =>
        assert NodeIntact(s, n, s.frames[f].put.target);
      case _ =>
    }
  }

  lemma GetSmooth(s: Sys, n: nat, st: Step, f: nat)
    requires Undisturbed(s, n) && Calm(s, st) && f < |s.frames|
    requires s.frames[f].GetFrame? || Next(s, st).frames[f] == s.frames[f]
    ensures Smooth(Next(s, st), n, f)
  {
    var t := Next(s, st);
    assert Smooth(s, n, f) && FrameOk(s, f);
    assert NodeIntact(s, n, s.frames[f].node);
    if s.frames[f].GetFrame? && Awaits(s, s.frames[f].op, f) && (t.frames[f].get.Asked? || t.frames[f].get.Serving?) {
      assert t.ops[s.frames[f].op] == s.ops[s.frames[f].op];
    }
  }

  lemma OldApart(s: Sys, n: nat, st: Step, f: nat, g: nat)
    requires Calm(s, st) && Grows(s, Next(s, st)) && f < |s.frames| && g < |s.frames| && Apart(s, f, g)
    requires f < |Next(s, st).frames| && g < |Next(s, st).frames|
    requires Smooth(Next(s, st), n, f) && Smooth(Next(s, st), n, g)
    ensures Apart(Next(s, st), f, g)
  {
  }

  /** A new handler is apart from the old ones: at the head it serves a new PUT, further down the
      handler that calls it is the last one so far. */
  lemma NewApart(s: Sys, n: nat, st: Step, f: nat, g: nat)
    requires Calm(s, st) && Grows(s, Next(s, st)) && f < |Next(s, st).frames| && g < |Next(s, st).frames|
    requires f < |s.frames| <= g || g < |s.frames| <= f
    requires st.ClientConnect? ==> OpSmooth(s, n, st.op)
    requires st.Connect? ==> var other := if f < |s.frames| then f else g;
               Smooth(s, n, st.f) && Apart(s, st.f, other) && Apart(s, other, st.f)
    ensures Apart(Next(s, st), f, g)
  {
  }

  lemma StepApart(s: Sys, n: nat, st: Step, f: nat, g: nat)
    requires Undisturbed(s, n) && Calm(s, st)
    requires f < |Next(s, st).frames| && g < |Next(s, st).frames|
    ensures Apart(Next(s, st), f, g)
  {
    StepGrows(s, n, st);
    StepSmooth(s, n, st, f);
    StepSmooth(s, n, st, g);
    var other := if f < |s.frames| then f else g;
    assert st.ClientConnect? ==> OpSmooth(s, n, st.op);
    assert st.Connect? && other < |s.frames| ==>
      Smooth(s, n, st.f) && Apart(s, st.f, other) && Apart(s, other, st.f);
    assert f < |s.frames| && g < |s.frames| ==> Apart(s, f, g);
    AtMostOneNew(s, st);
    hide Undisturbed, Smooth, Apart, OpSmooth, Next, Enabled, Grows;
    if f < |s.frames| && g < |s.frames| {
      OldApart(s, n, st, f, g);
    } else if f < |s.frames| || g < |s.frames| {
      NewApart(s, n, st, f, g);
    } else {
      NotApartFromItself(Next(s, st), f, g);
    }
  }

  lemma AtMostOneNew(s: Sys, st: Step)
    requires Enabled(s, st)
    ensures |s.frames| <= |Next(s, st).frames| <= |s.frames| + 1
  {
  }

  lemma NotApartFromItself(s: Sys, f: nat, g: nat)
    requires f == g < |s.frames|
    ensures Apart(s, f, g)
  {
  }

  lemma StepStoredByHandler(s: Sys, n: nat, st: Step, i: nat, o: nat)
    requires Undisturbed(s, n) && Calm(s, st)
    requires i < n && i < |Next(s, st).applied| && o in Next(s, st).applied[i]
    ensures StoredByHandler(Next(s, st), i, o)
  {
    var t := Next(s, st);
    StepGrows(s, n, st);
    if o in s.applied[i] {
      var f: nat :| f < |s.frames| && s.frames[f].PutFrame? && s.frames[f].op == o && s.frames[f].node == i
                    && !s.frames[f].put.Arrived?;
      assert SameRequest(s.frames[f], t.frames[f]);
      assert !t.frames[f].put.Arrived?;
    } else {
      assert t.frames[st.f].op == o && t.frames[st.f].node == i && !t.frames[st.f].put.Arrived?;
    }
  }

  /** A new handler serves an operation that has just connected, or a PUT that another handler serves. */
  lemma NewFrameOp(s: Sys, st: Step, f: nat)
    requires Enabled(s, st) && |s.frames| <= f < |Next(s, st).frames|
    ensures (st.ClientConnect? && Next(s, st).frames[f].op == st.op && Next(s, st).ops[st.op].waitingFor.Some?) ||
            (st.Connect? && Next(s, st).frames[f].op == s.frames[st.f].op)
  {
  }

  /** An idle PUT that no handler serves is still served by none, or no longer idle. */
  lemma StillUnserved(s: Sys, st: Step, o: nat)
    requires Enabled(s, st) && Grows(s, Next(s, st)) && o < |s.ops| && Next(s, st).ops[o] == s.ops[o]
    requires forall f :: 0 <= f < |s.frames| ==> s.frames[f].op != o
    ensures Idle(Next(s, st), o) ==> forall f :: 0 <= f < |Next(s, st).frames| ==> Next(s, st).frames[f].op != o
  {
    var t := Next(s, st);
    if Idle(t, o) {
      forall f: nat | f < |t.frames|
        ensures t.frames[f].op != o
      {
        if f >= |s.frames| {
          NewFrameOp(s, st, f);
          hide Next;
        } else {
          hide Next, Enabled;
          assert SameRequest(s.frames[f], t.frames[f]);
        }
      }
    }
  }

  /** A PUT whose client moves connects to the head or is acknowledged. */
  lemma MovedPut(s: Sys, n: nat, st: Step, o: nat)
    requires n > 0 && |s.nodes| == n && Calm(s, st) && ByClient(st) && st.op == o && IsPut(s, o) && OpSmooth(s, n, o)
    requires Up(s, 0)
    requires st.ClientReply? ==> Smooth(s, n, s.ops[o].waitingFor.value)
    ensures OpSmooth(Next(s, st), n, o)
  {
  }

  lemma NewOpSmooth(s: Sys, n: nat, st: Step, o: nat)
    requires ChainInv(s, n) && Enabled(s, st) && |s.ops| <= o < |Next(s, st).ops|
    ensures OpSmooth(Next(s, st), n, o)
  {
    hide Links, Ops, Nodes, StoredBefore, ReachedEnd, Gap;
    forall f: nat | f < |s.frames|
      ensures s.frames[f].op != o
    {
      assert FrameOk(s, f);
    }
  }

  lemma StepOpSmooth(s: Sys, n: nat, st: Step, o: nat)
    requires n > 0 && Undisturbed(s, n) && Calm(s, st) && o < |Next(s, st).ops|
    ensures OpSmooth(Next(s, st), n, o)
  {
    StepGrows(s, n, st);
    if o >= |s.ops| {
      hide AllApart, OpSmooth, Intact, Smooth, ChainInv;
      NewOpSmooth(s, n, st, o);
    } else if s.ops[o].call.PutCall? {
      assert OpSmooth(s, n, o) && NodeIntact(s, n, 0);
      OpChanges(s, st, o);
      if Next(s, st).ops[o] == s.ops[o] {
        hide Undisturbed, Next, Enabled;
        if Idle(s, o) {
          StillUnserved(s, st, o);
        }
      } else {
        if st.ClientReply? {
          assert Smooth(s, n, s.ops[o].waitingFor.value);
        }
        hide Undisturbed, Next, OpSmooth, Smooth;
        MovedPut(s, n, st, o);
      }
    } else {
      hide Undisturbed, Next, Enabled;
    }
  }

  lemma StepUndisturbed(s: Sys, n: nat, st: Step)
    requires n > 0 && Undisturbed(s, n) && Calm(s, st)
    ensures Undisturbed(Next(s, st), n)
  {
    var t := Next(s, st);
    StepIntact(s, n, st);
    forall f: nat | f < |t.frames|
      ensures Smooth(t, n, f)
    {
      StepSmooth(s, n, st, f);
    }
    forall f: nat, g: nat | f < |t.frames| && g < |t.frames|
      ensures Apart(t, f, g)
    {
      StepApart(s, n, st, f, g);
    }
    forall i: nat, o: nat | i < n && o in t.applied[i]
      ensures StoredByHandler(t, i, o)
    {
      StepStoredByHandler(s, n, st, i, o);
    }
    forall o: nat | o < |t.ops|
      ensures OpSmooth(t, n, o)
    {
      StepOpSmooth(s, n, st, o);
    }
  }

  // ----- The order in which operations take effect -----

  /** The tail has answered the lookup of GET o. */
  ghost predicate LookedUp(s: Sys, n: nat, o: nat)
    requires o < |s.ops|
  {
    var op := s.ops[o];
    || op.pos < n - 1 || op.result.Some?
    || (op.waitingFor.Some? && op.waitingFor.value < |s.frames|
        && var frame := s.frames[op.waitingFor.value]; frame.GetFrame? && (frame.get.Found? || frame.get.Absent?))
  }

  ghost predicate TakenEffect(s: Sys, n: nat, o: nat)
    requires o < |s.ops| && n > 0 && n <= |s.applied|
  {
    match s.ops[o].call
    case PutCall(_) => o in s.applied[n - 1]
    case GetCall(_) => LookedUp(s, n, o)
  }

  /** What the client of GET o has seen, or will see, is `answer`. */
  ghost predicate Sees(s: Sys, n: nat, o: nat, answer: Outcome)
    requires o < |s.ops|
  {
    var op := s.ops[o];
    && (op.result.Some? ==> op.result.value == answer)
    && (op.result.None? && op.pos < n - 1 ==> answer == GetMissing)
    && (op.result.None? && op.pos == n - 1 && op.waitingFor.Some? && op.waitingFor.value < |s.frames| ==>
          match s.frames[op.waitingFor.value]
          case GetFrame(_, _, Found(meta)) => answer == GetFound(meta)
          case GetFrame(_, _, Absent) => answer == GetMissing
          case _ => true)
  }

  ghost predicate OrderAgrees(s: Sys, n: nat, order: seq<Entry>)
    requires Undisturbed(s, n) && n > 0
  {
    && OrderOk(s, order)
    && Replay(order) == s.nodes[n - 1].store
    && (forall o: nat :: o < |s.ops| ==> (Has(order, o) <==> TakenEffect(s, n, o)))
    && (forall k :: 0 <= k < |order| && order[k].call.GetCall? ==>
          order[k].op < |s.ops| && Sees(s, n, order[k].op, AnswerAt(order, k)))
  }

  ghost predicate Explained(s: Sys, n: nat, h: seq<Event>, order: seq<Entry>) {
    && n > 0 && Undisturbed(s, n) && HistoryOk(s, h)
    && OrderAgrees(s, n, order) && Linearizes(h, order, true)
  }

  /** The operation that takes effect in a step, if any. */
  ghost function Effective(s: Sys, n: nat, st: Step): (r: seq<Entry>)
    requires Enabled(s, st)
    ensures |r| <= 1
  {
    match st
    case Store(f) =>
      if s.frames[f].node == n - 1 then [Entry(s.frames[f].op, s.ops[s.frames[f].op].call)] else []
    case Lookup(f) =>
      if s.frames[f].node == n - 1 then [Entry(s.frames[f].op, s.ops[s.frames[f].op].call)] else []
    case _ => []
  }

  lemma ArrivedNotStored(s: Sys, n: nat, f: nat)
    requires Undisturbed(s, n) && Enabled(s, Store(f))
    ensures s.frames[f].op !in s.applied[s.frames[f].node]
  {
    forall g: nat | g < |s.frames| && s.frames[g].PutFrame? && s.frames[g].op == s.frames[f].op
                    && s.frames[g].node == s.frames[f].node
      ensures s.frames[g].put.Arrived?
    {
      assert Apart(s, f, g);
    }
    assert !StoredByHandler(s, s.frames[f].node, s.frames[f].op);
  }

  lemma AckedAtTail(s: Sys, n: nat, o: nat)
    requires n > 0 && Undisturbed(s, n) && IsPut(s, o) && s.ops[o].result.Some?
    ensures s.ops[o].result == Some(PutAcked) && o in s.applied[n - 1]
  {
    assert OpOk(s, o) && OpSmooth(s, n, o);
    var last :| ReachedEnd(s, o, last);
    assert NodeIntact(s, n, last);
  }

  /** An operation takes effect only once. */
  lemma EffectiveIsNew(s: Sys, n: nat, st: Step, e: Entry)
    requires n > 0 && Undisturbed(s, n) && Enabled(s, st) && Effective(s, n, st) == [e]
    ensures !TakenEffect(s, n, e.op) && s.ops[e.op].result.None?
  {
    match st {
      case Store(f) =>
        ArrivedNotStored(s, n, f);
        if s.ops[e.op].result.Some? {
          AckedAtTail(s, n, e.op);
        }
      case Lookup(f) =>
        assert Smooth(s, n, f) && OpOk(s, s.frames[f].op);
    }
  }

  /** The operation that takes effect in a step is o. */
  ghost predicate Takes(s: Sys, n: nat, st: Step, o: nat)
    requires Enabled(s, st)
  {
    |Effective(s, n, st)| == 1 && Effective(s, n, st)[0].op == o
  }

  lemma PutTakenStep(s: Sys, n: nat, st: Step, o: nat)
    requires n > 0 && Undisturbed(s, n) && Calm(s, st) && Grows(s, Next(s, st))
    requires IsPut(s, o)
    ensures TakenEffect(Next(s, st), n, o) <==> TakenEffect(s, n, o) || Takes(s, n, st, o)
  {
  }

  lemma LookedUpStep(s: Sys, n: nat, st: Step, o: nat)
    requires n > 0 && Undisturbed(s, n) && Calm(s, st) && Grows(s, Next(s, st))
    requires o < |s.ops| && s.ops[o].call.GetCall? && LookedUp(s, n, o)
    ensures LookedUp(Next(s, st), n, o)
  {
    assert OpOk(s, o);
    if st.ClientReply? {
      assert FrameOk(s, s.ops[st.op].waitingFor.value) && Smooth(s, n, s.ops[st.op].waitingFor.value);
    }
  }

  /** Only the tail's own lookup looks a GET up. */
  lemma ServerStep(s: Sys, n: nat, st: Step, o: nat)
    requires n > 0 && Shape(s, n) && Calm(s, st) && (st.Lookup? || st.CheckRole?)
    requires o < |s.ops| && s.ops[o].call.GetCall? && OpOk(s, o) && !LookedUp(s, n, o)
    requires Smooth(s, n, st.f) && OpOk(s, s.frames[st.f].op) && NodeIntact(s, n, s.frames[st.f].node)
    ensures o < |Next(s, st).ops| && (LookedUp(Next(s, st), n, o) <==> Takes(s, n, st, o))
  {
  }

  lemma OtherStep(s: Sys, n: nat, st: Step, o: nat)
    requires n > 0 && Shape(s, n) && Calm(s, st) && !st.Lookup? && !st.CheckRole?
    requires o < |s.ops| && s.ops[o].call.GetCall? && OpOk(s, o) && !LookedUp(s, n, o)
    requires st.ClientConnect? && 0 <= s.ops[st.op].pos < n ==> NodeIntact(s, n, s.ops[st.op].pos)
    requires st.ClientReply? ==> Smooth(s, n, s.ops[st.op].waitingFor.value)
    ensures o < |Next(s, st).ops| && (LookedUp(Next(s, st), n, o) <==> Takes(s, n, st, o))
  {
  }

  lemma NotLookedUpStep(s: Sys, n: nat, st: Step, o: nat)
    requires n > 0 && Undisturbed(s, n) && Calm(s, st) && Grows(s, Next(s, st))
    requires o < |s.ops| && s.ops[o].call.GetCall? && !LookedUp(s, n, o)
    ensures LookedUp(Next(s, st), n, o) <==> Takes(s, n, st, o)
  {
    assert OpOk(s, o);
    if st.Lookup? || st.CheckRole? {
      assert Smooth(s, n, st.f) && OpOk(s, s.frames[st.f].op) && NodeIntact(s, n, s.frames[st.f].node);
      ServerStep(s, n, st, o);
    } else {
      if st.ClientConnect? && 0 <= s.ops[st.op].pos < n {
        assert NodeIntact(s, n, s.ops[st.op].pos);
      } else if st.ClientReply? {
        assert Smooth(s, n, s.ops[st.op].waitingFor.value);
      }
      hide Undisturbed, OpOk, Smooth, NodeIntact, LookedUp, Takes, Next, Grows;
      OtherStep(s, n, st, o);
    }
  }

  lemma TakenEffectStep(s: Sys, n: nat, st: Step, o: nat)
    requires n > 0 && Undisturbed(s, n) && Calm(s, st) && Grows(s, Next(s, st))
    requires o < |s.ops|
    ensures TakenEffect(Next(s, st), n, o) <==> TakenEffect(s, n, o) || Takes(s, n, st, o)
  {
    if s.ops[o].call.PutCall? {
      PutTakenStep(s, n, st, o);
    } else if LookedUp(s, n, o) {
      LookedUpStep(s, n, st, o);
    } else {
      NotLookedUpStep(s, n, st, o);
    }
  }

  lemma SeesReply(s: Sys, n: nat, p: nat, o: nat, answer: Outcome)
    requires n == |s.nodes| && Enabled(s, ClientReply(p)) && o < |s.ops| && s.ops[o].call.GetCall?
    requires OpOk(s, o) && OpOk(s, p) && Smooth(s, n, s.ops[p].waitingFor.value)
    requires LookedUp(s, n, o) && Sees(s, n, o, answer)
    ensures Sees(Next(s, ClientReply(p)), n, o, answer)
  {
    hide StoredBefore, ReachedEnd;
  }

  /** Once the tail has looked a GET up, its handler there does nothing more. */
  lemma SeesServed(s: Sys, n: nat, st: Step, o: nat, answer: Outcome)
    requires n == |s.nodes| && Enabled(s, st) && (st.Lookup? || st.CheckRole?) && o < |s.ops| && s.ops[o].call.GetCall?
    requires OpOk(s, o) && Smooth(s, n, st.f)
    requires LookedUp(s, n, o) && Sees(s, n, o, answer)
    ensures Sees(Next(s, st), n, o, answer)
  {
    hide StoredBefore, ReachedEnd;
  }

  lemma SeesOther(s: Sys, n: nat, st: Step, o: nat, answer: Outcome)
    requires n == |s.nodes| && Calm(s, st) && !st.ClientReply? && !st.Lookup? && !st.CheckRole?
    requires o < |s.ops| && s.ops[o].call.GetCall? && OpOk(s, o)
    requires st.ClientConnect? && IsNode(s, s.ops[st.op].pos) ==> Up(s, s.ops[st.op].pos)
    requires LookedUp(s, n, o) && Sees(s, n, o, answer)
    ensures o < |Next(s, st).ops| && Sees(Next(s, st), n, o, answer)
  {
    hide StoredBefore, ReachedEnd;
  }

  lemma SeesStep(s: Sys, n: nat, st: Step, o: nat, answer: Outcome)
    requires n > 0 && Undisturbed(s, n) && Calm(s, st) && Undisturbed(Next(s, st), n)
    requires o < |s.ops| && s.ops[o].call.GetCall? && TakenEffect(s, n, o) && Sees(s, n, o, answer)
    ensures o < |Next(s, st).ops| && Sees(Next(s, st), n, o, answer)
  {
    StepGrows(s, n, st);
    assert OpOk(s, o);
    if st.ClientReply? {
      assert OpOk(s, st.op) && Smooth(s, n, s.ops[st.op].waitingFor.value);
      hide Undisturbed, OpOk, Smooth, Next, Sees, LookedUp;
      SeesReply(s, n, st.op, o, answer);
    } else if st.Lookup? || st.CheckRole? {
      assert Smooth(s, n, st.f);
      hide Undisturbed, OpOk, Smooth, Next, Sees, LookedUp;
      SeesServed(s, n, st, o, answer);
    } else {
      if st.ClientConnect? && IsNode(s, s.ops[st.op].pos) {
        assert NodeIntact(s, n, s.ops[st.op].pos);
      }
      hide Undisturbed, OpOk, Next, Sees, LookedUp;
      SeesOther(s, n, st, o, answer);
    }
  }

  /** The tail's table changes only by the operation that takes effect. */
  lemma TailStoreStep(s: Sys, n: nat, st: Step)
    requires n > 0 && Undisturbed(s, n) && Calm(s, st)
    ensures n == |Next(s, st).nodes|
    ensures Next(s, st).nodes[n - 1].store ==
            if |Effective(s, n, st)| == 1 then Effect(s.nodes[n - 1].store, Effective(s, n, st)[0].call)
            else s.nodes[n - 1].store
  {
    StepGrows(s, n, st);
  }

  lemma StepOrder(s: Sys, n: nat, st: Step, h: seq<Event>, order: seq<Entry>)
    requires Explained(s, n, h, order) && Calm(s, st) && Undisturbed(Next(s, st), n)
    ensures OrderAgrees(Next(s, st), n, order + Effective(s, n, st))
  {
    var t := Next(s, st);
    var more := Effective(s, n, st);
    var order2 := order + more;
    StepGrows(s, n, st);
    TailStoreStep(s, n, st);
    if |more| == 1 {
      assert more == [more[0]];
      AppendAnswers(order, more[0]);
    } else {
      assert order2 == order;
    }
    forall o: nat | o < |t.ops|
      ensures Has(order2, o) <==> TakenEffect(t, n, o)
    {
      HasAppended(order, more, o);
      if o < |s.ops| {
        TakenEffectStep(s, n, st, o);
      } else {
        NewOpNotTaken(s, n, st, order, o);
      }
    }
    forall k | 0 <= k < |order2| && order2[k].call.GetCall?
      ensures order2[k].op < |t.ops| && Sees(t, n, order2[k].op, AnswerAt(order2, k))
    {
      if k < |order| {
        var o := order[k].op;
        assert Has(order, o);
        SeesStep(s, n, st, o, AnswerAt(order, k));
      } else {
        LookupSees(s, n, st);
      }
    }
  }

  lemma HasAppended(order: seq<Entry>, more: seq<Entry>, o: nat)
    requires |more| <= 1
    ensures Has(order + more, o) <==> Has(order, o) || (|more| == 1 && more[0].op == o)
  {
    var order2 := order + more;
    if Has(order, o) {
      var k :| 0 <= k < |order| && order[k].op == o;
      assert order2[k].op == o;
    }
    if |more| == 1 && more[0].op == o {
      assert order2[|order|].op == o;
    }
  }

  lemma NewOpNotTaken(s: Sys, n: nat, st: Step, order: seq<Entry>, o: nat)
    requires n > 0 && Undisturbed(s, n) && Enabled(s, st) && OrderAgrees(s, n, order) && Undisturbed(Next(s, st), n)
    requires |s.ops| <= o < |Next(s, st).ops|
    ensures !TakenEffect(Next(s, st), n, o) && !Has(order, o) && Effective(s, n, st) == []
  {
    var t := Next(s, st);
    assert t.applied == s.applied;
    assert NodeOk(s, n - 1);
  }

  lemma LookupSees(s: Sys, n: nat, st: Step)
    requires n > 0 && Undisturbed(s, n) && Enabled(s, st) && Undisturbed(Next(s, st), n)
    requires |Effective(s, n, st)| == 1 && Effective(s, n, st)[0].call.GetCall?
    ensures var e := Effective(s, n, st)[0];
            e.op < |Next(s, st).ops| && Sees(Next(s, st), n, e.op, Answer(s.nodes[n - 1].store, e.call))
  {
    var f := st.f;
    assert Smooth(s, n, f) && OpOk(s, s.frames[f].op);
  }

  /** A client's result is what the map answered at the operation's place. */
  lemma ReturnAgrees(s: Sys, n: nat, st: Step, h: seq<Event>, order: seq<Entry>, o: nat, r: Outcome)
    requires Explained(s, n, h, order) && Calm(s, st)
    requires Observed(s, st) == [Ret(o, r)]
    ensures exists k :: 0 <= k < |order| && order[k].op == o && AnswerAt(order, k) == r
  {
    assert OpOk(s, o) && OpSmooth(s, n, o);
    if st.ClientReply? {
      var f := s.ops[o].waitingFor.value;
      assert FrameOk(s, f) && Smooth(s, n, f);
    }
    assert TakenEffect(s, n, o);
    assert Has(order, o);
    var k :| 0 <= k < |order| && order[k].op == o;
    assert order[k].call == s.ops[o].call;
    if s.ops[o].call.GetCall? {
      assert Sees(s, n, o, AnswerAt(order, k));
    }
  }

  lemma StepExplained(s: Sys, n: nat, st: Step, h: seq<Event>, order: seq<Entry>)
    requires Explained(s, n, h, order) && Calm(s, st)
    ensures Explained(Next(s, st), n, h + Observed(s, st), order + Effective(s, n, st))
  {
    StepUndisturbed(s, n, st);
    StepHistory(s, st, h);
    StepOrder(s, n, st, h, order);
    var more := Effective(s, n, st);
    if |more| == 1 {
      assert more == [more[0]];
      EffectiveIsNew(s, n, st, more[0]);
      AppendEntry(h, order, true, more[0]);
      assert h + Observed(s, st) == h;
    } else {
      assert order + more == order;
      forall o: nat, r: Outcome | Observed(s, st) == [Ret(o, r)] && Definite(true, r)
        ensures exists k :: 0 <= k < |order| && order[k].op == o && AnswerAt(order, k) == r
      {
        ReturnAgrees(s, n, st, h, order, o, r);
      }
      ObserveKeepsOrder(s, st, h, order, true);
    }
  }

  lemma InitialExplained(n: nat)
    requires n > 0
    ensures Explained(Initial(n), n, [], [])
  {
    InitialInv(n);
    var s := Initial(n);
    forall i: nat | i < n
      ensures NodeIntact(s, n, i) && s.applied[i] == {}
    {
      assert s.nodes[i] == Constructed(if i + 1 < n then i + 1 else NO_PORT);
    }
    assert s.nodes[n - 1] == Constructed(NO_PORT) && s.applied[n - 1] == {};
  }

  lemma {:induction false} ReachableExplained(n: nat, states: seq<Sys>, steps: seq<Step>, k: nat)
      returns (order: seq<Entry>)
    requires n > 0 && Run(n, states, steps) && k <= |steps|
    requires forall i :: 0 <= i < |steps| ==> !steps[i].Crash?
    ensures Explained(states[k], n, History(states, steps, k), order)
  {
    if k == 0 {
      order := [];
      InitialExplained(n);
    } else {
      var before := ReachableExplained(n, states, steps, k - 1);
      order := before + Effective(states[k - 1], n, steps[k - 1]);
      OnlyCalmSteps(states[k - 1], n, steps[k - 1]);
      StepExplained(states[k - 1], n, steps[k - 1], History(states, steps, k - 1), before);
    }
  }

  /** Every crash-free run is linearizable, with every outcome counted: every completed PUT is an
      acknowledged one, and a GET finds nothing only if nothing was there. */
  lemma CrashFreeRunsLinearizable(n: nat, states: seq<Sys>, steps: seq<Step>)
    requires n > 0 && Run(n, states, steps)
    requires forall i :: 0 <= i < |steps| ==> !steps[i].Crash?
    ensures Linearizable(History(states, steps, |steps|), true)
  {
    var order := ReachableExplained(n, states, steps, |steps|);
  }
}
