/** What every run of the chain keeps, whatever crashes, client sweeps and skip-node splices
    happen: a PUT that a live node has stored is stored at every live node before it, and an
    acknowledged PUT got there all the way to the end of its forwarding path. */
module ChainContainment {
  import opened Common
  import opened MapObject
  import opened MetadataNodes
  import opened ChainSystem
  import Wire

  // ----- The invariant -----

  ghost predicate Shape(s: Sys, n: nat) {
    |s.nodes| == n && |s.alive| == n && |s.suspect| == n && |s.applied| == n
  }

  /** No node strictly between a and b is up. */
  ghost predicate Gap(s: Sys, a: int, b: int) {
    forall j :: a < j < b ==> !Up(s, j)
  }

  /** Every live node before position k has stored PUT o. */
  ghost predicate StoredBefore(s: Sys, o: nat, k: int) {
    forall j :: 0 <= j < k && j < |s.applied| && Up(s, j) ==> o in s.applied[j]
  }

  /** PUT o reached the end of the chain at `last`. */
  ghost predicate ReachedEnd(s: Sys, o: nat, last: nat) {
    && last < |s.nodes| && last < |s.applied|
    && Terminal(s.nodes[last]) && o in s.applied[last] && StoredBefore(s, o, last)
  }

  ghost predicate LinkOk(s: Sys, i: nat)
    requires i < |s.nodes| && i < |s.suspect|
  {
    var v := s.nodes[i];
    && (v.next != NO_PORT ==> i < v.next < |s.nodes| && Gap(s, i, v.next))
    && (v.next == NO_PORT ==> v.skip == NO_PORT)
    && (v.skip != NO_PORT ==> v.next < v.skip < |s.nodes| && Gap(s, v.next, v.skip))
    && (s.suspect[i] ==> v.next != NO_PORT && !Up(s, v.next))
    && (Terminal(v) <==> v.next == NO_PORT)
  }

  ghost predicate FrameOk(s: Sys, f: nat)
    requires f < |s.frames|
  {
    match s.frames[f]
    case GetFrame(op, node, _) => node < |s.nodes| && op < |s.ops| && s.ops[op].call.GetCall?
    case PutFrame(op, node, _, put) =>
      && node < |s.nodes| && node < |s.applied| && IsPut(s, op)
      && StoredBefore(s, op, node)
      && (!put.Arrived? ==> op in s.applied[node])
      && match put
         case Forwarding(target) => node < target < |s.nodes| && Gap(s, node, target)
         case Waiting(callee) =>
           && callee < |s.frames| && s.frames[callee].PutFrame?
           && s.frames[callee].op == op && node < s.frames[callee].node
         case Acked(last) => node <= last && ReachedEnd(s, op, last)
         case _ => true
  }

  ghost predicate OpOk(s: Sys, o: nat)
    requires o < |s.ops|
  {
    var op := s.ops[o];
    && (op.result.None? && op.waitingFor.Some? ==>
          && op.waitingFor.value < |s.frames|
          && var frame := s.frames[op.waitingFor.value];
             frame.op == o && frame.node == op.pos && (frame.PutFrame? <==> op.call.PutCall?))
    && match op.call
       case GetCall(_) =>
         -1 <= op.pos < |s.nodes| && (op.result.Some? ==> !op.result.value.PutAcked? && !op.result.value.PutFailed?)
       case PutCall(meta) =>
         && Wire.WellFormed(meta)
         && 0 <= op.pos <= |s.nodes|
         && StoredBefore(s, o, op.pos)
         && match op.result
            case Some(PutAcked) => exists last :: ReachedEnd(s, o, last)
            case Some(PutFailed) => op.pos == |s.nodes|
            case Some(_) => false
            case None => true
  }

  /** What node i holds comes from PUTs, and whatever it has stored is stored before it. */
  ghost predicate NodeOk(s: Sys, i: nat)
    requires i < |s.nodes| && i < |s.applied|
  {
    && (forall o :: o in s.applied[i] ==> IsPut(s, o) && StoredBefore(s, o, i))
    && (forall file :: file in s.nodes[i].store ==>
          exists o :: o in s.applied[i] && IsPut(s, o) && s.ops[o].call.meta == s.nodes[i].store[file]
                      && s.ops[o].call.meta.filename == file)
    && (forall o :: o in s.applied[i] && IsPut(s, o) ==> s.ops[o].call.meta.filename in s.nodes[i].store)
  }

  ghost predicate Links(s: Sys) {
    forall i: nat :: i < |s.nodes| && i < |s.suspect| ==> LinkOk(s, i)
  }

  ghost predicate Frames(s: Sys) {
    forall f: nat :: f < |s.frames| ==> FrameOk(s, f)
  }

  ghost predicate Ops(s: Sys) {
    forall o: nat :: o < |s.ops| ==> OpOk(s, o)
  }

  ghost predicate Nodes(s: Sys) {
    forall i: nat :: i < |s.nodes| && i < |s.applied| ==> NodeOk(s, i)
  }

  ghost predicate ChainInv(s: Sys, n: nat) {
    Shape(s, n) && Links(s) && Frames(s) && Ops(s) && Nodes(s)
  }

  // ----- What no step takes back -----

  /** Crashes are final, stored PUTs stay stored, the end of a chain stays an end, and requests
      keep their identity. */
  ghost predicate Grows(s: Sys, t: Sys) {
    && |t.nodes| == |s.nodes| && |t.alive| == |s.alive| && |t.suspect| == |s.suspect| && |t.applied| == |s.applied|
    && (forall j :: Up(t, j) ==> Up(s, j))
    && (forall j :: 0 <= j < |s.applied| ==> s.applied[j] <= t.applied[j])
    && (forall j :: 0 <= j < |s.nodes| && Terminal(s.nodes[j]) ==> Terminal(t.nodes[j]))
    && |s.frames| <= |t.frames| && |s.ops| <= |t.ops|
    && (forall f :: 0 <= f < |s.frames| ==> SameRequest(s.frames[f], t.frames[f]))
    && (forall o :: 0 <= o < |s.ops| ==> s.ops[o].call == t.ops[o].call)
  }

  ghost predicate SameRequest(a: Frame, b: Frame) {
    a.op == b.op && a.node == b.node && a.PutFrame? == b.PutFrame?
    && (a.PutFrame? ==> a.caller == b.caller)
  }

  lemma LinksTerminal(s: Sys, i: nat)
    requires Links(s) && i < |s.nodes| && i < |s.suspect|
    ensures LinkOk(s, i)
  {
  }

  /** The steps of request handlers, and of clients. */
  predicate ByHandler(st: Step) {
    st.Store? || st.Decide? || st.Connect? || st.Return? || st.Lost? || st.CheckRole? || st.Lookup?
  }

  predicate ByClient(st: Step) {
    st.ClientConnect? || st.ClientReply? || st.ClientLost? || st.GiveUp?
  }

  lemma HandlerGrows(s: Sys, st: Step)
    requires Enabled(s, st) && ByHandler(st)
    ensures Grows(s, Next(s, st))
  {
  }

  lemma ClientGrows(s: Sys, st: Step)
    requires Enabled(s, st) && (ByClient(st) || st.InvokePut? || st.InvokeGet?)
    ensures Grows(s, Next(s, st))
  {
  }

  lemma NodeGrows(s: Sys, st: Step)
    requires Enabled(s, st) && (st.Crash? || st.Suspect? || st.HandleFailure? || st.SetSkip? || st.DeliverNotice?)
    requires st.HandleFailure? ==> LinkOk(s, st.i)
    ensures Grows(s, Next(s, st))
  {
    hide Gap;
  }

  lemma StepGrows(s: Sys, n: nat, st: Step)
    requires ChainInv(s, n) && Enabled(s, st)
    ensures Grows(s, Next(s, st))
  {
    hide Links, Frames, Ops, Nodes, Next, Grows;
    if ByHandler(st) {
      HandlerGrows(s, st);
    } else if ByClient(st) || st.InvokePut? || st.InvokeGet? {
      ClientGrows(s, st);
    } else {
      if st.HandleFailure? {
        LinksTerminal(s, st.i);
      }
      NodeGrows(s, st);
    }
  }

  /** Only its own steps change a handler. */
  lemma FrameChanges(s: Sys, st: Step, f: nat)
    requires Enabled(s, st) && f < |s.frames|
    ensures f < |Next(s, st).frames|
    ensures Next(s, st).frames[f] != s.frames[f] ==> ByHandler(st) && st.f == f
  {
  }

  /** Only its own client changes an operation. */
  lemma OpChanges(s: Sys, st: Step, o: nat)
    requires Enabled(s, st) && o < |s.ops|
    ensures o < |Next(s, st).ops|
    ensures Next(s, st).ops[o] != s.ops[o] ==> ByClient(st) && st.op == o
  {
  }

  lemma StoredBeforeGrows(s: Sys, t: Sys, o: nat, k: int)
    requires Grows(s, t) && StoredBefore(s, o, k)
    ensures StoredBefore(t, o, k)
  {
  }

  lemma FrameOkGrows(s: Sys, t: Sys, f: nat)
    requires Grows(s, t) && f < |s.frames| && t.frames[f] == s.frames[f] && FrameOk(s, f)
    ensures FrameOk(t, f)
  {
  }

  lemma OpOkGrows(s: Sys, t: Sys, o: nat)
    requires Grows(s, t) && o < |s.ops| && t.ops[o] == s.ops[o] && OpOk(s, o)
    ensures OpOk(t, o)
  {
    if s.ops[o].result == Some(PutAcked) {
      if s.ops[o].call.PutCall? {
        var last :| ReachedEnd(s, o, last);
        assert ReachedEnd(t, o, last);
      }
    }
  }

  lemma NodeOkGrows(s: Sys, t: Sys, i: nat)
    requires Grows(s, t) && i < |s.nodes| && i < |s.applied| && NodeOk(s, i)
    requires t.applied[i] == s.applied[i] && t.nodes[i].store == s.nodes[i].store
    ensures NodeOk(t, i)
  {
    forall file | file in t.nodes[i].store
      ensures exists o :: o in t.applied[i] && IsPut(t, o) && t.ops[o].call.meta == t.nodes[i].store[file]
                          && t.ops[o].call.meta.filename == file
    {
      var o :| o in s.applied[i] && IsPut(s, o) && s.ops[o].call.meta == s.nodes[i].store[file]
               && s.ops[o].call.meta.filename == file;
      assert IsPut(t, o);
    }
  }

  // ----- One step keeps the invariant -----

  lemma LinkOkGrows(s: Sys, t: Sys, i: nat)
    requires Grows(s, t) && i < |s.nodes| && i < |s.suspect| && LinkOk(s, i)
    requires t.nodes[i].next == s.nodes[i].next && t.nodes[i].skip == s.nodes[i].skip
    requires Terminal(t.nodes[i]) == Terminal(s.nodes[i])
    requires t.suspect[i] ==> s.suspect[i]
    ensures LinkOk(t, i)
  {
  }

  lemma HandleFailureLink(s: Sys, i: nat)
    requires i < |s.nodes| && i < |s.suspect| && LinkOk(s, i) && Enabled(s, HandleFailure(i))
    ensures LinkOk(DoHandleFailure(s, i), i)
  {
    var v, t := s.nodes[i], DoHandleFailure(s, i);
    if v.skip != NO_PORT {
      forall j | i < j < v.skip
        ensures !Up(t, j)
      {
        assert j < v.next || j == v.next || v.next < j;
        assert !Up(s, j);
      }
    }
  }

  lemma LinkStep(s: Sys, st: Step, i: nat)
    requires Enabled(s, st) && Grows(s, Next(s, st)) && i < |s.nodes| && i < |s.suspect| && LinkOk(s, i)
    ensures LinkOk(Next(s, st), i)
  {
    var t := Next(s, st);
    hide LinkOk, Gap;
    if st.HandleFailure? && st.i == i {
      HandleFailureLink(s, i);
    } else if st.SetSkip? && st.i == i {
      SetSkipLink(s, i, st.to);
    } else if st.Suspect? && st.i == i {
      SuspectLink(s, i);
    } else {
      hide Grows;
      LinkOkGrows(s, t, i);
    }
  }

  lemma SetSkipLink(s: Sys, i: nat, to: int)
    requires i < |s.nodes| && i < |s.suspect| && LinkOk(s, i) && Enabled(s, Step.SetSkip(i, to))
    requires Grows(s, Next(s, Step.SetSkip(i, to)))
    ensures LinkOk(Next(s, Step.SetSkip(i, to)), i)
  {
  }

  lemma SuspectLink(s: Sys, i: nat)
    requires i < |s.nodes| && i < |s.suspect| && LinkOk(s, i) && Enabled(s, Suspect(i))
    requires Grows(s, Next(s, Suspect(i)))
    ensures LinkOk(Next(s, Suspect(i)), i)
  {
  }

  lemma StepLinks(s: Sys, n: nat, st: Step)
    requires ChainInv(s, n) && Enabled(s, st)
    ensures Links(Next(s, st))
  {
    StepGrows(s, n, st);
    hide Frames, Ops, Nodes, Enabled, Next, LinkOk;
    forall i: nat | i < |Next(s, st).nodes| && i < |Next(s, st).suspect|
      ensures LinkOk(Next(s, st), i)
    {
      LinkStep(s, st, i);
    }
  }

  lemma StepFrames(s: Sys, n: nat, st: Step)
    requires ChainInv(s, n) && Enabled(s, st)
    ensures Frames(Next(s, st))
  {
    var t := Next(s, st);
    StepGrows(s, n, st);
    forall f: nat | f < |t.frames|
      ensures FrameOk(t, f)
    {
      if f < |s.frames| {
        assert FrameOk(s, f);
        if t.frames[f] == s.frames[f] {
          FrameOkGrows(s, t, f);
        } else {
          ChangedFrame(s, n, st, f);
        }
      } else {
        NewFrame(s, n, st, f);
      }
    }
  }

  lemma NewFrame(s: Sys, n: nat, st: Step, f: nat)
    requires ChainInv(s, n) && Enabled(s, st) && Grows(s, Next(s, st))
    requires |s.frames| <= f < |Next(s, st).frames|
    ensures FrameOk(Next(s, st), f)
  {
    var t := Next(s, st);
    hide Nodes;
    match st {
      case ClientConnect(o) =>
        assert OpOk(s, o);
      case Connect(g) =>
        assert FrameOk(s, g);
        var frame := s.frames[g];
        assert StoredBefore(s, frame.op, frame.put.target);
      case _ =>
    }
  }

  lemma StoreFrame(s: Sys, f: nat)
    requires Enabled(s, Store(f)) && FrameOk(s, f) && Grows(s, Next(s, Store(f)))
    ensures FrameOk(Next(s, Store(f)), f)
  {
    StoredBeforeGrows(s, DoStore(s, f), s.frames[f].op, s.frames[f].node);
    hide StoredBefore, Grows;
  }

  lemma DecideFrame(s: Sys, n: nat, f: nat)
    requires ChainInv(s, n) && Enabled(s, Decide(f)) && FrameOk(s, f) && Grows(s, Next(s, Decide(f)))
    ensures FrameOk(Next(s, Decide(f)), f)
  {
    assert LinkOk(s, s.frames[f].node);
    hide Links, Frames, Ops, Nodes;
  }

  lemma ConnectFrame(s: Sys, f: nat)
    requires Enabled(s, Connect(f)) && FrameOk(s, f) && Grows(s, Next(s, Connect(f)))
    ensures FrameOk(Next(s, Connect(f)), f)
  {
  }

  lemma ReturnFrame(s: Sys, n: nat, f: nat)
    requires ChainInv(s, n) && Enabled(s, Return(f)) && FrameOk(s, f) && Grows(s, Next(s, Return(f)))
    ensures FrameOk(Next(s, Return(f)), f)
  {
    assert FrameOk(s, s.frames[f].put.callee);
    hide Links, Frames, Ops, Nodes;
  }

  lemma OtherFrame(s: Sys, st: Step, f: nat)
    requires Enabled(s, st) && (st.Lost? || st.CheckRole? || st.Lookup?) && st.f == f
    requires FrameOk(s, f) && Grows(s, Next(s, st))
    ensures FrameOk(Next(s, st), f)
  {
  }

  lemma ChangedFrame(s: Sys, n: nat, st: Step, f: nat)
    requires ChainInv(s, n) && Enabled(s, st) && Grows(s, Next(s, st))
    requires f < |s.frames| && FrameOk(s, f) && Next(s, st).frames[f] != s.frames[f]
    ensures FrameOk(Next(s, st), f)
  {
    hide ChainInv, Enabled, Next, Grows, FrameOk;
    FrameChanges(s, st, f);
    match st {
      case Store(_) => StoreFrame(s, f);
      case Decide(_) => DecideFrame(s, n, f);
      case Connect(_) => ConnectFrame(s, f);
      case Return(_) => ReturnFrame(s, n, f);
      case _ => OtherFrame(s, st, f);
    }
  }

  lemma StepOps(s: Sys, n: nat, st: Step)
    requires ChainInv(s, n) && Enabled(s, st)
    ensures Ops(Next(s, st))
  {
    var t := Next(s, st);
    StepGrows(s, n, st);
    forall o: nat | o < |t.ops|
      ensures OpOk(t, o)
    {
      if o < |s.ops| {
        assert OpOk(s, o);
        if t.ops[o] == s.ops[o] {
          OpOkGrows(s, t, o);
        } else {
          ChangedOp(s, n, st, o);
        }
      }
    }
  }

  lemma RepliedOp(s: Sys, n: nat, o: nat)
    requires ChainInv(s, n) && Enabled(s, ClientReply(o)) && OpOk(s, o)
    ensures OpOk(Next(s, ClientReply(o)), o)
  {
    var t, frame := DoClientReply(s, o), s.frames[s.ops[o].waitingFor.value];
    assert FrameOk(s, s.ops[o].waitingFor.value);
    hide Links, Frames, Ops, Nodes;
    if s.ops[o].call.PutCall? {
      assert StoredBefore(t, o, s.ops[o].pos);
      if frame.put.Acked? {
        assert ReachedEnd(t, o, frame.put.last);
      } else {
        assert StoredBefore(t, o, s.ops[o].pos + 1);
      }
    }
  }

  lemma OtherOp(s: Sys, n: nat, st: Step, o: nat)
    requires ChainInv(s, n) && Enabled(s, st) && ByClient(st) && !st.ClientReply? && st.op == o && OpOk(s, o)
    ensures OpOk(Next(s, st), o)
  {
    if st.ClientLost? {
      assert FrameOk(s, s.ops[o].waitingFor.value);
    }
    hide Links, Frames, Ops, Nodes;
    assert s.ops[o].call.PutCall? ==> StoredBefore(Next(s, st), o, s.ops[o].pos);
  }

  lemma ChangedOp(s: Sys, n: nat, st: Step, o: nat)
    requires ChainInv(s, n) && Enabled(s, st) && Grows(s, Next(s, st))
    requires o < |s.ops| && OpOk(s, o) && Next(s, st).ops[o] != s.ops[o]
    ensures OpOk(Next(s, st), o)
  {
    hide ChainInv, Enabled, Next, Grows, OpOk;
    OpChanges(s, st, o);
    if st.ClientReply? {
      RepliedOp(s, n, o);
    } else {
      OtherOp(s, n, st, o);
    }
  }

  /** Only a handler of a PUT at node i changes what the node has stored. */
  lemma OtherStores(s: Sys, st: Step, i: nat)
    requires Enabled(s, st) && i < |s.nodes| && i < |s.applied|
    requires !(st.Store? && s.frames[st.f].node == i)
    ensures i < |Next(s, st).nodes| && i < |Next(s, st).applied|
    ensures Next(s, st).applied[i] == s.applied[i] && Next(s, st).nodes[i].store == s.nodes[i].store
  {
  }

  lemma StepNodes(s: Sys, n: nat, st: Step)
    requires ChainInv(s, n) && Enabled(s, st)
    ensures Nodes(Next(s, st))
  {
    var t := Next(s, st);
    StepGrows(s, n, st);
    hide Links, Frames, Ops, Next, NodeOk;
    forall i: nat | i < |t.nodes| && i < |t.applied|
      ensures NodeOk(t, i)
    {
      if st.Store? && s.frames[st.f].node == i {
        StoreNode(s, n, st.f);
      } else {
        OtherStores(s, st, i);
        NodeOkGrows(s, t, i);
      }
    }
  }

  lemma StoreNode(s: Sys, n: nat, f: nat)
    requires ChainInv(s, n) && Enabled(s, Store(f)) && Grows(s, Next(s, Store(f)))
    ensures NodeOk(Next(s, Store(f)), s.frames[f].node)
  {
    var t := Next(s, Store(f));
    hide Links, Ops;
    var i, p := s.frames[f].node, s.frames[f].op;
    var meta := s.ops[p].call.meta;
    assert FrameOk(s, f) && NodeOk(s, i);
    forall o | o in t.applied[i]
      ensures IsPut(t, o) && StoredBefore(t, o, i)
    {
      if o in s.applied[i] {
        StoredBeforeGrows(s, t, o, i);
      } else {
        StoredBeforeGrows(s, t, p, i);
      }
    }
    forall file | file in t.nodes[i].store
      ensures exists o :: o in t.applied[i] && IsPut(t, o) && t.ops[o].call.meta == t.nodes[i].store[file]
                          && t.ops[o].call.meta.filename == file
    {
      if file == meta.filename {
        assert p in t.applied[i] && IsPut(t, p);
      } else {
        var o :| o in s.applied[i] && IsPut(s, o) && s.ops[o].call.meta == s.nodes[i].store[file]
                 && s.ops[o].call.meta.filename == file;
        assert o in t.applied[i] && IsPut(t, o);
      }
    }
  }

  lemma StepKeepsInv(s: Sys, n: nat, st: Step)
    requires ChainInv(s, n) && Enabled(s, st)
    ensures ChainInv(Next(s, st), n)
    ensures Grows(s, Next(s, st))
  {
    StepGrows(s, n, st);
    StepLinks(s, n, st);
    StepFrames(s, n, st);
    StepOps(s, n, st);
    StepNodes(s, n, st);
  }

  lemma InitialInv(n: nat)
    ensures ChainInv(Initial(n), n)
  {
    var s := Initial(n);
    forall i: nat | i < n
      ensures LinkOk(s, i) && NodeOk(s, i)
    {
      assert s.nodes[i] == Constructed(if i + 1 < n then i + 1 else NO_PORT);
      assert s.applied[i] == {};
    }
  }

  // ----- The theorems, over every run -----

  lemma {:induction false} ReachableInv(n: nat, states: seq<Sys>, steps: seq<Step>, k: nat)
    requires Run(n, states, steps) && k < |states|
    ensures ChainInv(states[k], n)
  {
    if k == 0 {
      InitialInv(n);
    } else {
      ReachableInv(n, states, steps, k - 1);
      StepKeepsInv(states[k - 1], n, steps[k - 1]);
    }
  }

  /** At every moment of every run: a PUT that node i has stored is stored at every live node
      before it, so no live node has a file name that an earlier live node lacks. */
  lemma Containment(n: nat, states: seq<Sys>, steps: seq<Step>, k: nat, j: nat, i: nat)
    requires Run(n, states, steps) && k < |states|
    requires j < i < n && Up(states[k], j)
    ensures ChainInv(states[k], n)
    ensures states[k].applied[i] <= states[k].applied[j]
    ensures states[k].nodes[i].store.Keys <= states[k].nodes[j].store.Keys
  {
    ReachableInv(n, states, steps, k);
    var s := states[k];
    assert NodeOk(s, i) && NodeOk(s, j);
    forall o | o in s.applied[i]
      ensures o in s.applied[j]
    {
      assert StoredBefore(s, o, i);
    }
  }

  /** Once an upload has been acknowledged, its PUT is at every live node up to one that is the
      end of the chain, from then on and whatever happens later. */
  lemma AcknowledgedReachedEnd(n: nat, states: seq<Sys>, steps: seq<Step>, k: nat, o: nat) returns (last: nat)
    requires Run(n, states, steps) && k < |states|
    requires o < |states[k].ops| && states[k].ops[o].result == Some(PutAcked)
    ensures last < n && ChainInv(states[k], n)
    ensures Terminal(states[k].nodes[last]) && states[k].nodes[last].next == NO_PORT
    ensures o in states[k].applied[last]
    ensures forall j :: 0 <= j < last && Up(states[k], j) ==> o in states[k].applied[j]
  {
    ReachableInv(n, states, steps, k);
    var s := states[k];
    assert OpOk(s, o);
    last :| ReachedEnd(s, o, last);
    assert LinkOk(s, last);
  }

  /** An upload fails only after the client has tried every node; by then its PUT is stored at
      every node that is still up. */
  lemma FailedIsStillStored(n: nat, states: seq<Sys>, steps: seq<Step>, k: nat, o: nat, j: nat)
    requires Run(n, states, steps) && k < |states|
    requires o < |states[k].ops| && states[k].ops[o].result == Some(PutFailed)
    requires j < n && Up(states[k], j)
    ensures ChainInv(states[k], n) && o in states[k].applied[j]
  {
    ReachableInv(n, states, steps, k);
    assert OpOk(states[k], o);
  }

  /** The metadata in any table is exactly what some client asked to be put under that name. */
  lemma TablesHoldPuts(n: nat, states: seq<Sys>, steps: seq<Step>, k: nat, i: nat, file: string) returns (o: nat)
    requires Run(n, states, steps) && k < |states|
    requires i < |states[k].nodes| && file in states[k].nodes[i].store
    ensures i < |states[k].applied| && o in states[k].applied[i]
    ensures o < |states[k].ops| && states[k].ops[o].call == PutCall(states[k].nodes[i].store[file])
    ensures states[k].nodes[i].store[file].filename == file
    ensures Wire.WellFormed(states[k].nodes[i].store[file])
  {
    ReachableInv(n, states, steps, k);
    var s := states[k];
    assert NodeOk(s, i);
    o :| o in s.applied[i] && IsPut(s, o) && s.ops[o].call.meta == s.nodes[i].store[file]
         && s.ops[o].call.meta.filename == file;
    assert OpOk(s, o);
  }
}
