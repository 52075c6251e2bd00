/** Crashes at the end of the chain. When only the last live node ever crashes, any number of
    times in turn, and uploads of one file name do not overlap, the chain is still a
    linearizable map as far as clients can tell: what an acknowledged PUT and a successful GET
    report is consistent with one sequential order, across every fail-over. */
module ChainTailCrash {
  import opened Common
  import opened MapObject
  import opened MetadataNodes
  import opened ChainSystem
  import opened ChainContainment

  // ----- The assumptions, as guards on steps -----

  /** Only the last live node crashes. */
  ghost predicate CrashesAtEnd(s: Sys, st: Step) {
    st.Crash? ==> forall j :: st.i < j ==> !Up(s, j)
  }

  /** An upload starts only when every earlier upload of that file name has returned. */
  ghost predicate OneUploadAtATime(s: Sys, st: Step) {
    st.InvokePut? ==> forall o: nat :: IsPut(s, o) && FileOf(s, o) == st.meta.filename ==> s.ops[o].result.Some?
  }

  ghost predicate Admissible(s: Sys, st: Step) {
    Enabled(s, st) && CrashesAtEnd(s, st) && OneUploadAtATime(s, st)
  }

  function FileOf(s: Sys, o: nat): string
    requires IsPut(s, o)
  {
    s.ops[o].call.meta.filename
  }

  // ----- The state of such a chain -----

  predicate Unreplied(put: PutPhase) {
    put.Arrived? || put.Written? || put.Forwarding? || put.Waiting?
  }

  ghost predicate LastUp(s: Sys, i: nat) {
    Up(s, i) && forall j :: i < j ==> !Up(s, j)
  }

  /** The live nodes are the first ones, and a terminal node has no live node after it. */
  ghost predicate EndOk(s: Sys, i: nat)
    requires i < |s.nodes|
  {
    && (Up(s, i) ==> forall j :: 0 <= j < i ==> Up(s, j))
    && (Terminal(s.nodes[i]) ==> forall j :: i < j ==> !Up(s, j))
  }

  /** Whoever sent a request to a live node still waits for the reply. */
  ghost predicate Awaited(s: Sys, f: nat)
    requires f < |s.frames|
  {
    Up(s, s.frames[f].node) ==>
      match s.frames[f]
      case PutFrame(op, node, None, put) => Unreplied(put) ==> Awaits(s, op, f)
      case PutFrame(op, node, Some(g), put) =>
        Unreplied(put) ==>
          g < f && s.frames[g].PutFrame? && s.frames[g].op == op && s.frames[g].node < node
          && s.frames[g].put == Waiting(f)
      case GetFrame(op, node, get) =>
        && (get.Asked? || get.Serving? ==> Awaits(s, op, f))
        && (get.Serving? ==> node < |s.nodes| && Terminal(s.nodes[node]))
  }

  /** Of two uploads of a file name, the earlier one has returned. */
  ghost predicate Serial(s: Sys) {
    forall o: nat, p: nat :: o < p && IsPut(s, o) && IsPut(s, p) && FileOf(s, o) == FileOf(s, p) ==> s.ops[o].result.Some?
  }

  /** PUT o is the latest one for its file among those in the set. */
  ghost predicate LatestIn(s: Sys, o: nat, puts: set<nat>) {
    IsPut(s, o) && o in puts &&
    forall p :: p in puts && IsPut(s, p) && FileOf(s, p) == FileOf(s, o) ==> p <= o
  }

  /** A live node's table holds, for each file, the latest PUT that the node has stored. */
  ghost predicate HoldsLatest(s: Sys, i: nat)
    requires i < |s.nodes| && i < |s.applied|
  {
    Up(s, i) ==>
      forall o: nat :: LatestIn(s, o, s.applied[i]) ==>
        FileOf(s, o) in s.nodes[i].store && s.nodes[i].store[FileOf(s, o)] == s.ops[o].call.meta
  }

  ghost predicate Orderly(s: Sys, n: nat) {
    && ChainInv(s, n)
    && (forall i: nat :: i < |s.nodes| ==> EndOk(s, i))
    && (forall f: nat :: f < |s.frames| ==> Awaited(s, f))
    && Serial(s)
    && (forall i: nat :: i < |s.nodes| && i < |s.applied| ==> HoldsLatest(s, i))
  }

  // ----- Consequences -----

  /** A request that runs at a live node belongs to an operation that has not returned: following
      the callers back leads to the handler the client waits for. */
  lemma {:induction false} RunningFrame(s: Sys, n: nat, f: nat) returns (root: nat)
    requires Orderly(s, n) && f < |s.frames| && s.frames[f].PutFrame? && Up(s, s.frames[f].node)
    requires Unreplied(s.frames[f].put)
    ensures root < |s.frames| && Awaits(s, s.frames[f].op, root) && s.frames[root].PutFrame?
    ensures Unreplied(s.frames[root].put) && Up(s, s.frames[root].node)
    decreases f
  {
    assert Awaited(s, f) && FrameOk(s, f);
    match s.frames[f].caller
    case None => root := f;
    case Some(g) =>
      assert EndOk(s, s.frames[f].node);
      root := RunningFrame(s, n, g);
  }

  /** An upload that has returned is stored at every live node. */
  lemma ReturnedIsStored(s: Sys, n: nat, o: nat, i: nat)
    requires Orderly(s, n) && IsPut(s, o) && s.ops[o].result.Some? && i < n && Up(s, i)
    ensures o in s.applied[i]
  {
    assert OpOk(s, o);
    if s.ops[o].result.value.PutAcked? {
      var last :| ReachedEnd(s, o, last);
      assert EndOk(s, last);
    }
  }

  /** An upload that has not returned is the latest of its file. */
  lemma RunningIsLatest(s: Sys, n: nat, o: nat, p: nat)
    requires Orderly(s, n) && IsPut(s, o) && IsPut(s, p) && FileOf(s, o) == FileOf(s, p)
    requires s.ops[o].result.None?
    ensures p <= o
  {
  }

  // ----- One step -----

  lemma StepEndOk(s: Sys, n: nat, st: Step, i: nat)
    requires Orderly(s, n) && Admissible(s, st) && ChainInv(Next(s, st), n) && Grows(s, Next(s, st)) && i < n
    ensures EndOk(Next(s, st), i)
  {
    var t := Next(s, st);
    hide HoldsLatest, Serial, Awaited, Frames, Ops, Nodes;
    assert EndOk(s, i) && LinkOk(s, i);
    if Up(t, i) {
      forall j | 0 <= j < i
        ensures Up(t, j)
      {
        assert Up(s, j) && Up(s, i);
      }
    }
    if st.HandleFailure? && st.i == i && Terminal(t.nodes[i]) && !Terminal(s.nodes[i]) {
      var next := s.nodes[i].next;
      forall j | i < j
        ensures !Up(t, j)
      {
        if next < j && j < n {
          assert EndOk(s, j);
        }
      }
    }
  }

  lemma StepAwaited(s: Sys, n: nat, st: Step, f: nat)
    requires Orderly(s, n) && Admissible(s, st) && ChainInv(Next(s, st), n) && Grows(s, Next(s, st))
    requires f < |Next(s, st).frames|
    ensures Awaited(Next(s, st), f)
  {
    var t := Next(s, st);
    if f < |s.frames| {
      assert Awaited(s, f) && FrameOk(s, f);
      assert SameRequest(s.frames[f], t.frames[f]);
      if Up(t, t.frames[f].node) {
        if s.frames[f].PutFrame? {
          if Unreplied(t.frames[f].put) {
            AwaitedPut(s, n, st, f);
          }
        } else {
          AwaitedGet(s, n, st, f);
        }
      }
    } else if st.Connect? {
      assert FrameOk(s, st.f);
    }
  }

  /** A client stays with a handler that runs at a live node. */
  lemma ClientStays(s: Sys, st: Step, o: nat, f: nat)
    requires Enabled(s, st) && Awaits(s, o, f) && Up(s, s.frames[f].node)
    requires match s.frames[f] case PutFrame(_, _, _, put) => Unreplied(put) case GetFrame(_, _, get) => get.Asked? || get.Serving?
    ensures o < |Next(s, st).ops| && Next(s, st).ops[o] == s.ops[o]
  {
    OpChanges(s, st, o);
    hide Next;
  }

  /** So does the handler that called it. */
  lemma CallerStays(s: Sys, st: Step, g: nat, f: nat)
    requires Enabled(s, st) && f < |s.frames| && g < |s.frames| && s.frames[g].PutFrame? && s.frames[g].put == Waiting(f)
    requires s.frames[f].PutFrame? && Unreplied(s.frames[f].put) && Up(s, s.frames[f].node)
    ensures g < |Next(s, st).frames| && Next(s, st).frames[g] == s.frames[g]
  {
    FrameChanges(s, st, g);
    hide Next;
  }

  /** Handlers only move forward. */
  lemma StillRunning(s: Sys, st: Step, f: nat)
    requires Enabled(s, st) && f < |s.frames| && SameRequest(s.frames[f], Next(s, st).frames[f])
    ensures s.frames[f].PutFrame? && Unreplied(Next(s, st).frames[f].put) ==> Unreplied(s.frames[f].put)
    ensures s.frames[f].GetFrame? && (Next(s, st).frames[f].get.Asked? || Next(s, st).frames[f].get.Serving?) ==>
              s.frames[f].get.Asked? || s.frames[f].get.Serving?
  {
    FrameChanges(s, st, f);
    hide Next;
  }

  lemma AwaitedPut(s: Sys, n: nat, st: Step, f: nat)
    requires Orderly(s, n) && Admissible(s, st) && ChainInv(Next(s, st), n) && Grows(s, Next(s, st))
    requires f < |s.frames| && s.frames[f].PutFrame? && Up(s, s.frames[f].node)
    requires SameRequest(s.frames[f], Next(s, st).frames[f]) && Unreplied(Next(s, st).frames[f].put)
    ensures Awaited(Next(s, st), f)
  {
    assert Awaited(s, f);
    StillRunning(s, st, f);
    hide Orderly, ChainInv, Next, Enabled;
    match s.frames[f].caller
    case None => ClientStays(s, st, s.frames[f].op, f);
    case Some(g) => CallerStays(s, st, g, f);
  }

  lemma ServesAtEnd(s: Sys, st: Step, f: nat)
    requires Enabled(s, st) && f < |s.frames| && s.frames[f].GetFrame? && SameRequest(s.frames[f], Next(s, st).frames[f])
    requires Next(s, st).frames[f].get.Serving?
    ensures s.frames[f].get.Serving? || (s.frames[f].node < |s.nodes| && Terminal(s.nodes[s.frames[f].node]))
  {
    FrameChanges(s, st, f);
    if st.CheckRole? && st.f == f {
    } else {
      hide Next;
    }
  }

  lemma AwaitedGet(s: Sys, n: nat, st: Step, f: nat)
    requires Orderly(s, n) && Admissible(s, st) && ChainInv(Next(s, st), n) && Grows(s, Next(s, st))
    requires f < |s.frames| && s.frames[f].GetFrame? && Up(s, s.frames[f].node)
    requires SameRequest(s.frames[f], Next(s, st).frames[f])
    ensures Awaited(Next(s, st), f)
  {
    var t := Next(s, st);
    assert Awaited(s, f);
    StillRunning(s, st, f);
    hide Orderly, ChainInv, Next, Enabled;
    if t.frames[f].get.Asked? || t.frames[f].get.Serving? {
      ClientStays(s, st, s.frames[f].op, f);
      if t.frames[f].get.Serving? {
        ServesAtEnd(s, st, f);
      }
    }
  }

  lemma StepSerial(s: Sys, n: nat, st: Step)
    requires Orderly(s, n) && Admissible(s, st) && Grows(s, Next(s, st))
    ensures Serial(Next(s, st))
  {
    var t := Next(s, st);
    forall o: nat, p: nat | o < p && IsPut(t, o) && IsPut(t, p) && FileOf(t, o) == FileOf(t, p)
      ensures t.ops[o].result.Some?
    {
      assert IsPut(s, o);
      if p < |s.ops| {
        assert IsPut(s, p);
        assert s.ops[o].result.Some?;
      }
    }
  }

  lemma StepHoldsLatest(s: Sys, n: nat, st: Step, i: nat)
    requires Orderly(s, n) && Admissible(s, st) && ChainInv(Next(s, st), n) && Grows(s, Next(s, st)) && i < n
    ensures HoldsLatest(Next(s, st), i)
  {
    var t := Next(s, st);
    assert HoldsLatest(s, i) && NodeOk(s, i);
    hide Orderly, ChainInv, StoredBefore;
    if Up(t, i) {
      forall o: nat | LatestIn(t, o, t.applied[i])
        ensures FileOf(t, o) in t.nodes[i].store && t.nodes[i].store[FileOf(t, o)] == t.ops[o].call.meta
      {
        if st.Store? && s.frames[st.f].node == i {
          StoreHoldsLatest(s, n, st.f, o);
        } else {
          OtherStores(s, st, i);
          assert IsPut(s, o);
          SameLatest(s, t, o, s.applied[i]);
        }
      }
    }
  }

  lemma SameLatest(s: Sys, t: Sys, o: nat, puts: set<nat>)
    requires Grows(s, t) && IsPut(s, o) && LatestIn(t, o, puts)
    ensures LatestIn(s, o, puts)
  {
    forall p | p in puts && IsPut(s, p) && FileOf(s, p) == FileOf(s, o)
      ensures p <= o
    {
      assert IsPut(t, p);
    }
  }

  lemma StoreHoldsLatest(s: Sys, n: nat, f: nat, o: nat)
    requires Orderly(s, n) && Enabled(s, Store(f)) && Up(s, s.frames[f].node)
    requires LatestIn(DoStore(s, f), o, DoStore(s, f).applied[s.frames[f].node])
    ensures var store := DoStore(s, f).nodes[s.frames[f].node].store;
            FileOf(s, o) in store && store[FileOf(s, o)] == s.ops[o].call.meta
  {
    var t := DoStore(s, f);
    var i, p := s.frames[f].node, s.frames[f].op;
    var root := RunningFrame(s, n, f);
    if FileOf(s, p) == FileOf(s, o) {
      RunningIsLatest(s, n, p, o);
      assert p in t.applied[i] && IsPut(t, p);
    } else {
      assert HoldsLatest(s, i);
      SameLatest(s, t, o, t.applied[i]) by {
        assert Grows(s, t) by { StepGrows(s, n, Store(f)); }
      }
      assert LatestIn(s, o, s.applied[i]);
    }
  }

  lemma StepOrderly(s: Sys, n: nat, st: Step)
    requires Orderly(s, n) && Admissible(s, st)
    ensures Orderly(Next(s, st), n) && Grows(s, Next(s, st))
  {
    var t := Next(s, st);
    StepKeepsInv(s, n, st);
    StepSerial(s, n, st);
    forall i: nat | i < n
      ensures EndOk(t, i) && HoldsLatest(t, i)
    {
      StepEndOk(s, n, st, i);
      StepHoldsLatest(s, n, st, i);
    }
    forall f: nat | f < |t.frames|
      ensures Awaited(t, f)
    {
      StepAwaited(s, n, st, f);
    }
  }

  lemma InitialOrderly(n: nat)
    ensures Orderly(Initial(n), n)
  {
    InitialInv(n);
    var s := Initial(n);
    forall i: nat | i < n
      ensures EndOk(s, i) && HoldsLatest(s, i)
    {
      assert s.nodes[i] == Constructed(if i + 1 < n then i + 1 else NO_PORT);
      assert s.applied[i] == {};
    }
  }

  ghost predicate AdmissibleRun(n: nat, states: seq<Sys>, steps: seq<Step>) {
    Run(n, states, steps) && forall i :: 0 <= i < |steps| ==> Admissible(states[i], steps[i])
  }

  lemma {:induction false} ReachableOrderly(n: nat, states: seq<Sys>, steps: seq<Step>, k: nat)
    requires AdmissibleRun(n, states, steps) && k < |states|
    ensures Orderly(states[k], n)
  {
    if k == 0 {
      InitialOrderly(n);
    } else {
      ReachableOrderly(n, states, steps, k - 1);
      StepOrderly(states[k - 1], n, steps[k - 1]);
    }
  }

  /** Whatever has crashed at the end of the chain, every live node, and so the one that answers
      GETs, holds for a file the last acknowledged PUT or one attempted after it. */
  lemma LiveNodesHoldAcknowledged(n: nat, states: seq<Sys>, steps: seq<Step>, k: nat, i: nat, o: nat)
      returns (w: nat)
    requires AdmissibleRun(n, states, steps) && k < |states|
    requires i < |states[k].nodes| && Up(states[k], i)
    requires IsPut(states[k], o) && states[k].ops[o].result == Some(PutAcked)
    ensures o <= w && IsPut(states[k], w) && FileOf(states[k], w) == FileOf(states[k], o)
    ensures FileOf(states[k], o) in states[k].nodes[i].store
    ensures states[k].nodes[i].store[FileOf(states[k], o)] == states[k].ops[w].call.meta
  {
    ReachableOrderly(n, states, steps, k);
    var s := states[k];
    ReturnedIsStored(s, n, o, i);
    w := LatestPut(s, n, i, o, |s.ops|);
    assert HoldsLatest(s, i);
  }

  lemma {:induction false} LatestPut(s: Sys, n: nat, i: nat, o: nat, bound: nat) returns (w: nat)
    requires ChainInv(s, n) && i < n && o in s.applied[i] && IsPut(s, o) && o < bound <= |s.ops|
    requires forall p :: bound <= p < |s.ops| && IsPut(s, p) && FileOf(s, p) == FileOf(s, o) ==> p !in s.applied[i]
    ensures o <= w && LatestIn(s, w, s.applied[i]) && FileOf(s, w) == FileOf(s, o)
    decreases bound
  {
    var p := bound - 1;
    if IsPut(s, p) && FileOf(s, p) == FileOf(s, o) && p in s.applied[i] {
      w := p;
      assert NodeOk(s, i);
    } else {
      w := LatestPut(s, n, i, o, p);
    }
  }
}
