/** The sequential order behind a run whose crashes happen at the end of the chain and whose
    uploads of one file name do not overlap. A PUT takes effect when the last live node stores
    it or, if it is still on its way there, when that node crashes and the node before it
    becomes the last one; a GET takes effect when the last live node looks it up, provided its
    answer reaches the client. */
module ChainTailLinearizable {
  import opened Common
  import opened MapObject
  import opened MetadataNodes
  import opened ChainSystem
  import opened ChainContainment
  import opened ChainHistory
  import opened ChainTailCrash

  // ----- Orders whose PUTs come in the order of their invocation, file by file -----

  predicate PutOf(e: Entry, file: string) {
    e.call.PutCall? && e.call.meta.filename == file
  }

  ghost predicate Ascending(order: seq<Entry>) {
    forall k, l :: 0 <= k < l < |order| && order[k].call.PutCall? && PutOf(order[l], order[k].call.meta.filename)
      ==> order[k].op < order[l].op
  }

  lemma {:induction false} ReplayHolds(order: seq<Entry>, k: nat, file: string)
    requires k < |order| && PutOf(order[k], file)
    requires forall l :: k < l < |order| ==> !PutOf(order[l], file)
    ensures file in Replay(order) && Replay(order)[file] == order[k].call.meta
  {
    var shorter := order[..|order| - 1];
    if k < |shorter| {
      forall l | k < l < |shorter|
        ensures !PutOf(shorter[l], file)
      {
        assert shorter[l] == order[l];
      }
      ReplayHolds(shorter, k, file);
      assert !PutOf(order[|order| - 1], file);
    }
  }

  lemma {:induction false} ReplayLacks(order: seq<Entry>, file: string)
    requires forall l :: 0 <= l < |order| ==> !PutOf(order[l], file)
    ensures file !in Replay(order)
  {
    if |order| > 0 {
      var shorter := order[..|order| - 1];
      forall l | 0 <= l < |shorter|
        ensures !PutOf(shorter[l], file)
      {
        assert shorter[l] == order[l];
      }
      ReplayLacks(shorter, file);
      assert !PutOf(order[|order| - 1], file);
    }
  }

  // ----- How an order explains a state -----

  /** The answer that GET o has got, whether or not its client has seen it yet. */
  function GetSeen(s: Sys, o: nat): Option<Outcome>
    requires o < |s.ops|
  {
    var op := s.ops[o];
    match op.result
    case Some(r) => if r.GetFound? then Some(r) else None
    case None =>
      if op.waitingFor.Some? && op.waitingFor.value < |s.frames| then
        match s.frames[op.waitingFor.value]
        case GetFrame(_, _, Found(meta)) => Some(GetFound(meta))
        case _ => None
      else None
  }

  /** The order has exactly the given PUTs, and exactly the GETs that got an answer. */
  ghost predicate Places(s: Sys, order: seq<Entry>, puts: set<nat>) {
    forall o: nat :: o < |s.ops| ==>
      (Has(order, o) <==> if s.ops[o].call.PutCall? then o in puts else GetSeen(s, o).Some?)
  }

  ghost predicate AnswersSeen(s: Sys, order: seq<Entry>) {
    forall k :: 0 <= k < |order| && order[k].call.GetCall? ==>
      order[k].op < |s.ops| && GetSeen(s, order[k].op) == Some(AnswerAt(order, k))
  }

  ghost predicate Sound(s: Sys, h: seq<Event>, order: seq<Entry>, puts: set<nat>) {
    && OrderOk(s, order) && Ascending(order)
    && Places(s, order, puts) && AnswersSeen(s, order)
    && Linearizes(h, order, false)
  }

  /** The PUTs that have taken effect are those the last live node has stored, and they include
      everything that has been acknowledged. */
  ghost predicate Tracks(s: Sys, puts: set<nat>) {
    && (forall o :: o in puts ==> IsPut(s, o))
    && (forall i: nat :: i < |s.applied| && LastUp(s, i) ==> puts == s.applied[i])
    && (forall f: nat :: f < |s.frames| && s.frames[f].PutFrame? && s.frames[f].put.Acked? ==> s.frames[f].op in puts)
  }

  /** The PUT that a live node's entry comes from. */
  lemma EntryIsLatest(s: Sys, n: nat, i: nat, file: string) returns (w: nat)
    requires Orderly(s, n) && i < n && Up(s, i) && file in s.nodes[i].store
    ensures i < |s.applied| && LatestIn(s, w, s.applied[i])
    ensures FileOf(s, w) == file && s.nodes[i].store[file] == s.ops[w].call.meta
  {
    assert NodeOk(s, i) && HoldsLatest(s, i);
    hide Awaited, EndOk, Serial, StoredBefore, Links, Frames, Ops, Nodes;
    var o: nat :| o in s.applied[i] && IsPut(s, o) && s.ops[o].call.meta == s.nodes[i].store[file]
                  && s.ops[o].call.meta.filename == file;
    w := LatestPut(s, n, i, o, |s.ops|);
  }

  /** The latest PUT of a file decides what the replay has for it. */
  lemma LatestIsReplayed(s: Sys, order: seq<Entry>, puts: set<nat>, w: nat)
    requires OrderOk(s, order) && Ascending(order) && Places(s, order, puts) && LatestIn(s, w, puts)
    ensures FileOf(s, w) in Replay(order) && Replay(order)[FileOf(s, w)] == s.ops[w].call.meta
  {
    hide Replay, GetSeen;
    assert Has(order, w);
    var k: nat :| k < |order| && order[k].op == w;
    forall l | k < l < |order|
      ensures !PutOf(order[l], FileOf(s, w))
    {
      assert Has(order, order[l].op);
    }
    ReplayHolds(order, k, FileOf(s, w));
  }

  lemma FileIsReplayed(s: Sys, n: nat, h: seq<Event>, order: seq<Entry>, i: nat, file: string)
    requires Orderly(s, n) && i < n && Up(s, i) && Sound(s, h, order, s.applied[i])
    requires file in s.nodes[i].store
    ensures file in Replay(order) && Replay(order)[file] == s.nodes[i].store[file]
  {
    hide Orderly, OrderOk, Ascending, Places, AnswersSeen, Linearizes, LatestIn, Replay;
    var w := EntryIsLatest(s, n, i, file);
    LatestIsReplayed(s, order, s.applied[i], w);
  }

  lemma FileIsLacking(s: Sys, n: nat, h: seq<Event>, order: seq<Entry>, i: nat, file: string)
    requires Orderly(s, n) && i < n && Up(s, i) && Sound(s, h, order, s.applied[i])
    requires file !in s.nodes[i].store
    ensures file !in Replay(order)
  {
    assert NodeOk(s, i);
    forall l | 0 <= l < |order|
      ensures !PutOf(order[l], file)
    {
      assert Has(order, order[l].op);
    }
    ReplayLacks(order, file);
  }

  /** Replaying the order gives the table of the last live node. */
  lemma TableIsReplay(s: Sys, n: nat, h: seq<Event>, order: seq<Entry>, i: nat)
    requires Orderly(s, n) && i < n && Up(s, i) && Sound(s, h, order, s.applied[i])
    ensures Replay(order) == s.nodes[i].store
  {
    forall file: string
      ensures file in s.nodes[i].store ==> file in Replay(order) && s.nodes[i].store[file] == Replay(order)[file]
      ensures file !in s.nodes[i].store ==> file !in Replay(order)
    {
      if file in s.nodes[i].store {
        FileIsReplayed(s, n, h, order, i, file);
      } else {
        FileIsLacking(s, n, h, order, i, file);
      }
    }
  }

  // ----- Extending the order -----

  lemma HasOneMore(order: seq<Entry>, e: Entry, o: nat)
    ensures Has(order + [e], o) <==> Has(order, o) || e.op == o
  {
    var longer := order + [e];
    if Has(order, o) {
      var k :| 0 <= k < |order| && order[k].op == o;
      assert longer[k].op == o;
    }
    assert longer[|order|] == e;
  }

  lemma AddPutPlaces(s: Sys, order: seq<Entry>, puts: set<nat>, p: nat)
    requires Places(s, order, puts) && IsPut(s, p)
    ensures Places(s, order + [Entry(p, s.ops[p].call)], puts + {p})
  {
    hide Has, GetSeen;
    forall o: nat | o < |s.ops|
      ensures Has(order + [Entry(p, s.ops[p].call)], o) <==>
              if s.ops[o].call.PutCall? then o in puts + {p} else GetSeen(s, o).Some?
    {
      HasOneMore(order, Entry(p, s.ops[p].call), o);
    }
  }

  lemma AddPutAscending(s: Sys, n: nat, order: seq<Entry>, p: nat)
    requires Orderly(s, n) && OrderOk(s, order) && Ascending(order)
    requires IsPut(s, p) && s.ops[p].result.None? && !Has(order, p)
    ensures Ascending(order + [Entry(p, s.ops[p].call)])
  {
    hide ChainInv, HoldsLatest, Awaited, EndOk, Serial;
    var longer := order + [Entry(p, s.ops[p].call)];
    forall k, l | 0 <= k < l < |longer| && longer[k].call.PutCall? && PutOf(longer[l], longer[k].call.meta.filename)
      ensures longer[k].op < longer[l].op
    {
      if l == |order| {
        var o := order[k].op;
        assert IsPut(s, o) && FileOf(s, o) == FileOf(s, p);
        RunningIsLatest(s, n, p, o);
      }
    }
  }

  lemma AddPutAnswers(s: Sys, order: seq<Entry>, e: Entry)
    requires AnswersSeen(s, order) && e.call.PutCall?
    ensures AnswersSeen(s, order + [e])
  {
    hide GetSeen, Replay, AnswerAt;
    AppendAnswers(order, e);
  }

  /** A running PUT takes effect: it goes at the end, after all PUTs of its file. */
  lemma AddPut(s: Sys, n: nat, h: seq<Event>, order: seq<Entry>, puts: set<nat>, p: nat)
    requires Orderly(s, n) && HistoryOk(s, h) && Sound(s, h, order, puts)
    requires IsPut(s, p) && s.ops[p].result.None? && p !in puts
    ensures Sound(s, h, order + [Entry(p, s.ops[p].call)], puts + {p})
  {
    var e := Entry(p, s.ops[p].call);
    hide Orderly, Linearizes, Has, GetSeen, AnswersSeen, Ascending;
    assert !Has(order, p);
    AppendEntry(h, order, false, e);
    AddPutPlaces(s, order, puts, p);
    AddPutAscending(s, n, order, p);
    AddPutAnswers(s, order, e);
  }

  // ----- Steps that leave the order alone -----

  lemma KeepOrder(s: Sys, t: Sys, h: seq<Event>, h2: seq<Event>, order: seq<Entry>, puts: set<nat>)
    requires Sound(s, h, order, puts) && Grows(s, t) && Linearizes(h2, order, false)
    requires forall o :: o in puts ==> o < |s.ops|
    requires forall o: nat :: o < |s.ops| && s.ops[o].call.GetCall? ==> GetSeen(t, o) == GetSeen(s, o)
    requires forall o: nat :: |s.ops| <= o < |t.ops| ==> GetSeen(t, o).None?
    ensures Sound(t, h2, order, puts)
  {
    forall o: nat | |s.ops| <= o < |t.ops|
      ensures !Has(order, o)
    {
    }
  }

  /** Only a lookup gives a GET its answer, and only a lost connection takes it away. */
  ghost predicate Unanswering(s: Sys, st: Step)
    requires Enabled(s, st)
  {
    match st
    case Lookup(f) => s.ops[s.frames[f].op].call.file !in s.nodes[s.frames[f].node].store
    case ClientLost(o) => s.ops[o].call.PutCall? || GetSeen(s, o).None?
    case _ => true
  }

  /** A handler's step gives its GET no answer, unless it looks the file up and finds it. */
  lemma HandlerSeen(s: Sys, st: Step, o: nat)
    requires Enabled(s, st) && ByHandler(st) && Unanswering(s, st) && o < |s.ops| && s.ops[o].result.None?
    requires s.ops[o].waitingFor == Some(st.f) ==> s.frames[st.f].op == o
    ensures o < |Next(s, st).ops| && GetSeen(Next(s, st), o) == GetSeen(s, o)
  {
    var t := Next(s, st);
    forall f: nat | f < |s.frames| && f != st.f
      ensures f < |t.frames| && t.frames[f] == s.frames[f]
    {
      FrameChanges(s, st, f);
    }
  }

  /** A client that hears an answer keeps it. */
  lemma ReplySeen(s: Sys, o: nat)
    requires Enabled(s, ClientReply(o)) && s.ops[o].call.GetCall?
    ensures GetSeen(DoClientReply(s, o), o) == GetSeen(s, o)
  {
  }

  lemma ClientSeen(s: Sys, st: Step, o: nat)
    requires Enabled(s, st) && ByClient(st) && !st.ClientReply? && Unanswering(s, st) && st.op == o
    requires s.ops[o].call.GetCall?
    ensures GetSeen(Next(s, st), o) == GetSeen(s, o)
  {
  }

  lemma WaitingOk(s: Sys, n: nat, o: nat)
    requires ChainInv(s, n) && o < |s.ops| && s.ops[o].result.None? && s.ops[o].waitingFor.Some?
    ensures s.ops[o].waitingFor.value < |s.frames| && s.frames[s.ops[o].waitingFor.value].op == o
  {
    hide Links, Frames, Nodes, StoredBefore;
    assert OpOk(s, o);
  }

  lemma GetSeenStep(s: Sys, n: nat, st: Step, o: nat)
    requires Orderly(s, n) && Admissible(s, st) && Unanswering(s, st) && Grows(s, Next(s, st))
    requires o < |s.ops| && s.ops[o].call.GetCall?
    ensures GetSeen(Next(s, st), o) == GetSeen(s, o)
  {
    if s.ops[o].result.None? && s.ops[o].waitingFor.Some? {
      WaitingOk(s, n, o);
    }
    OpChanges(s, st, o);
    hide Orderly, GetSeen, Unanswering, DoClientReply, DoStore, DoDecide, DoConnect, DoReturn, DoLookup;
    if Next(s, st).ops[o] != s.ops[o] {
      if st.ClientReply? {
        ReplySeen(s, o);
      } else {
        ClientSeen(s, st, o);
      }
    } else if ByHandler(st) && s.ops[o].result.None? {
      HandlerSeen(s, st, o);
    } else {
      hide Next;
      forall f: nat | f < |s.frames| && !ByHandler(st)
        ensures Next(s, st).frames[f] == s.frames[f]
      {
        FrameChanges(s, st, f);
      }
      SettledSeen(s, Next(s, st), o);
    }
  }

  lemma SettledSeen(s: Sys, t: Sys, o: nat)
    requires o < |s.ops| && o < |t.ops| && t.ops[o] == s.ops[o] && |s.frames| <= |t.frames|
    requires s.ops[o].result.None? && s.ops[o].waitingFor.Some? ==>
               var f := s.ops[o].waitingFor.value; f < |s.frames| && t.frames[f] == s.frames[f]
    ensures GetSeen(t, o) == GetSeen(s, o)
  {
  }

  lemma ReturnSeen(s: Sys, n: nat, st: Step, h: seq<Event>, order: seq<Entry>, puts: set<nat>, o: nat, r: Outcome)
    requires Orderly(s, n) && Admissible(s, st) && Sound(s, h, order, puts) && Tracks(s, puts)
    requires Observed(s, st) == [Ret(o, r)] && Definite(false, r)
    ensures exists k :: 0 <= k < |order| && order[k].op == o && AnswerAt(order, k) == r
  {
    assert OpOk(s, o);
    var f := s.ops[o].waitingFor.value;
    assert FrameOk(s, f);
    assert Has(order, o);
    var k :| 0 <= k < |order| && order[k].op == o;
    assert order[k].call == s.ops[o].call;
    if order[k].call.GetCall? {
      assert GetSeen(s, o) == Some(AnswerAt(order, k));
    }
  }

  lemma PlainStepSound(s: Sys, n: nat, st: Step, h: seq<Event>, order: seq<Entry>, puts: set<nat>)
    requires Orderly(s, n) && Admissible(s, st) && Unanswering(s, st) && Grows(s, Next(s, st))
    requires HistoryOk(s, h) && Sound(s, h, order, puts) && Tracks(s, puts)
    ensures Sound(Next(s, st), h + Observed(s, st), order, puts)
  {
    var t := Next(s, st);
    forall o: nat, r: Outcome | Observed(s, st) == [Ret(o, r)] && Definite(false, r)
      ensures exists k :: 0 <= k < |order| && order[k].op == o && AnswerAt(order, k) == r
    {
      ReturnSeen(s, n, st, h, order, puts, o, r);
    }
    ObserveKeepsOrder(s, st, h, order, false);
    forall o: nat | o < |s.ops| && s.ops[o].call.GetCall?
      ensures GetSeen(t, o) == GetSeen(s, o)
    {
      GetSeenStep(s, n, st, o);
    }
    KeepOrder(s, t, h, h + Observed(s, st), order, puts);
  }

  // ----- Which PUTs have taken effect -----

  lemma PlainStepTracks(s: Sys, n: nat, st: Step, puts: set<nat>)
    requires Orderly(s, n) && Admissible(s, st) && Grows(s, Next(s, st)) && Tracks(s, puts)
    requires !st.Crash? && !(st.Store? && LastUp(s, s.frames[st.f].node) && s.frames[st.f].op !in puts)
    ensures Tracks(Next(s, st), puts)
  {
    var t := Next(s, st);
    forall i: nat | i < |t.applied| && LastUp(t, i)
      ensures puts == t.applied[i]
    {
      forall j | i < j
        ensures !Up(s, j)
      {
        assert !Up(t, j);
      }
    }
    forall f: nat | f < |t.frames| && t.frames[f].PutFrame? && t.frames[f].put.Acked?
      ensures t.frames[f].op in puts
    {
      if t.frames[f] != s.frames[f] {
        AckTracks(s, n, st, puts, f);
      }
    }
  }

  lemma TerminalIsLast(s: Sys, n: nat, i: nat)
    requires Orderly(s, n) && i < n && Up(s, i) && Terminal(s.nodes[i])
    ensures LastUp(s, i)
  {
    assert EndOk(s, i);
    forall j | i < j
      ensures !Up(s, j)
    {
    }
  }

  lemma AckTracks(s: Sys, n: nat, st: Step, puts: set<nat>, f: nat)
    requires Orderly(s, n) && Admissible(s, st) && Grows(s, Next(s, st)) && Tracks(s, puts)
    requires f < |s.frames| && Next(s, st).frames[f] != s.frames[f]
    requires Next(s, st).frames[f].PutFrame? && Next(s, st).frames[f].put.Acked?
    ensures Next(s, st).frames[f].op in puts
  {
    hide Grows, HoldsLatest, Serial, Awaited, Nodes, Ops, StoredBefore, ReachedEnd, Gap;
    assert FrameOk(s, f);
    if st.Decide? {
      var i := s.frames[f].node;
      assert LinkOk(s, i) && EndOk(s, i);
      TerminalIsLast(s, n, i);
    } else {
      assert FrameOk(s, s.frames[f].put.callee);
    }
  }

  // ----- Steps in which something takes effect -----

  lemma StoreSound(s: Sys, n: nat, f: nat, h: seq<Event>, order: seq<Entry>, puts: set<nat>)
      returns (order2: seq<Entry>, puts2: set<nat>)
    requires Orderly(s, n) && Admissible(s, Store(f)) && Orderly(DoStore(s, f), n) && Grows(s, DoStore(s, f))
    requires HistoryOk(s, h) && Sound(s, h, order, puts) && Tracks(s, puts)
    ensures Sound(DoStore(s, f), h, order2, puts2) && Tracks(DoStore(s, f), puts2)
  {
    var t := DoStore(s, f);
    var i, p := s.frames[f].node, s.frames[f].op;
    PlainStepSound(s, n, Store(f), h, order, puts);
    assert h + Observed(s, Store(f)) == h;
    if LastUp(s, i) && p !in puts {
      var root := RunningFrame(s, n, f);
      StepHistory(s, Store(f), h);
      AddPut(t, n, h, order, puts, p);
      order2, puts2 := order + [Entry(p, t.ops[p].call)], puts + {p};
      forall j: nat | j < |t.applied| && LastUp(t, j)
        ensures puts2 == t.applied[j]
      {
        assert Up(s, j) && Up(t, i);
        assert !(i < j) && !(j < i);
      }
    } else {
      order2, puts2 := order, puts;
      PlainStepTracks(s, n, Store(f), puts);
    }
  }

  /** Only the last live node looks anything up, and for a client that still waits. */
  lemma LookupFacts(s: Sys, n: nat, f: nat)
    requires Orderly(s, n) && Enabled(s, Lookup(f))
    ensures var i, o := s.frames[f].node, s.frames[f].op;
            i < n && LastUp(s, i) && Awaits(s, o, f) && GetSeen(s, o).None?
  {
    hide HoldsLatest, Serial, StoredBefore, Gap, Nodes, Frames, Ops;
    assert Awaited(s, f);
    TerminalIsLast(s, n, s.frames[f].node);
  }

  lemma LookupSeen(s: Sys, n: nat, f: nat, p: nat)
    requires Orderly(s, n) && Enabled(s, Lookup(f)) && p < |s.ops|
    requires s.ops[s.frames[f].op].call.file in s.nodes[s.frames[f].node].store
    requires Awaits(s, s.frames[f].op, f)
    ensures var found := s.nodes[s.frames[f].node].store[s.ops[s.frames[f].op].call.file];
            GetSeen(DoLookup(s, f), p) == if p == s.frames[f].op then Some(GetFound(found)) else GetSeen(s, p)
  {
    hide HoldsLatest, Serial, Awaited, EndOk, StoredBefore, Gap, Nodes, Frames, Links;
    assert OpOk(s, p);
  }

  /** From s to t, only GET o has got an answer. */
  ghost predicate OneMoreSeen(s: Sys, t: Sys, o: nat) {
    && t.ops == s.ops && o < |s.ops| && s.ops[o].call.GetCall? && GetSeen(t, o).Some?
    && forall p: nat :: p < |s.ops| && p != o ==> GetSeen(t, p) == GetSeen(s, p)
  }

  lemma LookupPlaces(s: Sys, t: Sys, order: seq<Entry>, puts: set<nat>, e: Entry)
    requires Places(s, order, puts) && OneMoreSeen(s, t, e.op)
    ensures Places(t, order + [e], puts)
  {
    hide Has, GetSeen;
    forall p: nat | p < |t.ops|
      ensures Has(order + [e], p) <==> if t.ops[p].call.PutCall? then p in puts else GetSeen(t, p).Some?
    {
      HasOneMore(order, e, p);
    }
  }

  lemma LookupAnswers(s: Sys, t: Sys, order: seq<Entry>, e: Entry)
    requires AnswersSeen(s, order) && OneMoreSeen(s, t, e.op) && !Has(order, e.op)
    requires GetSeen(t, e.op) == Some(Answer(Replay(order), e.call))
    ensures AnswersSeen(t, order + [e])
  {
    hide GetSeen, Replay, AnswerAt, Answer;
    AppendAnswers(order, e);
    var longer := order + [e];
    forall k | 0 <= k < |longer| && longer[k].call.GetCall?
      ensures longer[k].op < |t.ops| && GetSeen(t, longer[k].op) == Some(AnswerAt(longer, k))
    {
      if k < |order| {
        assert Has(order, order[k].op);
      }
    }
  }

  lemma LookupAscending(order: seq<Entry>, e: Entry)
    requires Ascending(order) && e.call.GetCall?
    ensures Ascending(order + [e])
  {
  }

  lemma LookupSound(s: Sys, n: nat, f: nat, h: seq<Event>, order: seq<Entry>, puts: set<nat>)
    requires Orderly(s, n) && Admissible(s, Lookup(f)) && Grows(s, DoLookup(s, f))
    requires HistoryOk(s, h) && Sound(s, h, order, puts) && Tracks(s, puts)
    requires !Unanswering(s, Lookup(f))
    ensures Sound(DoLookup(s, f), h, order + [Entry(s.frames[f].op, s.ops[s.frames[f].op].call)], puts)
  {
    var t := DoLookup(s, f);
    var i, o := s.frames[f].node, s.frames[f].op;
    var e := Entry(o, s.ops[o].call);
    LookupFacts(s, n, f);
    forall p: nat | p < |s.ops|
      ensures GetSeen(t, p) == if p == o then Some(GetFound(s.nodes[i].store[e.call.file])) else GetSeen(s, p)
    {
      LookupSeen(s, n, f, p);
    }
    hide Orderly, GetSeen, Linearizes, Has, Ascending, Grows, AnswersSeen;
    assert puts == s.applied[i];
    TableIsReplay(s, n, h, order, i);
    hide Tracks, LastUp, Replay;
    AppendEntry(h, order, false, e);
    LookupPlaces(s, t, order, puts, e);
    LookupAnswers(s, t, order, e);
    LookupAscending(order, e);
  }

  lemma CutPlaces(order: seq<Entry>, k: nat, order2: seq<Entry>)
    requires Once(order) && k < |order| && order2 == order[..k] + order[k + 1..]
    ensures forall l :: 0 <= l < |order2| ==> order2[l] == order[if l < k then l else l + 1]
    ensures forall o: nat :: Has(order2, o) <==> Has(order, o) && o != order[k].op
  {
    forall o: nat
      ensures Has(order2, o) <==> Has(order, o) && o != order[k].op
    {
      if Has(order, o) && o != order[k].op {
        var l: nat :| l < |order| && order[l].op == o;
        assert order2[if l < k then l else l - 1].op == o;
      }
      if Has(order2, o) {
        var l: nat :| l < |order2| && order2[l].op == o;
        assert order[if l < k then l else l + 1].op == o;
      }
    }
  }

  lemma CutAscending(order: seq<Entry>, k: nat, order2: seq<Entry>)
    requires Ascending(order) && k < |order| && order2 == order[..k] + order[k + 1..]
    ensures Ascending(order2)
  {
    forall l | 0 <= l < |order2|
      ensures order2[l] == order[if l < k then l else l + 1]
    {
    }
  }

  lemma LostSeen(s: Sys, n: nat, o: nat, p: nat)
    requires Orderly(s, n) && Enabled(s, ClientLost(o)) && p < |s.ops|
    ensures GetSeen(Next(s, ClientLost(o)), p) == if p == o then None else GetSeen(s, p)
  {
  }

  /** A GET whose answer is lost with the node that gave it has not taken effect after all. */
  lemma LostSound(s: Sys, n: nat, o: nat, h: seq<Event>, order: seq<Entry>, puts: set<nat>)
      returns (order2: seq<Entry>)
    requires Orderly(s, n) && Admissible(s, ClientLost(o)) && Grows(s, Next(s, ClientLost(o)))
    requires HistoryOk(s, h) && Sound(s, h, order, puts)
    requires !Unanswering(s, ClientLost(o))
    ensures Sound(Next(s, ClientLost(o)), h, order2, puts)
  {
    var t := Next(s, ClientLost(o));
    assert Has(order, o);
    var k: nat :| k < |order| && order[k].op == o;
    order2 := order[..k] + order[k + 1..];
    RemoveGet(h, order, false, k, order2);
    CutAscending(order, k, order2);
    LostPlaces(s, n, o, order, puts, k, order2);
    LostAnswers(s, n, o, order, k, order2);
    CutPlaces(order, k, order2);
  }

  lemma LostPlaces(s: Sys, n: nat, o: nat, order: seq<Entry>, puts: set<nat>, k: nat, order2: seq<Entry>)
    requires Orderly(s, n) && Enabled(s, ClientLost(o)) && s.ops[o].call.GetCall?
    requires Places(s, order, puts) && Once(order)
    requires k < |order| && order[k].op == o && order2 == order[..k] + order[k + 1..]
    ensures Places(Next(s, ClientLost(o)), order2, puts)
  {
    var t := Next(s, ClientLost(o));
    CutPlaces(order, k, order2);
    forall p: nat | p < |t.ops|
      ensures Has(order2, p) <==> if t.ops[p].call.PutCall? then p in puts else GetSeen(t, p).Some?
    {
      LostSeen(s, n, o, p);
    }
  }

  lemma LostAnswers(s: Sys, n: nat, o: nat, order: seq<Entry>, k: nat, order2: seq<Entry>)
    requires Orderly(s, n) && Enabled(s, ClientLost(o)) && AnswersSeen(s, order) && Once(order)
    requires k < |order| && order[k].op == o && order[k].call.GetCall? && order2 == order[..k] + order[k + 1..]
    ensures AnswersSeen(Next(s, ClientLost(o)), order2)
  {
    forall l: nat | l < |order2| && order2[l].call.GetCall?
      ensures order2[l].op < |s.ops| && GetSeen(Next(s, ClientLost(o)), order2[l].op) == Some(AnswerAt(order2, l))
    {
      LostAnswer(s, n, o, order, k, order2, l);
    }
  }

  lemma LostAnswer(s: Sys, n: nat, o: nat, order: seq<Entry>, k: nat, order2: seq<Entry>, l: nat)
    requires Orderly(s, n) && Enabled(s, ClientLost(o)) && AnswersSeen(s, order) && Once(order)
    requires k < |order| && order[k].op == o && order[k].call.GetCall? && order2 == order[..k] + order[k + 1..]
    requires l < |order2| && order2[l].call.GetCall?
    ensures order2[l].op < |s.ops| && GetSeen(Next(s, ClientLost(o)), order2[l].op) == Some(AnswerAt(order2, l))
  {
    hide Orderly, GetSeen, Enabled, Next, Replay, AnswerAt;
    var m := if l < k then l else l + 1;
    assert order2[l] == order[m] && order[m].op != o;
    RemoveAnswers(order, k, order2);
    LostSeen(s, n, o, order[m].op);
  }

  /** When the last node crashes, PUTs that were on their way to it take effect at the node
      that becomes the last one. */
  lemma {:induction false} AbsorbPending(t: Sys, n: nat, h: seq<Event>, order: seq<Entry>, puts: set<nat>,
                                         pending: set<nat>, m: nat)
      returns (order2: seq<Entry>)
    requires Orderly(t, n) && HistoryOk(t, h) && Sound(t, h, order, puts)
    requires forall o :: o in pending ==> IsPut(t, o) && t.ops[o].result.None? && o !in puts
    ensures Sound(t, h, order2, puts + set o | o in pending && o < m)
    decreases m
  {
    if m == 0 {
      order2 := order;
      assert puts + (set o | o in pending && o < 0) == puts;
    } else {
      var shorter := AbsorbPending(t, n, h, order, puts, pending, m - 1);
      var before := puts + set o | o in pending && o < m - 1;
      if m - 1 in pending {
        AddPut(t, n, h, shorter, before, m - 1);
        order2 := shorter + [Entry(m - 1, t.ops[m - 1].call)];
        assert before + {m - 1} == puts + set o | o in pending && o < m;
      } else {
        order2 := shorter;
        assert before == puts + set o | o in pending && o < m;
      }
    }
  }

  /** The PUTs that the node before the crashing last one has stored and that one has not are
      still running. */
  lemma PendingRuns(s: Sys, n: nat, i: nat, o: nat)
    requires Orderly(s, n) && 0 < i < n && Up(s, i) && o in s.applied[i - 1] && o !in s.applied[i]
    ensures IsPut(s, o) && s.ops[o].result.None?
  {
    assert NodeOk(s, i - 1);
    if s.ops[o].result.Some? {
      ReturnedIsStored(s, n, o, i);
    }
  }

  lemma EarlierHasMore(s: Sys, n: nat, i: nat)
    requires Orderly(s, n) && 0 < i < n && Up(s, i)
    ensures s.applied[i] <= s.applied[i - 1]
  {
    assert NodeOk(s, i) && EndOk(s, i);
    forall o | o in s.applied[i]
      ensures o in s.applied[i - 1]
    {
      assert StoredBefore(s, o, i);
    }
  }

  lemma CrashTracks(s: Sys, n: nat, i: nat, puts: set<nat>)
    requires Orderly(s, n) && Admissible(s, Crash(i)) && Grows(s, Next(s, Crash(i))) && Tracks(s, puts)
    ensures puts == s.applied[i]
    ensures i == 0 ==> Tracks(Next(s, Crash(i)), puts)
    ensures 0 < i ==> Tracks(Next(s, Crash(i)), s.applied[i - 1])
  {
    var t := Next(s, Crash(i));
    assert LastUp(s, i) && EndOk(s, i);
    if 0 < i {
      EarlierHasMore(s, n, i);
      assert NodeOk(s, i - 1);
      assert Up(s, i - 1);
      assert Up(t, i - 1);
    }
    forall j: nat | j < |t.applied| && LastUp(t, j)
      ensures j + 1 == i
    {
      assert Up(s, j);
      assert !(i < j);
    }
  }

  lemma CrashSound(s: Sys, n: nat, i: nat, h: seq<Event>, order: seq<Entry>, puts: set<nat>)
      returns (order2: seq<Entry>, puts2: set<nat>)
    requires Orderly(s, n) && Admissible(s, Crash(i)) && Orderly(Next(s, Crash(i)), n) && Grows(s, Next(s, Crash(i)))
    requires HistoryOk(s, h) && Sound(s, h, order, puts) && Tracks(s, puts)
    ensures Sound(Next(s, Crash(i)), h, order2, puts2) && Tracks(Next(s, Crash(i)), puts2)
  {
    var t := Next(s, Crash(i));
    PlainStepSound(s, n, Crash(i), h, order, puts);
    StepHistory(s, Crash(i), h);
    assert h + Observed(s, Crash(i)) == h;
    CrashTracks(s, n, i, puts);
    if i == 0 {
      order2, puts2 := order, puts;
    } else {
      puts2 := s.applied[i - 1];
      var pending := puts2 - puts;
      forall o | o in pending
        ensures IsPut(t, o) && t.ops[o].result.None? && o !in puts
      {
        PendingRuns(s, n, i, o);
      }
      order2 := AbsorbPending(t, n, h, order, puts, pending, |t.ops|);
      EarlierHasMore(s, n, i);
      assert puts + (set o | o in pending && o < |t.ops|) == puts2;
    }
  }

  // ----- Every step, every run -----

  lemma StepSound(s: Sys, n: nat, st: Step, h: seq<Event>, order: seq<Entry>, puts: set<nat>)
      returns (order2: seq<Entry>, puts2: set<nat>)
    requires Orderly(s, n) && Admissible(s, st)
    requires HistoryOk(s, h) && Sound(s, h, order, puts) && Tracks(s, puts)
    ensures Sound(Next(s, st), h + Observed(s, st), order2, puts2) && Tracks(Next(s, st), puts2)
  {
    StepOrderly(s, n, st);
    if st.Store? {
      order2, puts2 := StoreSound(s, n, st.f, h, order, puts);
      assert h + Observed(s, st) == h;
    } else if st.Crash? {
      order2, puts2 := CrashSound(s, n, st.i, h, order, puts);
      assert h + Observed(s, st) == h;
    } else {
      puts2 := puts;
      PlainStepTracks(s, n, st, puts);
      if Unanswering(s, st) {
        order2 := order;
        PlainStepSound(s, n, st, h, order, puts);
      } else if st.Lookup? {
        order2 := order + [Entry(s.frames[st.f].op, s.ops[s.frames[st.f].op].call)];
        LookupSound(s, n, st.f, h, order, puts);
        assert h + Observed(s, st) == h;
      } else {
        order2 := LostSound(s, n, st.op, h, order, puts);
        assert h + Observed(s, st) == h;
      }
    }
  }

  lemma InitialSound(n: nat)
    ensures Sound(Initial(n), [], [], {}) && Tracks(Initial(n), {})
  {
  }

  lemma {:induction false} ReachableSound(n: nat, states: seq<Sys>, steps: seq<Step>, k: nat)
      returns (order: seq<Entry>, puts: set<nat>)
    requires AdmissibleRun(n, states, steps) && k <= |steps|
    ensures Sound(states[k], History(states, steps, k), order, puts) && Tracks(states[k], puts)
  {
    if k == 0 {
      order, puts := [], {};
      InitialSound(n);
    } else {
      order, puts := ReachableSound(n, states, steps, k - 1);
      ReachableOrderly(n, states, steps, k - 1);
      ReachableHistory(n, states, steps, k - 1);
      order, puts := StepSound(states[k - 1], n, steps[k - 1], History(states, steps, k - 1), order, puts);
    }
  }

  /** Every run whose crashes happen at the end of the chain and whose uploads of one file name
      do not overlap is linearizable in what acknowledged PUTs and successful GETs report. */
  lemma TailCrashRunsLinearizable(n: nat, states: seq<Sys>, steps: seq<Step>)
    requires AdmissibleRun(n, states, steps)
    ensures Linearizable(History(states, steps, |steps|), false)
  {
    var order, puts := ReachableSound(n, states, steps, |steps|);
  }

  // ----- What a GET returns after an acknowledgement -----

  lemma {:induction false} HistoryGrows(states: seq<Sys>, steps: seq<Step>, j: nat, k: nat)
    requires j <= k <= |steps| < |states|
    requires forall i :: 0 <= i < |steps| ==> Enabled(states[i], steps[i])
    ensures History(states, steps, j) <= History(states, steps, k)
  {
    hide Observed, Enabled;
    if j < k {
      HistoryGrows(states, steps, j, k - 1);
    }
  }

  /** What returned by the time of history h precedes what was invoked only after it. */
  lemma PrecedesAcross(h: seq<Event>, later: seq<Event>, a: nat, b: nat, r: Outcome, c: Call)
    requires h <= later && Ret(a, r) in h && Inv(b, c) in later && Inv(b, c) !in h
    ensures Precedes(later, a, b)
  {
    var i: nat :| i < |h| && h[i] == Ret(a, r);
    var j: nat :| j < |later| && later[j] == Inv(b, c);
    if j < |h| {
      InPrefix(h, later, j);
      assert false;
    }
    assert later[i] == h[i];
  }

  lemma InPrefix(h: seq<Event>, later: seq<Event>, j: nat)
    requires h <= later && j < |h|
    ensures later[j] in h
  {
    assert later[j] == h[j];
  }

  /** The last PUT of the file before place g. */
  lemma {:induction false} LastPutBefore(order: seq<Entry>, k: nat, g: nat, file: string) returns (l: nat)
    requires k < g <= |order| && PutOf(order[k], file)
    ensures k <= l < g && PutOf(order[l], file) && forall m :: l < m < g ==> !PutOf(order[m], file)
    decreases g
  {
    if PutOf(order[g - 1], file) {
      l := g - 1;
    } else {
      l := LastPutBefore(order, k, g - 1, file);
    }
  }

  /** In the order, an answer comes from the last PUT before it. */
  lemma AnswerIsLastPut(order: seq<Entry>, k: nat, g: nat, file: string, meta: FileMetadata) returns (l: nat)
    requires Ascending(order) && k < g < |order| && PutOf(order[k], file)
    requires order[g].call == GetCall(file) && AnswerAt(order, g) == GetFound(meta)
    ensures l < |order| && order[l].call == PutCall(meta) && meta.filename == file && order[k].op <= order[l].op
  {
    l := LastPutBefore(order, k, g, file);
    var before := order[..g];
    assert forall m :: 0 <= m < g ==> before[m] == order[m];
    ReplayHolds(before, l, file);
  }

  lemma PlaceOf(h: seq<Event>, order: seq<Entry>, o: nat, r: Outcome) returns (k: nat)
    requires Linearizes(h, order, false) && Ret(o, r) in h && Definite(false, r)
    ensures k < |order| && order[k].op == o && AnswerAt(order, k) == r
  {
    k :| k < |order| && order[k].op == o && AnswerAt(order, k) == r;
  }

  /** A GET that is invoked after PUT o was acknowledged returns what that PUT or a later one of the
      name has put. */
  lemma LaterAnswer(n: nat, states: seq<Sys>, steps: seq<Step>, j: nat, k: nat, o: nat, g: nat, meta: FileMetadata)
      returns (w: nat)
    requires AdmissibleRun(n, states, steps) && j <= k <= |steps|
    requires IsPut(states[j], o) && states[j].ops[o].result == Some(PutAcked)
    requires |states[j].ops| <= g < |states[k].ops| && states[k].ops[g].call == GetCall(FileOf(states[j], o))
    requires states[k].ops[g].result == Some(GetFound(meta))
    ensures o <= w < |states[k].ops| && states[k].ops[w].call == PutCall(meta) && meta.filename == FileOf(states[j], o)
  {
    var file := FileOf(states[j], o);
    var early, late := History(states, steps, j), History(states, steps, k);
    ReachableHistory(n, states, steps, j);
    ReachableHistory(n, states, steps, k);
    HistoryGrows(states, steps, j, k);
    hide Run, Enabled, Admissible, History;
    assert Inv(g, GetCall(file)) in late && Inv(g, GetCall(file)) !in early;
    assert Ret(o, PutAcked) in early && Ret(g, GetFound(meta)) in late;
    PrecedesAcross(early, late, o, g, PutAcked, GetCall(file));
    assert Ret(o, PutAcked) in late && Inv(o, states[j].ops[o].call) in late;
    hide HistoryOk;
    var order, puts := ReachableSound(n, states, steps, k);
    hide Tracks, Places, AnswersSeen, Replay, AnswerAt, Ascending, AdmissibleRun;
    var a := PlaceOf(late, order, o, PutAcked);
    var b := PlaceOf(late, order, g, GetFound(meta));
    assert a < b;
    var l := AnswerIsLastPut(order, a, b, file, meta);
    w := order[l].op;
  }
}
