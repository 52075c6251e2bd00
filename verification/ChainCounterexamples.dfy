/** Why the fail-over theorem makes its assumptions. Without them there are runs in which every
    request was answered and yet no sequential order explains the answers; each run below is
    stated for every pair of different metadata for one file name. */
module ChainCounterexamples {
  import opened Common
  import opened MapObject
  import opened MetadataNodes
  import opened ChainSystem
  import opened ChainContainment
  import opened ChainTailCrash
  import opened ChainTailLinearizable
  import opened ChainService
  import Wire

  // ----- Histories that no order explains -----

  /** Two different uploads of one file, both acknowledged one after the other, and then a
      download that returns the first one. */
  function StaleRead(m1: FileMetadata, m2: FileMetadata): seq<Event> {
    [Inv(0, PutCall(m1)), Ret(0, PutAcked), Inv(1, PutCall(m2)), Ret(1, PutAcked),
     Inv(2, GetCall(m1.filename)), Ret(2, GetFound(m1))]
  }

  /** An operation whose definite return is in the history has a place in the order. */
  lemma Placed(h: seq<Event>, order: seq<Entry>, i: nat) returns (k: nat)
    requires Answered(h, order, false) && i < |h| && h[i].Ret? && Definite(false, h[i].outcome)
    ensures k < |order| && order[k].op == h[i].op && AnswerAt(order, k) == h[i].outcome
  {
    assert Ret(h[i].op, h[i].outcome) in h;
    k :| k < |order| && order[k].op == h[i].op && AnswerAt(order, k) == h[i].outcome;
  }

  lemma PlacedBefore(h: seq<Event>, order: seq<Entry>, i: nat, j: nat, k: nat, l: nat)
    requires RealTime(h, order) && i < j < |h| && h[i].Ret? && h[j].Inv?
    requires k < |order| && l < |order| && order[k].op == h[i].op && order[l].op == h[j].op
    ensures k < l
  {
    assert Precedes(h, order[k].op, order[l].op);
  }

  /** The last upload of a file before a download decides what the download may return. */
  lemma LastPutDecides(order: seq<Entry>, k: nat, g: nat, file: string)
    requires k < g < |order| && PutOf(order[k], file) && order[g].call == GetCall(file)
    requires forall l :: k < l < g ==> !PutOf(order[l], file)
    ensures AnswerAt(order, g) == GetFound(order[k].call.meta)
  {
    ReplayHolds(order[..g], k, file);
  }

  ghost predicate IsStaleRead(h: seq<Event>, m1: FileMetadata, m2: FileMetadata) {
    && |h| == 6 && m1 != m2 && m1.filename == m2.filename
    && h[0] == Inv(0, PutCall(m1)) && h[1] == Ret(0, PutAcked)
    && h[2] == Inv(1, PutCall(m2)) && h[3] == Ret(1, PutAcked)
    && h[4] == Inv(2, GetCall(m1.filename)) && h[5] == Ret(2, GetFound(m1))
  }

  lemma StaleReadEntry(h: seq<Event>, m1: FileMetadata, m2: FileMetadata, order: seq<Entry>, k: nat)
    requires IsStaleRead(h, m1, m2) && OnlyInvoked(h, order) && k < |order|
    ensures PutOf(order[k], m1.filename) ==> order[k].op == 0 || order[k].op == 1
    ensures order[k].op == 1 ==> order[k].call == PutCall(m2)
    ensures order[k].op == 2 ==> order[k].call == GetCall(m1.filename)
  {
    var e := Inv(order[k].op, order[k].call);
    assert e in h;
    var i :| 0 <= i < |h| && h[i] == e;
    assert i == 0 || i == 2 || i == 4;
  }

  lemma StaleReadPlaces(h: seq<Event>, m1: FileMetadata, m2: FileMetadata, order: seq<Entry>) returns (b: nat, g: nat)
    requires IsStaleRead(h, m1, m2) && Once(order) && Answered(h, order, false) && RealTime(h, order)
    ensures b < g < |order| && order[b].op == 1 && order[g].op == 2 && AnswerAt(order, g) == GetFound(m1)
    ensures forall k :: b < k < |order| ==> order[k].op != 0 && order[k].op != 1
  {
    var a := Placed(h, order, 1);
    b := Placed(h, order, 3);
    g := Placed(h, order, 5);
    PlacedBefore(h, order, 1, 2, a, b);
    PlacedBefore(h, order, 3, 4, b, g);
    OnlyAt(order, a);
    OnlyAt(order, b);
  }

  lemma OnlyAt(order: seq<Entry>, a: nat)
    requires Once(order) && a < |order|
    ensures forall k :: 0 <= k < |order| && k != a ==> order[k].op != order[a].op
  {
  }

  lemma StaleReadUnexplained(h: seq<Event>, m1: FileMetadata, m2: FileMetadata, order: seq<Entry>)
    requires IsStaleRead(h, m1, m2)
    ensures !Linearizes(h, order, false)
  {
    if Linearizes(h, order, false) {
      var b, g := StaleReadPlaces(h, m1, m2, order);
      StaleReadEntry(h, m1, m2, order, b);
      StaleReadEntry(h, m1, m2, order, g);
      forall l: nat | b < l < g
        ensures !PutOf(order[l], m1.filename)
      {
        StaleReadEntry(h, m1, m2, order, l);
      }
      LastPutDecides(order, b, g, m1.filename);
      assert false;
    }
  }

  // ----- From a path to a run -----

  ghost predicate RunKeeping(n: nat, a: Keeps, states: seq<Sys>, steps: seq<Step>) {
    Run(n, states, steps) && forall i :: 0 <= i < |steps| ==> Allowed(a, states[i], steps[i])
  }

  ghost predicate Shows(n: nat, a: Keeps, states: seq<Sys>, steps: seq<Step>, h: seq<Event>) {
    RunKeeping(n, a, states, steps) && History(states, steps, |steps|) == h
  }

  lemma {:induction false} HistoryPrefix(states: seq<Sys>, steps: seq<Step>, states2: seq<Sys>, steps2: seq<Step>, k: nat)
    requires k <= |steps| < |states| && states <= states2 && steps <= steps2 && |steps2| < |states2|
    requires forall i :: 0 <= i < |steps2| ==> Enabled(states2[i], steps2[i])
    requires forall i :: 0 <= i < |steps| ==> Enabled(states[i], steps[i])
    ensures History(states2, steps2, k) == History(states, steps, k)
  {
    if k > 0 {
      HistoryPrefix(states, steps, states2, steps2, k - 1);
    }
  }

  lemma OneMoreStep(n: nat, a: Keeps, states: seq<Sys>, steps: seq<Step>, h: seq<Event>, st: Step)
    requires Shows(n, a, states, steps, h) && Allowed(a, states[|steps|], st)
    ensures Shows(n, a, states + [Next(states[|steps|], st)], steps + [st], h + Observed(states[|steps|], st))
  {
    hide Enabled, CrashesAtEnd, OneUploadAtATime, Next, Observed;
    var last := states[|steps|];
    var states2, steps2 := states + [Next(last, st)], steps + [st];
    forall i | 0 <= i < |steps2|
      ensures Allowed(a, states2[i], steps2[i]) && states2[i + 1] == Next(states2[i], steps2[i])
    {
      if i < |steps| {
        assert Allowed(a, states[i], steps[i]) && states[i + 1] == Next(states[i], steps[i]);
      }
    }
    hide Allowed;
    HistoryPrefix(states, steps, states2, steps2, |steps|);
  }

  lemma {:induction false} PathIsRun(n: nat, a: Keeps, p: Path, s: Sys, h: seq<Event>)
      returns (states: seq<Sys>, steps: seq<Step>)
    requires Leads(n, a, p, s, h)
    ensures Shows(n, a, states, steps, h) && states[|steps|] == s
  {
    hide Enabled, CrashesAtEnd, OneUploadAtATime, Next, Observed;
    match p
    case Begin =>
      states, steps := [Initial(n)], [];
    case Then(before, st) =>
      var s0, h0 :| Leads(n, a, before, s0, h0) && Allowed(a, s0, st) && s == Next(s0, st) && h == h0 + Observed(s0, st);
      states, steps := PathIsRun(n, a, before, s0, h0);
      hide Leads, Shows;
      OneMoreStep(n, a, states, steps, h0, st);
      states, steps := states + [s], steps + [st];
  }

  lemma StaleReadRun(n: nat, a: Keeps, s: Sys, m1: FileMetadata, m2: FileMetadata)
      returns (states: seq<Sys>, steps: seq<Step>)
    requires Reaches(n, a, s, StaleRead(m1, m2)) && m1 != m2 && m1.filename == m2.filename
    ensures RunKeeping(n, a, states, steps) && !Linearizable(History(states, steps, |steps|), false)
  {
    var h := StaleRead(m1, m2);
    assert IsStaleRead(h, m1, m2);
    var p :| Leads(n, a, p, s, h);
    states, steps := PathIsRun(n, a, p, s, h);
    forall order
      ensures !Linearizes(h, order, false)
    {
      StaleReadUnexplained(h, m1, m2, order);
    }
  }

  // ----- The initial chain -----

  lemma InitialNode(n: nat, i: nat)
    requires i < n
    ensures Initial(n).nodes[i] == Constructed(if i + 1 < n then i + 1 else NO_PORT) && Up(Initial(n), i)
  {
  }

  lemma {:induction false} InitialPath(n: nat, i: nat)
    requires i < n
    ensures LivePath(Initial(n), i)
    decreases n - i
  {
    InitialNode(n, i);
    if i + 1 < n {
      InitialPath(n, i + 1);
    }
  }

  /** The chain passes a PUT on from every node but the last, each to the node after it. */
  ghost predicate Straight(nodes: seq<NodeView>, from: nat) {
    forall i :: from <= i < |nodes| ==>
      (Forwards(nodes[i]) <==> i < |nodes| - 1) && (i < |nodes| - 1 ==> nodes[i].next == i + 1)
  }

  lemma {:induction false} PushReachesLast(nodes: seq<NodeView>, i: nat, meta: FileMetadata)
    requires i < |nodes| && Straight(nodes, i)
    ensures var last := Pushed(nodes, i, meta)[|nodes| - 1];
            meta.filename in last.store && last.store[meta.filename] == meta
    decreases |nodes| - i
  {
    if i < |nodes| - 1 {
      PushReachesLast(nodes[i := Stored(nodes[i], meta)], i + 1, meta);
    } else {
      PushedLinks(nodes, i, meta, i);
    }
  }

  lemma InitialStraight(n: nat)
    ensures Straight(Initial(n).nodes, 0)
  {
    forall i: nat | i < n
      ensures Initial(n).nodes[i] == Constructed(if i + 1 < n then i + 1 else NO_PORT)
    {
      InitialNode(n, i);
    }
  }

  // ----- A node in the middle crashes -----

  /** After m1 was uploaded, node 1 crashes and node 0, which has no skip node, becomes the end of
      the chain, although the old tail is still up. */
  lemma SplitChain(n: nat, a: Keeps, m1: FileMetadata) returns (s: Sys)
    requires n >= 3 && !a.endCrashes && Wire.WellFormed(m1)
    ensures Reaches(n, a, s, [Inv(0, PutCall(m1)), Ret(0, PutAcked)])
    ensures Up(s, 0) && Terminal(s.nodes[0]) && Up(s, n - 1) && Terminal(s.nodes[n - 1])
    ensures m1.filename in s.nodes[n - 1].store && s.nodes[n - 1].store[m1.filename] == m1
    ensures |s.ops| == 1 && s.ops[0].result.Some?
  {
    var s0 := Initial(n);
    Start(n, a);
    InitialPath(n, 0);
    var s1 := UndisturbedUpload(n, a, s0, [], m1, 0);
    var h := [Inv(0, PutCall(m1)), Ret(0, PutAcked)];
    assert [] + h == h;
    InitialStraight(n);
    PushReachesLast(s0.nodes, 0, m1);
    PushedLinks(s0.nodes, 0, m1, 0);
    PushedLinks(s0.nodes, 0, m1, n - 1);
    InitialNode(n, 0);
    InitialNode(n, 1);
    InitialNode(n, n - 1);
    s := CrashAndBecomeEnd(n, a, s1, h, 0, 1);
  }

  /** Node i finds out that its next node has crashed and, without a skip node, becomes the end. */
  lemma BecomeEnd(n: nat, a: Keeps, s: Sys, h: seq<Event>, i: nat) returns (t: Sys)
    requires Reaches(n, a, s, h) && i < n && s.nodes[i].next != NO_PORT && !Up(s, s.nodes[i].next)
    requires s.nodes[i].skip == NO_PORT
    ensures Reaches(n, a, t, h)
    ensures t.alive == s.alive && t.nodes == s.nodes[i := NextFailed(s.nodes[i])]
    ensures t.ops == s.ops && t.frames == s.frames
  {
    GoQuietly(n, a, s, h, Suspect(i));
    var u := Next(s, Suspect(i));
    GoQuietly(n, a, u, h, HandleFailure(i));
    t := DoHandleFailure(u, i);
  }

  lemma CrashAndBecomeEnd(n: nat, a: Keeps, s: Sys, h: seq<Event>, i: nat, next: nat) returns (t: Sys)
    requires Reaches(n, a, s, h) && i < n && next < n && Up(s, next) && s.nodes[i].next == next && s.nodes[i].skip == NO_PORT
    requires a.endCrashes ==> CrashesAtEnd(s, Crash(next))
    ensures Reaches(n, a, t, h)
    ensures t.alive == s.alive[next := false] && t.nodes == s.nodes[i := NextFailed(s.nodes[i])]
    ensures t.ops == s.ops && t.frames == s.frames
  {
    GoQuietly(n, a, s, h, Crash(next));
    t := BecomeEnd(n, a, Next(s, Crash(next)), h, i);
  }

  /** The front part of the split chain acknowledges an upload of m2 that the old tail never sees. */
  lemma SplitUpload(n: nat, a: Keeps, s: Sys, h: seq<Event>, m2: FileMetadata) returns (t: Sys)
    requires n >= 3 && Reaches(n, a, s, h) && Wire.WellFormed(m2)
    requires Up(s, 0) && Terminal(s.nodes[0]) && |s.ops| == 1 && s.ops[0].result.Some?
    ensures Reaches(n, a, t, h + [Inv(1, PutCall(m2)), Ret(1, PutAcked)])
    ensures t.alive == s.alive && t.nodes[n - 1] == s.nodes[n - 1]
    ensures |t.ops| == 2
  {
    t := UndisturbedUpload(n, a, s, h, m2, 0);
    PushedLinks(s.nodes, 0, m2, n - 1);
  }

  /** Without a skip node, a crash in the middle splits the chain: uploads are acknowledged by the
      front part while downloads are answered by the old tail. Uploads never overlap here. */
  lemma MiddleCrashNotLinearizable(n: nat, m1: FileMetadata, m2: FileMetadata)
      returns (states: seq<Sys>, steps: seq<Step>)
    requires n >= 3 && Wire.WellFormed(m1) && Wire.WellFormed(m2) && m1 != m2 && m1.filename == m2.filename
    ensures RunKeeping(n, Keeps(false, true), states, steps)
    ensures !Linearizable(History(states, steps, |steps|), false)
  {
    var a := Keeps(false, true);
    var s := SplitChain(n, a, m1);
    var h1 := [Inv(0, PutCall(m1)), Ret(0, PutAcked)];
    var s2 := SplitUpload(n, a, s, h1, m2);
    states, steps := OldCopyRead(n, a, s2, h1, m1, m2);
  }

  /** The last node still has m1 after m2 was acknowledged: a download completes the stale read. */
  lemma OldCopyRead(n: nat, a: Keeps, s: Sys, h1: seq<Event>, m1: FileMetadata, m2: FileMetadata)
      returns (states: seq<Sys>, steps: seq<Step>)
    requires n > 0 && m1 != m2 && m1.filename == m2.filename && h1 == [Inv(0, PutCall(m1)), Ret(0, PutAcked)]
    requires Reaches(n, a, s, h1 + [Inv(1, PutCall(m2)), Ret(1, PutAcked)]) && |s.ops| == 2
    requires Up(s, n - 1) && Terminal(s.nodes[n - 1])
    requires m1.filename in s.nodes[n - 1].store && s.nodes[n - 1].store[m1.filename] == m1
    ensures RunKeeping(n, a, states, steps)
    ensures !Linearizable(History(states, steps, |steps|), false)
  {
    var h2 := h1 + [Inv(1, PutCall(m2)), Ret(1, PutAcked)];
    var t := UndisturbedDownload(n, a, s, h2, m1.filename, n - 1);
    assert h2 + [Inv(2, GetCall(m1.filename)), Ret(2, GetFound(m1))] == StaleRead(m1, m2);
    states, steps := StaleReadRun(n, a, t, m1, m2);
  }

  // ----- The head crashes -----

  lemma FirstConnect(n: nat, a: Keeps, m1: FileMetadata) returns (s: Sys)
    requires n >= 1 && Wire.WellFormed(m1)
    ensures Reaches(n, a, s, [Inv(0, PutCall(m1))])
    ensures s == Initial(n).(ops := [Op(PutCall(m1), 0, Some(0), None)], frames := [PutFrame(0, 0, None, Arrived)])
  {
    var s0 := Initial(n);
    Start(n, a);
    var h := [Inv(0, PutCall(m1))];
    Go(n, a, s0, [], InvokePut(m1));
    assert [] + h == h;
    var s1 := Next(s0, InvokePut(m1));
    InitialNode(n, 0);
    GoQuietly(n, a, s1, h, ClientConnect(0));
    s := DoClientConnect(s1, 0);
  }

  /** The upload of m1 is on its way from the head to node 1. */
  lemma OnItsWay(n: nat, a: Keeps, m1: FileMetadata) returns (s: Sys)
    requires n >= 2 && Wire.WellFormed(m1)
    ensures Reaches(n, a, s, [Inv(0, PutCall(m1))])
    ensures s.alive == Initial(n).alive && s.suspect == Initial(n).suspect
    ensures s.nodes == Initial(n).nodes[0 := Stored(Initial(n).nodes[0], m1)]
    ensures s.ops == [Op(PutCall(m1), 0, Some(0), None)]
    ensures s.frames == [PutFrame(0, 0, None, Waiting(1)), PutFrame(0, 1, Some(0), Arrived)]
  {
    var h := [Inv(0, PutCall(m1))];
    InitialNode(n, 0);
    InitialNode(n, 1);
    var s2 := FirstConnect(n, a, m1);
    var s3 := StoreAndDecide(n, a, s2, h, 0);
    s := ConnectNext(n, a, s3, h, 0);
  }

  /** The head crashes before node 1 has stored the upload of m1; the client goes on to node 1,
      which acknowledges. The first request is still there, as handler 1. */
  lemma OrphanRequest(n: nat, a: Keeps, m1: FileMetadata) returns (s: Sys)
    requires n >= 2 && !a.endCrashes && Wire.WellFormed(m1)
    ensures Reaches(n, a, s, [Inv(0, PutCall(m1)), Ret(0, PutAcked)])
    ensures s.nodes[1..] == Pushed(Initial(n).nodes, 1, m1)[1..] && s.alive == Initial(n).alive[0 := false]
    ensures |s.ops| == 1 && s.ops[0].result.Some? && s.ops[0].call == PutCall(m1)
    ensures |s.frames| > 1 && s.frames[1] == PutFrame(0, 1, Some(0), Arrived)
  {
    var h := [Inv(0, PutCall(m1))];
    var s4 := OnItsWay(n, a, m1);
    s := HeadCrashes(n, a, s4, h, m1);
    PushedLocal(Initial(n).nodes, s4.nodes, 1, m1);
    assert s.frames[..2][1] == s.frames[1];
    assert h + [Ret(0, PutAcked)] == [Inv(0, PutCall(m1)), Ret(0, PutAcked)];
  }

  lemma HeadCrashes(n: nat, a: Keeps, s: Sys, h: seq<Event>, m1: FileMetadata) returns (t: Sys)
    requires n >= 2 && !a.endCrashes && Reaches(n, a, s, h)
    requires s.alive == Initial(n).alive && s.nodes[1..] == Initial(n).nodes[1..]
    requires s.ops == [Op(PutCall(m1), 0, Some(0), None)]
    requires |s.frames| == 2 && s.frames[0].PutFrame? && s.frames[0].op == 0 && s.frames[0].node == 0
    ensures Reaches(n, a, t, h + [Ret(0, PutAcked)])
    ensures t.nodes == Pushed(s.nodes, 1, m1) && t.alive == s.alive[0 := false]
    ensures |t.ops| == 1 && t.ops[0].result.Some? && t.ops[0].call == PutCall(m1)
    ensures |t.frames| >= 2 && t.frames[..2] == s.frames
  {
    assert Shape(s, n);
    hide Reaches, Pushed, LivePath;
    GoQuietly(n, a, s, h, Crash(0));
    var s1 := Next(s, Crash(0));
    GoQuietly(n, a, s1, h, ClientLost(0));
    var s2 := Next(s1, ClientLost(0));
    InitialPath(n, 1);
    PathInRest(Initial(n), s2, 1);
    t := ConnectAndPass(n, a, s2, h, 0);
  }

  lemma {:induction false} PathInRest(s: Sys, t: Sys, i: nat)
    requires LivePath(s, i) && i >= 1 && |t.nodes| == |s.nodes| && |t.alive| == |s.alive|
    requires t.nodes[1..] == s.nodes[1..] && t.alive[1..] == s.alive[1..]
    ensures LivePath(t, i)
    decreases |s.nodes| - i
  {
    assert t.nodes[i] == t.nodes[1..][i - 1] && s.nodes[i] == s.nodes[1..][i - 1];
    assert t.alive[i] == t.alive[1..][i - 1] && s.alive[i] == s.alive[1..][i - 1];
    if Forwards(s.nodes[i]) {
      PathInRest(s, t, s.nodes[i].next);
    }
  }

  /** A push from node i does not depend on the nodes before it. */
  lemma {:induction false} PushedLocal(nodes: seq<NodeView>, others: seq<NodeView>, i: nat, meta: FileMetadata)
    requires 1 <= i < |nodes| == |others| && nodes[1..] == others[1..]
    ensures Pushed(nodes, i, meta)[1..] == Pushed(others, i, meta)[1..]
    decreases |nodes| - i
  {
    assert nodes[i] == nodes[1..][i - 1] && others[i] == others[1..][i - 1];
    var stored := Stored(nodes[i], meta);
    assert nodes[i := stored][1..] == nodes[1..][i - 1 := stored];
    assert others[i := stored][1..] == others[1..][i - 1 := stored];
    if Forwards(nodes[i]) && i < nodes[i].next < |nodes| {
      PushedLocal(nodes[i := stored], others[i := stored], nodes[i].next, meta);
    }
  }

  /** Same links as in the initial chain, whatever the tables. */
  ghost predicate SameLinks(nodes: seq<NodeView>, others: seq<NodeView>, from: nat) {
    |nodes| == |others| &&
    forall i :: from <= i < |nodes| ==> nodes[i].next == others[i].next && nodes[i].role == others[i].role
  }

  lemma PushedSameLinks(nodes: seq<NodeView>, i: nat, meta: FileMetadata, from: nat)
    ensures SameLinks(Pushed(nodes, i, meta), nodes, from)
  {
    forall j: nat | j < |nodes|
      ensures Pushed(nodes, i, meta)[j].next == nodes[j].next && Pushed(nodes, i, meta)[j].role == nodes[j].role
    {
      PushedLinks(nodes, i, meta, j);
    }
  }

  lemma {:induction false} PathWithSameLinks(n: nat, t: Sys, i: nat)
    requires 1 <= i < n && Shape(t, n) && t.alive[1..] == Initial(n).alive[1..]
    requires SameLinks(t.nodes, Initial(n).nodes, 1)
    ensures LivePath(t, i)
    decreases n - i
  {
    InitialNode(n, i);
    assert t.alive[i] == t.alive[1..][i - 1] && Initial(n).alive[i] == Initial(n).alive[1..][i - 1];
    if i + 1 < n {
      PathWithSameLinks(n, t, i + 1);
    }
  }

  lemma TailOfSameLinks(n: nat, t: Sys)
    requires n >= 2 && Shape(t, n) && t.alive[1..] == Initial(n).alive[1..] && SameLinks(t.nodes, Initial(n).nodes, 1)
    ensures Up(t, n - 1) && Terminal(t.nodes[n - 1]) && Straight(t.nodes, 1)
  {
    InitialNode(n, n - 1);
    InitialStraight(n);
    assert t.alive[n - 1] == t.alive[1..][n - 2] && Initial(n).alive[n - 1] == Initial(n).alive[1..][n - 2];
  }

  lemma DropLinks(n: nat, t: Sys, nodes: seq<NodeView>)
    requires n >= 2 && |t.nodes| == |nodes| == n && t.nodes[1..] == nodes[1..] && SameLinks(nodes, Initial(n).nodes, 1)
    ensures SameLinks(t.nodes, Initial(n).nodes, 1)
  {
    forall i | 1 <= i < n
      ensures t.nodes[i] == nodes[i]
    {
      assert t.nodes[i] == t.nodes[1..][i - 1] && nodes[i] == nodes[1..][i - 1];
    }
  }

  /** The head is down, the rest of the chain is intact, and handler 1 still has to serve m1. */
  ghost predicate OrphanWaits(n: nat, s: Sys, m1: FileMetadata) {
    && 0 < n && Shape(s, n) && s.alive == Initial(n).alive[0 := false] && SameLinks(s.nodes, Initial(n).nodes, 1)
    && |s.ops| > 0 && s.ops[0].result.Some? && s.ops[0].call == PutCall(m1)
    && |s.frames| > 1 && s.frames[1] == PutFrame(0, 1, Some(0), Arrived)
  }

  lemma LaterUpload(n: nat, a: Keeps, s: Sys, h: seq<Event>, m1: FileMetadata, m2: FileMetadata) returns (t: Sys)
    requires n >= 2 && Reaches(n, a, s, h) && Wire.WellFormed(m2) && OrphanWaits(n, s, m1) && |s.ops| == 1
    ensures Reaches(n, a, t, h + [Inv(1, PutCall(m2)), Ret(1, PutAcked)])
    ensures OrphanWaits(n, t, m1) && |t.ops| == 2
  {
    assert s.alive[1..] == Initial(n).alive[1..];
    PathWithSameLinks(n, s, 1);
    t := UndisturbedUpload(n, a, s, h, m2, 1);
    PushedSameLinks(s.nodes, 1, m2, 1);
    assert t.frames[1] == t.frames[..|s.frames|][1] && t.ops[0] == t.ops[..|s.ops|][0];
  }

  /** The orphan request is served: it overwrites whatever came after it. */
  lemma OrphanServed(n: nat, a: Keeps, s: Sys, h: seq<Event>, m1: FileMetadata) returns (t: Sys)
    requires n >= 2 && Reaches(n, a, s, h) && OrphanWaits(n, s, m1)
    ensures Reaches(n, a, t, h) && t.ops == s.ops && Up(t, n - 1) && Terminal(t.nodes[n - 1])
    ensures m1.filename in t.nodes[n - 1].store && t.nodes[n - 1].store[m1.filename] == m1
  {
    assert s.alive[1..] == Initial(n).alive[1..];
    PathWithSameLinks(n, s, 1);
    TailOfSameLinks(n, s);
    t := PassOn(n, a, s, h, 1);
    PushReachesLast(s.nodes, 1, m1);
    PushedSameLinks(s.nodes, 1, m1, 1);
    TailOfSameLinks(n, t);
  }

  /** When the head crashes, a request it had already passed on may be served after later uploads
      were acknowledged, and bring an old version back. Uploads never overlap here either. */
  lemma HeadCrashNotLinearizable(n: nat, m1: FileMetadata, m2: FileMetadata)
      returns (states: seq<Sys>, steps: seq<Step>)
    requires n >= 2 && Wire.WellFormed(m1) && Wire.WellFormed(m2) && m1 != m2 && m1.filename == m2.filename
    ensures RunKeeping(n, Keeps(false, true), states, steps)
    ensures !Linearizable(History(states, steps, |steps|), false)
  {
    var a := Keeps(false, true);
    var h1 := [Inv(0, PutCall(m1)), Ret(0, PutAcked)];
    var s := OrphanRequest(n, a, m1);
    PushedSameLinks(Initial(n).nodes, 1, m1, 1);
    DropLinks(n, s, Pushed(Initial(n).nodes, 1, m1));
    var u := LaterUpload(n, a, s, h1, m1, m2);
    var t := OrphanServed(n, a, u, h1 + [Inv(1, PutCall(m2)), Ret(1, PutAcked)], m1);
    states, steps := OldCopyRead(n, a, t, h1, m1, m2);
  }

  // ----- Overlapping uploads and crashes at the end -----

  /** Both uploads are acknowledged; then one download returns m1, and a later one m2. */
  ghost predicate IsFlip(h: seq<Event>, m1: FileMetadata, m2: FileMetadata) {
    && |h| == 8 && m1 != m2 && m1.filename == m2.filename
    && h[0] == Inv(0, PutCall(m1)) && h[1] == Inv(1, PutCall(m2)) && h[2] == Ret(1, PutAcked) && h[3] == Ret(0, PutAcked)
    && h[4] == Inv(2, GetCall(m1.filename)) && h[5] == Ret(2, GetFound(m1))
    && h[6] == Inv(3, GetCall(m1.filename)) && h[7] == Ret(3, GetFound(m2))
  }

  lemma FlipEntry(h: seq<Event>, m1: FileMetadata, m2: FileMetadata, order: seq<Entry>, k: nat)
    requires IsFlip(h, m1, m2) && OnlyInvoked(h, order) && k < |order|
    ensures PutOf(order[k], m1.filename) ==> order[k] == Entry(0, PutCall(m1)) || order[k] == Entry(1, PutCall(m2))
    ensures order[k].op == 2 || order[k].op == 3 ==> order[k].call == GetCall(m1.filename)
  {
    var e := Inv(order[k].op, order[k].call);
    assert e in h;
    var i :| 0 <= i < |h| && h[i] == e;
    assert i == 0 || i == 1 || i == 4 || i == 6;
  }

  /** Both uploads come before both downloads. */
  lemma FlipPlaces(h: seq<Event>, m1: FileMetadata, m2: FileMetadata, order: seq<Entry>)
      returns (a: nat, b: nat, g: nat, r: nat)
    requires IsFlip(h, m1, m2) && Answered(h, order, false) && RealTime(h, order)
    ensures a < g < r < |order| && b < g && order[a].op == 0 && order[b].op == 1 && order[g].op == 2 && order[r].op == 3
    ensures AnswerAt(order, g) == GetFound(m1) && AnswerAt(order, r) == GetFound(m2)
  {
    b := Placed(h, order, 2);
    a := Placed(h, order, 3);
    g := Placed(h, order, 5);
    r := Placed(h, order, 7);
    PlacedBefore(h, order, 3, 4, a, g);
    PlacedBefore(h, order, 2, 4, b, g);
    PlacedBefore(h, order, 5, 6, g, r);
  }

  /** Nothing is uploaded between the downloads, so they cannot disagree. */
  lemma FlipDisagrees(h: seq<Event>, m1: FileMetadata, m2: FileMetadata, order: seq<Entry>, a: nat, b: nat, g: nat, r: nat)
    requires IsFlip(h, m1, m2) && m1 != m2 && OnlyInvoked(h, order) && Once(order)
    requires a < g < r < |order| && b < g && order[a].op == 0 && order[b].op == 1 && order[g].op == 2 && order[r].op == 3
    ensures AnswerAt(order, g) != GetFound(m1) || AnswerAt(order, r) != GetFound(m2)
  {
    hide Replay, IsFlip, OnlyInvoked;
    FlipEntry(h, m1, m2, order, g);
    FlipEntry(h, m1, m2, order, r);
    OnlyAt(order, a);
    OnlyAt(order, b);
    hide Once;
    forall l: nat | g <= l < r
      ensures !PutOf(order[l], m1.filename)
    {
      FlipEntry(h, m1, m2, order, l);
    }
    SameTable(order, g, r, m1.filename);
  }

  lemma FlipUnexplained(h: seq<Event>, m1: FileMetadata, m2: FileMetadata, order: seq<Entry>)
    requires IsFlip(h, m1, m2)
    ensures !Linearizes(h, order, false)
  {
    hide Once, OnlyInvoked, Answered, RealTime, AnswerAt;
    if Linearizes(h, order, false) {
      var a, b, g, r := FlipPlaces(h, m1, m2, order);
      FlipDisagrees(h, m1, m2, order, a, b, g, r);
      assert false;
    }
  }

  /** Without an upload of the file in between, its entry does not change. */
  lemma {:induction false} SameTable(order: seq<Entry>, g: nat, r: nat, file: string)
    requires g <= r <= |order| && forall l: nat :: g <= l < r ==> !PutOf(order[l], file)
    ensures file in Replay(order[..r]) <==> file in Replay(order[..g])
    ensures file in Replay(order[..r]) ==> Replay(order[..r])[file] == Replay(order[..g])[file]
  {
    if g < r {
      SameTable(order, g, r - 1, file);
      assert order[..r][..r - 1] == order[..r - 1];
      assert !PutOf(order[r - 1], file);
    }
  }

  lemma PrefixKept<T>(s: seq<T>, t: seq<T>, i: nat)
    requires i < |s| <= |t| && t[..|s|] == s
    ensures t[i] == s[i]
  {
    assert t[..|s|][i] == t[i];
  }

  /** All nodes are up, and only their tables have changed. */
  ghost predicate Whole(n: nat, s: Sys) {
    Shape(s, n) && s.alive == Initial(n).alive && SameLinks(s.nodes, Initial(n).nodes, 0)
  }

  /** Handler 0 at the head waits for handler 1 at node 1, which has not begun. */
  ghost predicate HeldUp(n: nat, s: Sys, m1: FileMetadata) {
    && Whole(n, s) && |s.frames| >= 2 && |s.ops| >= 1
    && s.frames[0] == PutFrame(0, 0, None, Waiting(1)) && s.frames[1] == PutFrame(0, 1, Some(0), Arrived)
    && s.ops[0] == Op(PutCall(m1), 0, Some(0), None)
  }

  lemma {:induction false} WholePath(n: nat, t: Sys, i: nat)
    requires i < n && Whole(n, t)
    ensures LivePath(t, i)
    decreases n - i
  {
    InitialNode(n, i);
    if i + 1 < n {
      WholePath(n, t, i + 1);
    }
  }

  lemma WholeStraight(n: nat, s: Sys, i: nat)
    requires Whole(n, s)
    ensures Straight(s.nodes, i)
  {
    InitialStraight(n);
  }

  /** While the first upload is held up between the head and node 1, a second one gets through. */
  lemma SecondGetsThrough(n: nat, a: Keeps, m1: FileMetadata, m2: FileMetadata) returns (t: Sys)
    requires n >= 2 && !a.oneUpload && Wire.WellFormed(m1) && Wire.WellFormed(m2)
    ensures Reaches(n, a, t, [Inv(0, PutCall(m1)), Inv(1, PutCall(m2)), Ret(1, PutAcked)])
    ensures HeldUp(n, t, m1) && |t.ops| == 2 && t.nodes[0].(store := map[]) == Constructed(1)
    ensures m2.filename in t.nodes[0].store && t.nodes[0].store[m2.filename] == m2
  {
    var s := OnItsWay(n, a, m1);
    InitialNode(n, 0);
    assert Whole(n, s);
    WholePath(n, s, 0);
    var h := [Inv(0, PutCall(m1))];
    t := UndisturbedUpload(n, a, s, h, m2, 0);
    PushedLinks(s.nodes, 0, m2, 0);
    PushedSameLinks(s.nodes, 0, m2, 0);
    PrefixKept(s.frames, t.frames, 0);
    PrefixKept(s.frames, t.frames, 1);
    PrefixKept(s.ops, t.ops, 0);
    assert h + [Inv(1, PutCall(m2)), Ret(1, PutAcked)] == [Inv(0, PutCall(m1)), Inv(1, PutCall(m2)), Ret(1, PutAcked)];
  }

  /** Handler 1 has passed the first upload down to the end; handler 0 does not know yet. */
  ghost predicate PassedDown(n: nat, s: Sys, u: Sys, m1: FileMetadata) {
    && Whole(n, u) && u.ops == s.ops && |s.nodes| > 0 && |u.nodes| > 0 && u.nodes[0] == s.nodes[0]
    && |u.frames| >= 2 && |s.frames| >= 2 && u.frames[0] == s.frames[0]
    && u.frames[1].PutFrame? && u.frames[1].op == 0 && u.frames[1].node == 1 && u.frames[1].put.Acked?
    && m1.filename in u.nodes[n - 1].store && u.nodes[n - 1].store[m1.filename] == m1
  }

  lemma FirstPassesDown(n: nat, a: Keeps, s: Sys, h: seq<Event>, m1: FileMetadata) returns (u: Sys)
    requires n >= 2 && Reaches(n, a, s, h) && HeldUp(n, s, m1)
    ensures Reaches(n, a, u, h) && PassedDown(n, s, u, m1)
  {
    WholePath(n, s, 1);
    WholeStraight(n, s, 1);
    InitialNode(n, 0);
    u := PassOn(n, a, s, h, 1);
    PushReachesLast(s.nodes, 1, m1);
    PushedLinks(s.nodes, 1, m1, 0);
    PushedSameLinks(s.nodes, 1, m1, 0);
    hide Pushed, LivePath, Reaches, Straight, SameLinks;
    assert u.frames[0] == s.frames[0];
  }

  /** The first upload goes on from node 1 and is acknowledged; the head keeps the second one. */
  lemma FirstFinishes(n: nat, a: Keeps, s: Sys, h: seq<Event>, m1: FileMetadata) returns (t: Sys)
    requires n >= 2 && Reaches(n, a, s, h) && HeldUp(n, s, m1)
    ensures Reaches(n, a, t, h + [Ret(0, PutAcked)])
    ensures Whole(n, t) && |t.ops| == |s.ops| && t.nodes[0] == s.nodes[0]
    ensures m1.filename in t.nodes[n - 1].store && t.nodes[n - 1].store[m1.filename] == m1
  {
    var u := FirstPassesDown(n, a, s, h, m1);
    InitialNode(n, 0);
    hide Reaches, SameLinks;
    var v := Relay(n, a, u, h, 0);
    Go(n, a, v, h, ClientReply(0));
    t := DoClientReply(v, 0);
  }

  /** The nodes from i on have crashed, and nothing else has changed. */
  ghost predicate CutAt(n: nat, s: Sys, t: Sys, i: nat) {
    && Shape(s, n) && Shape(t, n) && t.nodes == s.nodes && t.ops == s.ops
    && (forall j :: 0 <= j < i && j < n ==> t.alive[j] == s.alive[j]) && Down(t.alive, i, n)
  }

  /** The nodes after the first crash one after the other, each as the last live node. */
  lemma {:induction false} CrashDownTo(n: nat, a: Keeps, s: Sys, h: seq<Event>, i: nat) returns (t: Sys)
    requires 1 <= i <= n && Reaches(n, a, s, h) && s.alive == Initial(n).alive
    ensures Reaches(n, a, t, h) && CutAt(n, s, t, i)
    decreases n - i
  {
    if i == n {
      t := s;
    } else {
      var u := CrashDownTo(n, a, s, h, i + 1);
      InitialNode(n, i);
      assert Up(u, i);
      GoQuietly(n, a, u, h, Crash(i));
      t := Next(u, Crash(i));
    }
  }

  /** The head alone is left, and answers with the second upload. */
  lemma HeadAnswers(n: nat, a: Keeps, s: Sys, h: seq<Event>, m2: FileMetadata) returns (t: Sys)
    requires n >= 2 && Reaches(n, a, s, h) && Whole(n, s) && s.nodes[0].(store := map[]) == Constructed(1)
    requires m2.filename in s.nodes[0].store && s.nodes[0].store[m2.filename] == m2
    ensures Reaches(n, a, t, h + [Inv(|s.ops|, GetCall(m2.filename)), Ret(|s.ops|, GetFound(m2))])
  {
    InitialNode(n, 0);
    var u := CrashDownTo(n, a, s, h, 1);
    var v := BecomeEnd(n, a, u, h, 0);
    t := UndisturbedDownload(n, a, v, h, m2.filename, 0);
  }

  /** A download at the end of the whole chain still finds m1. */
  lemma TailAnswers(n: nat, a: Keeps, s: Sys, h: seq<Event>, m1: FileMetadata) returns (t: Sys)
    requires n >= 2 && Reaches(n, a, s, h) && Whole(n, s)
    requires m1.filename in s.nodes[n - 1].store && s.nodes[n - 1].store[m1.filename] == m1
    ensures Reaches(n, a, t, h + [Inv(|s.ops|, GetCall(m1.filename)), Ret(|s.ops|, GetFound(m1))])
    ensures Whole(n, t) && t.nodes == s.nodes && |t.ops| == |s.ops| + 1
  {
    InitialNode(n, n - 1);
    t := UndisturbedDownload(n, a, s, h, m1.filename, n - 1);
  }

  /** Overlapping uploads of one file break linearizability even when only the last live node
      crashes, in every chain of two nodes or more: the nodes have stored them in different orders. */
  lemma OverlapNotLinearizable(n: nat, m1: FileMetadata, m2: FileMetadata)
      returns (states: seq<Sys>, steps: seq<Step>)
    requires n >= 2 && Wire.WellFormed(m1) && Wire.WellFormed(m2) && m1 != m2 && m1.filename == m2.filename
    ensures RunKeeping(n, Keeps(true, false), states, steps)
    ensures !Linearizable(History(states, steps, |steps|), false)
  {
    hide *;
    var a := Keeps(true, false);
    var h := [Inv(0, PutCall(m1)), Inv(1, PutCall(m2)), Ret(1, PutAcked)];
    var s := SecondGetsThrough(n, a, m1, m2);
    s := FirstFinishes(n, a, s, h, m1);
    s := TailAnswers(n, a, s, h + [Ret(0, PutAcked)], m1);
    h := h + [Ret(0, PutAcked)] + [Inv(2, GetCall(m1.filename)), Ret(2, GetFound(m1))];
    s := HeadAnswers(n, a, s, h, m2);
    h := h + [Inv(3, GetCall(m2.filename)), Ret(3, GetFound(m2))];
    FlipEvents(h, m1, m2);
    states, steps := FlipRun(n, a, s, h, m1, m2);
  }

  lemma FlipEvents(h: seq<Event>, m1: FileMetadata, m2: FileMetadata)
    requires m1 != m2 && m1.filename == m2.filename
    requires h == [Inv(0, PutCall(m1)), Inv(1, PutCall(m2)), Ret(1, PutAcked)] + [Ret(0, PutAcked)]
                  + [Inv(2, GetCall(m1.filename)), Ret(2, GetFound(m1))]
                  + [Inv(3, GetCall(m2.filename)), Ret(3, GetFound(m2))]
    ensures IsFlip(h, m1, m2)
  {
  }

  lemma FlipRun(n: nat, a: Keeps, s: Sys, h: seq<Event>, m1: FileMetadata, m2: FileMetadata)
      returns (states: seq<Sys>, steps: seq<Step>)
    requires Reaches(n, a, s, h) && IsFlip(h, m1, m2)
    ensures RunKeeping(n, a, states, steps) && !Linearizable(History(states, steps, |steps|), false)
  {
    var p :| Leads(n, a, p, s, h);
    states, steps := PathIsRun(n, a, p, s, h);
    forall order
      ensures !Linearizes(h, order, false)
    {
      FlipUnexplained(h, m1, m2, order);
    }
  }

  // ----- The exact condition -----

  /** Every run that keeps the assumptions of `a` is linearizable in acknowledged PUTs and successful
      GETs. */
  ghost predicate AllLinearizable(n: nat, a: Keeps) {
    forall states: seq<Sys>, steps: seq<Step> ::
      RunKeeping(n, a, states, steps) ==> Linearizable(History(states, steps, |steps|), false)
  }

  lemma FewerAssumptions(n: nat, a: Keeps, b: Keeps, states: seq<Sys>, steps: seq<Step>)
    requires RunKeeping(n, b, states, steps) && (a.endCrashes ==> b.endCrashes) && (a.oneUpload ==> b.oneUpload)
    ensures RunKeeping(n, a, states, steps)
  {
    forall i | 0 <= i < |steps|
      ensures Allowed(a, states[i], steps[i])
    {
      assert Allowed(b, states[i], steps[i]);
    }
  }

  /** Some metadata that the protocol can carry. */
  function Sample(root: string): FileMetadata {
    FileMetadata("f", 1, 1, 1, root, ["h"])
  }

  lemma SampleIsWellFormed(root: string)
    requires Wire.Token(root)
    ensures Wire.WellFormed(Sample(root))
  {
    assert Wire.Token("f") && Wire.Token("h") && Wire.HashListOk(["h"]);
  }

  /** In a chain of two nodes or more, all runs are linearizable if and only if both assumptions are
      made: only the last live node crashes, and uploads of one name do not overlap. */
  lemma LinearizableIff(n: nat, a: Keeps)
    requires n >= 2
    ensures AllLinearizable(n, a) <==> a.endCrashes && a.oneUpload
  {
    assert Wire.Token("r") && Wire.Token("s");
    SampleIsWellFormed("r");
    SampleIsWellFormed("s");
    if !a.endCrashes {
      var states, steps := HeadCrashNotLinearizable(n, Sample("r"), Sample("s"));
      FewerAssumptions(n, a, Keeps(false, true), states, steps);
    } else if !a.oneUpload {
      var states, steps := OverlapNotLinearizable(n, Sample("r"), Sample("s"));
    } else {
      forall states: seq<Sys>, steps: seq<Step> | RunKeeping(n, a, states, steps)
        ensures Linearizable(History(states, steps, |steps|), false)
      {
        forall i | 0 <= i < |steps|
          ensures Admissible(states[i], steps[i])
        {
          assert Allowed(a, states[i], steps[i]);
        }
        TailCrashRunsLinearizable(n, states, steps);
      }
    }
  }
}
