/** What the chain does for its clients when it is left alone: an upload that nothing disturbs is
    passed along the live path of next pointers, stored at every node on it and acknowledged,
    and a download that nothing disturbs returns what the last live node holds. */
module ChainService {
  import opened Common
  import opened MapObject
  import opened MetadataNodes
  import opened ChainSystem
  import opened ChainContainment
  import opened ChainTailCrash
  import Wire

  // ----- Reaching a state step by step -----

  /** Which of the two assumptions of the fail-over theorem a run keeps. */
  datatype Keeps = Keeps(endCrashes: bool, oneUpload: bool)

  ghost predicate Allowed(a: Keeps, s: Sys, st: Step) {
    Enabled(s, st) && (a.endCrashes ==> CrashesAtEnd(s, st)) && (a.oneUpload ==> OneUploadAtATime(s, st))
  }

  /** A way to get somewhere: the steps taken, the last one outermost. */
  datatype Path = Begin | Then(before: Path, st: Step)

  /** n nodes can take the path, and it ends in s with the clients having seen h. */
  ghost predicate Leads(n: nat, a: Keeps, p: Path, s: Sys, h: seq<Event>) {
    match p
    case Begin => s == Initial(n) && h == []
    case Then(before, st) =>
      exists s0, h0 :: Leads(n, a, before, s0, h0) && Allowed(a, s0, st) && s == Next(s0, st) && h == h0 + Observed(s0, st)
  }

  /** n nodes can get to state s, with the clients having seen h. */
  ghost predicate Reaches(n: nat, a: Keeps, s: Sys, h: seq<Event>) {
    Shape(s, n) && exists p :: Leads(n, a, p, s, h)
  }

  lemma Start(n: nat, a: Keeps)
    ensures Reaches(n, a, Initial(n), [])
  {
    assert Leads(n, a, Begin, Initial(n), []);
  }

  lemma Go(n: nat, a: Keeps, s: Sys, h: seq<Event>, st: Step)
    requires Reaches(n, a, s, h) && Allowed(a, s, st)
    ensures Reaches(n, a, Next(s, st), h + Observed(s, st))
  {
    var p :| Leads(n, a, p, s, h);
    assert Leads(n, a, Then(p, st), Next(s, st), h + Observed(s, st));
  }

  /** A step that no client sees. */
  lemma GoQuietly(n: nat, a: Keeps, s: Sys, h: seq<Event>, st: Step)
    requires Reaches(n, a, s, h) && Allowed(a, s, st) && Observed(s, st) == []
    ensures Reaches(n, a, Next(s, st), h)
  {
    Go(n, a, s, h, st);
    assert h + [] == h;
  }

  // ----- The live path -----

  /** From node i on, next pointers lead through live nodes to the end of the chain. */
  ghost predicate LivePath(s: Sys, i: nat)
    decreases |s.nodes| - i
  {
    && i < |s.nodes| && Up(s, i)
    && (Forwards(s.nodes[i]) ==> i < s.nodes[i].next < |s.nodes| && LivePath(s, s.nodes[i].next))
  }

  /** The nodes after everything on the path from node i has stored the metadata. */
  function Pushed(nodes: seq<NodeView>, i: nat, meta: FileMetadata): (r: seq<NodeView>)
    ensures |r| == |nodes|
    decreases |nodes| - i
  {
    if i >= |nodes| then nodes
    else
      var stored := nodes[i := Stored(nodes[i], meta)];
      if Forwards(nodes[i]) && i < nodes[i].next < |nodes| then Pushed(stored, nodes[i].next, meta) else stored
  }

  /** Only tables change in the push. */
  lemma {:induction false} PushedLinks(nodes: seq<NodeView>, i: nat, meta: FileMetadata, j: nat)
    requires j < |nodes|
    ensures Pushed(nodes, i, meta)[j].(store := nodes[j].store) == nodes[j]
    ensures j < i ==> Pushed(nodes, i, meta)[j] == nodes[j]
    ensures j == i ==> Pushed(nodes, i, meta)[j] == Stored(nodes[j], meta)
    decreases |nodes| - i
  {
    if i < |nodes| {
      var stored := nodes[i := Stored(nodes[i], meta)];
      if Forwards(nodes[i]) && i < nodes[i].next < |nodes| {
        PushedLinks(stored, nodes[i].next, meta, j);
      }
    }
  }

  lemma {:induction false} LivePathKept(s: Sys, t: Sys, i: nat)
    requires LivePath(s, i) && t.alive == s.alive && |t.nodes| == |s.nodes|
    requires forall j :: 0 <= j < |s.nodes| ==> t.nodes[j].next == s.nodes[j].next && t.nodes[j].role == s.nodes[j].role
    ensures LivePath(t, i)
    decreases |s.nodes| - i
  {
    if Forwards(s.nodes[i]) {
      LivePathKept(s, t, s.nodes[i].next);
    }
  }

  /** None of the nodes from lo up to hi is up. */
  ghost predicate Down(alive: seq<bool>, lo: int, hi: int) {
    forall j :: lo <= j < hi && 0 <= j < |alive| ==> !alive[j]
  }

  // ----- An upload left alone -----

  /** From s to t nothing has happened to the nodes but the push, and to the old handlers but
      that f has been answered. */
  ghost predicate PassedOn(s: Sys, t: Sys, f: nat) {
    && PutAt(s, f) && |s.frames| <= |t.frames|
    && t.nodes == Pushed(s.nodes, s.frames[f].node, s.ops[s.frames[f].op].call.meta)
    && t.alive == s.alive && t.suspect == s.suspect && t.ops == s.ops
    && t.frames[f].PutFrame? && t.frames[f].put.Acked? && SameRequest(s.frames[f], t.frames[f])
    && forall g :: 0 <= g < |s.frames| && g != f ==> t.frames[g] == s.frames[g]
  }

  lemma StoreAndDecide(n: nat, a: Keeps, s: Sys, h: seq<Event>, f: nat) returns (t: Sys)
    requires Reaches(n, a, s, h) && PutAt(s, f) && s.frames[f].put.Arrived?
    requires Up(s, s.frames[f].node)
    ensures Reaches(n, a, t, h)
    ensures var i := s.frames[f].node;
            && t.nodes == s.nodes[i := Stored(s.nodes[i], s.ops[s.frames[f].op].call.meta)]
            && t.alive == s.alive && t.suspect == s.suspect && t.ops == s.ops
            && t.frames == s.frames[f := s.frames[f].(put := if Forwards(s.nodes[i]) then Forwarding(s.nodes[i].next) else Acked(i))]
  {
    hide Reaches;
    GoQuietly(n, a, s, h, Store(f));
    t := DoStore(s, f);
    GoQuietly(n, a, t, h, Decide(f));
    t := DoDecide(t, f);
  }

  lemma ConnectNext(n: nat, a: Keeps, s: Sys, h: seq<Event>, f: nat) returns (t: Sys)
    requires Reaches(n, a, s, h) && PutAt(s, f) && s.frames[f].put.Forwarding?
    requires Up(s, s.frames[f].put.target)
    ensures Reaches(n, a, t, h)
    ensures t == s.(frames := s.frames[f := s.frames[f].(put := Waiting(|s.frames|))]
                              + [PutFrame(s.frames[f].op, s.frames[f].put.target, Some(f), Arrived)])
  {
    GoQuietly(n, a, s, h, Connect(f));
    t := DoConnect(s, f);
  }

  /** The acknowledgement of the next node is relayed. */
  lemma Relay(n: nat, a: Keeps, s: Sys, h: seq<Event>, f: nat) returns (t: Sys)
    requires Reaches(n, a, s, h) && PutAt(s, f) && s.frames[f].put.Waiting? && Up(s, s.frames[f].node)
    requires PutAt(s, s.frames[f].put.callee) && s.frames[s.frames[f].put.callee].put.Acked?
    ensures Reaches(n, a, t, h)
    ensures t == SetPut(s, f, s.frames[s.frames[f].put.callee].put)
  {
    GoQuietly(n, a, s, h, Return(f));
    t := DoReturn(s, f);
  }

  ghost predicate HandedOver(s: Sys, t: Sys, f: nat) {
    && PutAt(s, f) && s.nodes[s.frames[f].node].next >= 0
    && var i, meta := s.frames[f].node, s.ops[s.frames[f].op].call.meta;
       && t.nodes == s.nodes[i := Stored(s.nodes[i], meta)]
       && t.alive == s.alive && t.suspect == s.suspect && t.ops == s.ops
       && t.frames == s.frames[f := s.frames[f].(put := Waiting(|s.frames|))]
                      + [PutFrame(s.frames[f].op, s.nodes[i].next, Some(f), Arrived)]
  }

  /** A handler that has passed its PUT on to handler |s.frames|, which has been answered. */
  lemma RelayedOn(s: Sys, s3: Sys, s4: Sys, t: Sys, f: nat)
    requires PutAt(s, f) && s.frames[f].put.Arrived? && Forwards(s.nodes[s.frames[f].node])
    requires s.frames[f].node < s.nodes[s.frames[f].node].next < |s.nodes|
    requires HandedOver(s, s3, f)
    requires PassedOn(s3, s4, |s.frames|) && s4.frames[f] == s3.frames[f]
    requires t == SetPut(s4, f, s4.frames[|s.frames|].put)
    ensures PassedOn(s, t, f)
  {
    forall g | 0 <= g < |s.frames| && g != f
      ensures t.frames[g] == s.frames[g]
    {
      assert s4.frames[g] == s3.frames[g];
    }
  }

  /** The handler stores the PUT and hands it to a new handler at the next node. */
  lemma HandOver(n: nat, a: Keeps, s: Sys, h: seq<Event>, f: nat) returns (t: Sys)
    requires Reaches(n, a, s, h) && PutAt(s, f) && s.frames[f].put.Arrived?
    requires LivePath(s, s.frames[f].node) && Forwards(s.nodes[s.frames[f].node])
    ensures Reaches(n, a, t, h) && HandedOver(s, t, f)
    ensures s.nodes[s.frames[f].node].next >= 0 && LivePath(t, s.nodes[s.frames[f].node].next)
  {
    var s2 := StoreAndDecide(n, a, s, h, f);
    t := ConnectNext(n, a, s2, h, f);
    LivePathKept(s, t, s.nodes[s.frames[f].node].next);
  }

  lemma {:induction false} PassOn(n: nat, a: Keeps, s: Sys, h: seq<Event>, f: nat) returns (t: Sys)
    requires Reaches(n, a, s, h) && PutAt(s, f) && s.frames[f].put.Arrived?
    requires LivePath(s, s.frames[f].node)
    ensures Reaches(n, a, t, h) && PassedOn(s, t, f)
    decreases |s.nodes| - s.frames[f].node
  {
    if Forwards(s.nodes[s.frames[f].node]) {
      var s3 := HandOver(n, a, s, h, f);
      var s4 := PassOn(n, a, s3, h, |s.frames|);
      assert s4.frames[f] == s3.frames[f];
      t := Relay(n, a, s4, h, f);
      RelayedOn(s, s3, s4, t, f);
    } else {
      t := StoreAndDecide(n, a, s, h, f);
    }
  }

  /** A client's PUT sweep skips nodes that are down. */
  lemma {:induction false} SkipDown(n: nat, a: Keeps, s: Sys, h: seq<Event>, o: nat, first: nat) returns (t: Sys)
    requires Reaches(n, a, s, h) && IsPut(s, o) && Idle(s, o)
    requires 0 <= s.ops[o].pos <= first < n && Down(s.alive, s.ops[o].pos, first)
    ensures Reaches(n, a, t, h)
    ensures t == SetOp(s, o, s.ops[o].(pos := first))
    decreases first - s.ops[o].pos
  {
    if s.ops[o].pos == first {
      t := s;
      assert s.ops == s.ops[o := s.ops[o].(pos := first)];
    } else {
      GoQuietly(n, a, s, h, ClientConnect(o));
      t := DoClientConnect(s, o);
      var u := t;
      t := SkipDown(n, a, u, h, o, first);
      assert t.ops == s.ops[o := s.ops[o].(pos := first)];
    }
  }

  /** The upload's own part of the final state. */
  ghost predicate Uploaded(s: Sys, t: Sys, meta: FileMetadata, first: nat) {
    && t.nodes == Pushed(s.nodes, first, meta) && t.alive == s.alive && t.suspect == s.suspect
    && |t.ops| == |s.ops| + 1 && t.ops[..|s.ops|] == s.ops
    && t.ops[|s.ops|].call == PutCall(meta) && t.ops[|s.ops|].result == Some(PutAcked)
    && |s.frames| <= |t.frames| && t.frames[..|s.frames|] == s.frames
  }

  lemma ConnectAndPass(n: nat, a: Keeps, s: Sys, h: seq<Event>, o: nat) returns (t: Sys)
    requires Reaches(n, a, s, h) && IsPut(s, o) && Idle(s, o)
    requires 0 <= s.ops[o].pos < n && LivePath(s, s.ops[o].pos)
    ensures Reaches(n, a, t, h + [Ret(o, PutAcked)])
    ensures t.nodes == Pushed(s.nodes, s.ops[o].pos, s.ops[o].call.meta) && t.alive == s.alive && t.suspect == s.suspect
    ensures |s.frames| <= |t.frames| && t.frames[..|s.frames|] == s.frames
    ensures |t.ops| == |s.ops| && t.ops == s.ops[o := t.ops[o]]
    ensures t.ops[o].call == s.ops[o].call && t.ops[o].result == Some(PutAcked)
  {
    var f := |s.frames|;
    assert IsNode(s, s.ops[o].pos) by { hide Allowed; assert Shape(s, n); }
    hide Reaches, Pushed;
    GoQuietly(n, a, s, h, ClientConnect(o));
    var s2 := DoClientConnect(s, o);
    LivePathKept(s, s2, s.ops[o].pos);
    hide LivePath;
    var s3 := PassOn(n, a, s2, h, f);
    assert Awaits(s3, o, f);
    Go(n, a, s3, h, ClientReply(o));
    t := DoClientReply(s3, o);
    assert t.frames[..|s.frames|] == s.frames;
  }

  /** An upload that runs alone, in any reachable state, is acknowledged, and every node on the
      live path from the first live node on has stored it. */
  lemma UndisturbedUpload(n: nat, a: Keeps, s: Sys, h: seq<Event>, meta: FileMetadata, first: nat) returns (t: Sys)
    requires Reaches(n, a, s, h) && Wire.WellFormed(meta)
    requires first < n && LivePath(s, first) && Down(s.alive, 0, first)
    requires a.oneUpload ==> OneUploadAtATime(s, InvokePut(meta))
    ensures Reaches(n, a, t, h + [Inv(|s.ops|, PutCall(meta)), Ret(|s.ops|, PutAcked)])
    ensures Uploaded(s, t, meta, first)
  {
    var o := |s.ops|;
    var h2 := h + [Inv(o, PutCall(meta))];
    Go(n, a, s, h, InvokePut(meta));
    var s1 := Next(s, InvokePut(meta));
    var s2 := SkipDown(n, a, s1, h2, o, first);
    LivePathKept(s, s2, first);
    t := ConnectAndPass(n, a, s2, h2, o);
    assert h2 + [Ret(o, PutAcked)] == h + [Inv(o, PutCall(meta)), Ret(o, PutAcked)];
    assert t.ops[..|s.ops|] == s.ops;
  }

  // ----- A download left alone -----

  lemma {:induction false} SkipDownFromEnd(n: nat, a: Keeps, s: Sys, h: seq<Event>, o: nat, last: nat) returns (t: Sys)
    requires Reaches(n, a, s, h) && Idle(s, o) && s.ops[o].call.GetCall?
    requires last <= s.ops[o].pos < n && Down(s.alive, last + 1, s.ops[o].pos + 1)
    ensures Reaches(n, a, t, h)
    ensures t == SetOp(s, o, s.ops[o].(pos := last))
    decreases s.ops[o].pos - last
  {
    if s.ops[o].pos == last {
      t := s;
      assert s.ops == s.ops[o := s.ops[o].(pos := last)];
    } else {
      GoQuietly(n, a, s, h, ClientConnect(o));
      t := DoClientConnect(s, o);
      var u := t;
      t := SkipDownFromEnd(n, a, u, h, o, last);
      assert t.ops == s.ops[o := s.ops[o].(pos := last)];
    }
  }

  /** Nothing but operation o has changed, and there is only a new handler. */
  ghost predicate OnlyAnswered(s: Sys, t: Sys, o: nat) {
    && t.nodes == s.nodes && t.alive == s.alive && t.suspect == s.suspect
    && o < |s.ops| && |t.ops| == |s.ops| && t.ops == s.ops[o := t.ops[o]]
    && |s.frames| <= |t.frames| && t.frames[..|s.frames|] == s.frames
  }

  lemma AskLast(n: nat, a: Keeps, s: Sys, h: seq<Event>, o: nat) returns (t: Sys)
    requires Reaches(n, a, s, h) && Idle(s, o) && s.ops[o].call.GetCall?
    requires 0 <= s.ops[o].pos < n && Up(s, s.ops[o].pos) && Terminal(s.nodes[s.ops[o].pos])
    requires s.ops[o].call.file in s.nodes[s.ops[o].pos].store
    ensures Reaches(n, a, t, h + [Ret(o, GetFound(s.nodes[s.ops[o].pos].store[s.ops[o].call.file]))])
    ensures OnlyAnswered(s, t, o)
  {
    var f := |s.frames|;
    var i, file := s.ops[o].pos, s.ops[o].call.file;
    assert IsNode(s, i) by { hide Allowed; assert Shape(s, n); }
    hide Reaches;
    GoQuietly(n, a, s, h, ClientConnect(o));
    t := DoClientConnect(s, o);
    assert GetAt(t, f);
    GoQuietly(n, a, t, h, CheckRole(f));
    t := Next(t, CheckRole(f));
    t := LookupAndReply(n, a, t, h, o, f);
  }

  lemma LookupAndReply(n: nat, a: Keeps, s: Sys, h: seq<Event>, o: nat, f: nat) returns (t: Sys)
    requires Reaches(n, a, s, h) && GetAt(s, f) && Awaits(s, o, f) && s.frames[f].op == o && s.frames[f].get.Serving?
    requires Up(s, s.frames[f].node) && s.ops[o].call.file in s.nodes[s.frames[f].node].store
    ensures Reaches(n, a, t, h + [Ret(o, GetFound(s.nodes[s.frames[f].node].store[s.ops[o].call.file]))])
    ensures t.nodes == s.nodes && t.alive == s.alive && t.suspect == s.suspect
    ensures |t.frames| == |s.frames| && t.frames == s.frames[f := t.frames[f]]
    ensures |t.ops| == |s.ops| && t.ops == s.ops[o := t.ops[o]]
  {
    GoQuietly(n, a, s, h, Lookup(f));
    var u := DoLookup(s, f);
    Go(n, a, u, h, ClientReply(o));
    t := DoClientReply(u, o);
  }

  /** A download that runs alone returns what the last live node holds, if that node is the end of
      the chain and knows the file. */
  lemma UndisturbedDownload(n: nat, a: Keeps, s: Sys, h: seq<Event>, file: string, last: nat) returns (t: Sys)
    requires Reaches(n, a, s, h)
    requires last < n && Up(s, last) && Terminal(s.nodes[last]) && Down(s.alive, last + 1, n)
    requires file in s.nodes[last].store
    ensures Reaches(n, a, t, h + [Inv(|s.ops|, GetCall(file)), Ret(|s.ops|, GetFound(s.nodes[last].store[file]))])
    ensures t.nodes == s.nodes && t.alive == s.alive && t.suspect == s.suspect
    ensures |t.ops| == |s.ops| + 1 && t.ops[..|s.ops|] == s.ops
    ensures |s.frames| <= |t.frames| && t.frames[..|s.frames|] == s.frames
  {
    var o := |s.ops|;
    var h2 := h + [Inv(o, GetCall(file))];
    assert |s.nodes| == n;
    hide Reaches;
    Go(n, a, s, h, InvokeGet(file));
    var s1 := Next(s, InvokeGet(file));
    var s2 := SkipDownFromEnd(n, a, s1, h2, o, last);
    t := AskLast(n, a, s2, h2, o);
    var r := GetFound(s.nodes[last].store[file]);
    assert h2 + [Ret(o, r)] == h + [Inv(o, GetCall(file)), Ret(o, r)];
  }
}
