/** The node of the program is the node of the chain: what the steps of the transition system do to
    a node and what they tell a client is what the node's own code does to its fields and replies. */
module NodeInChain {
  import opened Common
  import opened MapObject
  import opened MetadataNodes
  import opened ChainSystem
  import opened ChainContainment
  import Wire

  // ----- Requests -----

  /** Every entry is one that the protocol can carry, under its own name. */
  ghost predicate Carried(store: Table) {
    forall file :: file in store ==> store[file].filename == file && Wire.BodyOk(store[file])
  }

  /** The text that a node sends for a GET: a refusal in the roles HEAD and MIDDLE, otherwise what
      the table says. This is the contract of MetadataNode.HandleGet. */
  ghost predicate IsReply(v: NodeView, file: string, reply: string) {
    && (v.role == HEAD || v.role == MIDDLE ==> reply == "REDIRECT_TO_TAIL")
    && ((v.role == TAIL || v.role == SINGLE) && file !in v.store ==> reply == "NOT_FOUND")
    && ((v.role == TAIL || v.role == SINGLE) && file in v.store ==> reply == Wire.PrintFound(v.store[file]))
  }

  /** A node answers a GET with its role and its table: HandleGet's reply is of this kind. */
  method Answer(node: MetadataNode, file: string) returns (reply: string)
    ensures IsReply(node.View(), file, reply)
  {
    reply := node.HandleGet(file);
  }

  lemma RefusalsAreNotUnderstood(file: string)
    ensures Wire.ParseFound(file, "REDIRECT_TO_TAIL").None?
    ensures Wire.ParseFound(file, "NOT_FOUND").None?
  {
    assert "NOT_FOUND"[..6] == "NOT_FO" && "NOT_FO"[0] == 'N' && "FOUND "[0] == 'F';
    assert "REDIRECT_TO_TAIL"[..6] == "REDIRE" && "REDIRE"[0] == 'R';
  }

  /** What a client understands of a node's reply. */
  lemma ReplyIsUnderstood(v: NodeView, file: string, reply: string)
    requires IsReply(v, file, reply) && Carried(v.store)
    ensures Wire.ParseFound(file, reply) ==
            if (v.role == TAIL || v.role == SINGLE) && file in v.store then Some(v.store[file]) else None
  {
    hide Wire.ParseFound, Wire.PrintFound, Wire.BodyOk;
    RefusalsAreNotUnderstood(file);
    if (v.role == TAIL || v.role == SINGLE) && file in v.store {
      Wire.FoundRoundTrip(v.store[file]);
    }
  }

  /** The two critical sections of a GET, one after the other. */
  lemma CheckThenLookup(s: Sys, f: nat)
    requires Enabled(s, CheckRole(f))
    ensures var v, file := s.nodes[s.frames[f].node], s.ops[s.frames[f].op].call.file;
            var checked := Next(s, CheckRole(f));
            if v.role == TAIL || v.role == SINGLE then
              && checked.frames[f].get == Serving && Enabled(checked, Lookup(f))
              && Next(checked, Lookup(f)).frames[f].get == if file in v.store then Found(v.store[file]) else Absent
            else
              checked.frames[f].get == Absent && !Enabled(checked, Lookup(f))
  {
  }

  /** The handler of a GET goes through CheckRole and Lookup and ends with metadata exactly when the
      node's own reply to the client is understood as that metadata. */
  lemma AnswerIsReply(s: Sys, f: nat, reply: string, meta: FileMetadata)
    requires Enabled(s, CheckRole(f)) && Carried(s.nodes[s.frames[f].node].store)
    requires IsReply(s.nodes[s.frames[f].node], s.ops[s.frames[f].op].call.file, reply)
    ensures var checked := Next(s, CheckRole(f));
            Wire.ParseFound(s.ops[s.frames[f].op].call.file, reply) == Some(meta) <==>
              Enabled(checked, Lookup(f)) && Next(checked, Lookup(f)).frames[f].get == Found(meta)
  {
    ReplyIsUnderstood(s.nodes[s.frames[f].node], s.ops[s.frames[f].op].call.file, reply);
    CheckThenLookup(s, f);
    hide Wire.ParseFound, Carried, IsReply, Next;
  }

  /** In every state of every run the tables hold nothing but what the protocol can carry, so there
      the handler and the node's text always agree. */
  lemma ReachableAnswerIsReply(n: nat, states: seq<Sys>, steps: seq<Step>, k: nat, f: nat, reply: string, meta: FileMetadata)
    requires Run(n, states, steps) && k < |states| && Enabled(states[k], CheckRole(f))
    requires IsReply(states[k].nodes[states[k].frames[f].node], states[k].ops[states[k].frames[f].op].call.file, reply)
    ensures var s, checked := states[k], Next(states[k], CheckRole(f));
            Wire.ParseFound(s.ops[s.frames[f].op].call.file, reply) == Some(meta) <==>
              Enabled(checked, Lookup(f)) && Next(checked, Lookup(f)).frames[f].get == Found(meta)
  {
    ReachableTables(n, states, steps, k, states[k].frames[f].node);
    hide Run, Enabled, Next, IsReply, Carried;
    AnswerIsReply(states[k], f, reply, meta);
  }

  lemma ReachableTables(n: nat, states: seq<Sys>, steps: seq<Step>, k: nat, i: nat)
    requires Run(n, states, steps) && k < |states| && i < |states[k].nodes|
    ensures Carried(states[k].nodes[i].store)
  {
    hide Run;
    forall file | file in states[k].nodes[i].store
      ensures states[k].nodes[i].store[file].filename == file && Wire.BodyOk(states[k].nodes[i].store[file])
    {
      var o := TablesHoldPuts(n, states, steps, k, i, file);
    }
  }

  /** A PUT's handler stores what the node parses out of the client's text, and passes the text on in
      the cases and to the port in which the node's code does: the contract of MetadataNode.HandlePut. */
  lemma StoringIsHandled(s: Sys, f: nat)
    requires Enabled(s, Store(f)) && Wire.WellFormed(s.ops[s.frames[f].op].call.meta)
    ensures var meta := s.ops[s.frames[f].op].call.meta;
            var v := s.nodes[s.frames[f].node];
            var stored := Next(s, Store(f));
            && Wire.ParsePut(Wire.PrintPut(meta)) == Some(meta)
            && stored.nodes == s.nodes[s.frames[f].node := v.(store := v.store[meta.filename := meta])]
            && Enabled(stored, Decide(f)) && stored.frames[f].node == s.frames[f].node && stored.alive == s.alive
  {
    hide Next, Wire.ParsePut, Wire.PrintPut, Wire.WellFormed;
    Wire.PutRoundTrip(s.ops[s.frames[f].op].call.meta);
    StoreStep(s, f);
  }

  lemma StoreStep(s: Sys, f: nat)
    requires Enabled(s, Store(f))
    ensures var meta := s.ops[s.frames[f].op].call.meta;
            var v := s.nodes[s.frames[f].node];
            var stored := Next(s, Store(f));
            && stored.nodes == s.nodes[s.frames[f].node := v.(store := v.store[meta.filename := meta])]
            && Enabled(stored, Decide(f)) && stored.frames[f].node == s.frames[f].node && stored.alive == s.alive
  {
  }

  /** Whether a stored PUT is passed on, and to which port. */
  lemma PassingOn(s: Sys, f: nat)
    requires Enabled(s, Decide(f))
    ensures var i := s.frames[f].node;
            var v := s.nodes[i];
            Next(s, Decide(f)).frames[f].put ==
              if (v.role == HEAD || v.role == MIDDLE) && v.next != -1 then Forwarding(v.next)
              else if s.alive[i] then Acked(i) else Muted
  {
  }

  /** Forwarding: a live next node gets a handler of its own for the same PUT and names this one as its
      caller; one that cannot be reached makes the PUT fail here. */
  lemma ForwardingConnects(s: Sys, f: nat)
    requires Enabled(s, Connect(f))
    ensures var frame, after := s.frames[f], Next(s, Connect(f));
            var g := |s.frames|;
            if s.alive[frame.put.target] then
              && |after.frames| == g + 1 && after.frames[f].put == Waiting(g)
              && after.frames[g] == PutFrame(frame.op, frame.put.target, Some(f), Arrived)
            else
              && |after.frames| == g
              && after.frames[f].put == if s.alive[frame.node] then Failed else Muted
  {
  }

  /** A PUT that was passed on is acknowledged or refused as the next node's answer says, and refused
      when that node is lost. */
  lemma ForwardedIsAnswered(s: Sys, st: Step, f: nat)
    requires Enabled(s, st) && (st == Return(f) || st == Lost(f))
    ensures var after := Next(s, st).frames[f].put;
            && (s.alive[s.frames[f].node] && st == Return(f) ==> after == s.frames[s.frames[f].put.callee].put)
            && (s.alive[s.frames[f].node] && st == Lost(f) ==> after == Failed)
            && (!s.alive[s.frames[f].node] ==> after == Muted)
  {
  }

  // ----- The client's sweep -----

  /** A client with a PUT asks from the head on, one with a GET from the tail back. */
  lemma SweepStarts(s: Sys, st: Step)
    requires Enabled(s, st) && (st.InvokePut? || st.InvokeGet?)
    ensures var after := Next(s, st);
            && |after.ops| == |s.ops| + 1 && after.frames == s.frames && after.nodes == s.nodes
            && after.ops[|s.ops|] == if st.InvokePut? then Op(PutCall(st.meta), 0, None, None)
                                     else Op(GetCall(st.file), |s.nodes| - 1, None, None)
  {
  }

  /** A node that is up gets a handler for the client's request; a node that is down is passed over. */
  lemma SweepConnects(s: Sys, o: nat)
    requires Enabled(s, ClientConnect(o))
    ensures var op, after := s.ops[o], Next(s, ClientConnect(o));
            var g := |s.frames|;
            if s.alive[op.pos] then
              && |after.frames| == g + 1 && after.ops[o] == Op(op.call, op.pos, Some(g), None)
              && after.frames[g] == if op.call.PutCall? then PutFrame(o, op.pos, None, Arrived)
                                    else GetFrame(o, op.pos, Asked)
            else
              after.ops[o] == Op(op.call, if op.call.PutCall? then op.pos + 1 else op.pos - 1, None, None)
  {
  }

  /** The first acknowledgement, or the first hit, ends the sweep; anything else takes it one node further,
      and after the last node it fails. */
  lemma SweepGoesOn(s: Sys, st: Step, o: nat)
    requires Enabled(s, st) && (st == ClientReply(o) || st == ClientLost(o) || st == GiveUp(o))
    ensures var op, after := s.ops[o], Next(s, st).ops[o];
            var onward := Op(op.call, if op.call.PutCall? then op.pos + 1 else op.pos - 1, None, None);
            && after.call == op.call
            && (st == ClientLost(o) ==> after == onward)
            && (st == GiveUp(o) ==> after.result == Some(if op.call.PutCall? then PutFailed else GetMissing))
            && (st == ClientReply(o) ==>
                  match s.frames[op.waitingFor.value]
                  case PutFrame(_, _, _, put) => if put.Acked? then after.result == Some(PutAcked) else after == onward
                  case GetFrame(_, _, get) => if get.Found? then after.result == Some(GetFound(get.meta)) else after == onward)
  {
  }

  // ----- The nodes -----

  /** What each step does to the fields of node i is what HandleNextNodeFailure, HandleUpdatePrev, HandleSetSkip and HandlePut do to a node object. */
  lemma NodeChanges(s: Sys, st: Step, i: nat)
    requires Enabled(s, st) && i < |s.nodes|
    ensures |Next(s, st).nodes| == |s.nodes|
    ensures var v, w := s.nodes[i], Next(s, st).nodes[i];
            && (st.Store? && s.frames[st.f].node == i ==>
                  && var meta := s.ops[s.frames[st.f].op].call.meta;
                  && w.store == v.store[meta.filename := meta]
                  && w.role == v.role && w.next == v.next && w.prev == v.prev && w.skip == v.skip)
            && (st.HandleFailure? && st.i == i && v.skip != -1 ==>
                  w.next == v.skip && w.skip == -1 && w.role == v.role && w.prev == v.prev && w.store == v.store)
            && (st.HandleFailure? && st.i == i && v.skip == -1 ==>
                  && w.next == -1 && w.skip == -1 && w.prev == v.prev && w.store == v.store
                  && w.role == if v.prev == -1 then SINGLE else TAIL)
            && (st.SetSkip? && st.i == i ==>
                  w.skip == st.to && w.role == v.role && w.next == v.next && w.prev == v.prev && w.store == v.store)
            && (st.DeliverNotice? && st.to == i ==>
                  && w.prev == st.from && w.next == v.next && w.skip == v.skip && w.store == v.store
                  && w.role == match v.role case HEAD => MIDDLE case MIDDLE => MIDDLE case TAIL => TAIL case SINGLE => TAIL)
            && (w != v ==>
                  || (st.Store? && s.frames[st.f].node == i) || (st.HandleFailure? && st.i == i)
                  || (st.SetSkip? && st.i == i) || (st.DeliverNotice? && st.to == i))
  {
  }

  /** A notice is sent exactly when a failed next node is replaced by a live one, to the new next node;
      it is the UPDATE_PREV message that HealthCheck sends, and it arrives as what DeliverNotice does. */
  lemma NoticesAreSent(s: Sys, st: Step, to: int, from: nat)
    requires Enabled(s, st)
    ensures (to, from) in Next(s, st).notices && (to, from) !in s.notices ==>
              && st == HandleFailure(from) && to == Next(s, st).nodes[from].next
              && 0 <= to < |s.alive| && s.alive[to]
              && (s.nodes[from].skip != -1 ==> to == s.nodes[from].skip)
    ensures st == HandleFailure(from) && s.nodes[from].skip == to && 0 <= to < |s.alive| && s.alive[to] ==>
              (to, from) in Next(s, st).notices
    ensures (to, from) in s.notices && (to, from) !in Next(s, st).notices ==> st == DeliverNotice(to, from)
    ensures from < 0x8000_0000 ==>
              && Wire.OpOf("UPDATE_PREV 127.0.0.1 " + Wire.Decimal(from)) == "UPDATE_PREV"
              && Wire.PortOf("UPDATE_PREV 127.0.0.1 " + Wire.Decimal(from)) == Some(from)
  {
    if from < 0x8000_0000 {
      NoticeText(from);
    }
    hide Wire.OpOf, Wire.PortOf, Wire.Decimal;
  }

  lemma NoticeText(from: nat)
    requires from < 0x8000_0000
    ensures Wire.OpOf("UPDATE_PREV 127.0.0.1 " + Wire.Decimal(from)) == "UPDATE_PREV"
    ensures Wire.PortOf("UPDATE_PREV 127.0.0.1 " + Wire.Decimal(from)) == Some(from)
  {
    hide *;
    NoticeWords();
    Wire.PortSurvives("UPDATE_PREV", "127.0.0.1", from);
  }

  lemma NoticeWords()
    ensures Wire.Token("UPDATE_PREV") && Wire.Token("127.0.0.1")
    ensures "UPDATE_PREV" + " " + "127.0.0.1" + " " == "UPDATE_PREV 127.0.0.1 "
  {
  }

  /** The chain starts as its nodes are constructed. */
  lemma InitialNodes(n: nat, i: nat)
    requires i < n
    ensures var v := Initial(n).nodes[i];
            && v.role == (if i == n - 1 then TAIL else HEAD) && v.next == (if i == n - 1 then -1 else i + 1)
            && v.prev == -1 && v.skip == -1 && v.store == map[]
    ensures |Initial(n).nodes| == |Initial(n).alive| == n && Initial(n).alive[i] && !Initial(n).suspect[i]
    ensures Initial(n).frames == [] && Initial(n).ops == [] && Initial(n).notices == {}
  {
    assert Initial(n).nodes[i] == Constructed(if i + 1 < n then i + 1 else NO_PORT);
  }
}
