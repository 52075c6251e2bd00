/** The metadata chain as a transition system: n nodes, any number of clients sweeping over
    them, any number of concurrent request handlers, crashes, and the health checks that
    rewire the chain. Nodes are named by their position in the initial chain.

    Every critical section of the program is one step, and so is every connect and every
    receive. A request handler and an operation are named by the order in which they were
    created. A crashed node never comes back; its handlers may go on running, as they do
    after a DIE command, but their replies no longer reach anyone. */
module ChainSystem {
  import opened Common
  import opened MapObject
  import opened MetadataNodes
  import Wire

  /** How far the handler of a PUT has come. `last` is the node where the forwarding ended. */
  datatype PutPhase =
    | Arrived
    | Written
    | Forwarding(target: int)
    | Waiting(callee: nat)
    | Acked(last: nat)
    | Failed
    | Muted

  datatype GetPhase =
    | Asked
    | Serving
    | Found(meta: FileMetadata)
    | Absent

  /** A request handler at a node. `caller` is the handler that forwarded the request, if any. */
  datatype Frame =
    | PutFrame(op: nat, node: nat, caller: Option<nat>, put: PutPhase)
    | GetFrame(op: nat, node: nat, get: GetPhase)

  /** A client's operation: the position of its sweep over the nodes, the handler it waits
      for, and what it returned. */
  datatype Op = Op(call: Call, pos: int, waitingFor: Option<nat>, result: Option<Outcome>)

  datatype Sys = Sys(
    nodes: seq<NodeView>,
    alive: seq<bool>,
    suspect: seq<bool>,          // the health check has seen the next node fail
    frames: seq<Frame>,
    ops: seq<Op>,
    applied: seq<set<nat>>,      // history: which PUTs each node has stored
    notices: set<(int, nat)>)    // UPDATE_PREV messages under way: to, from

  datatype Step =
    | InvokePut(meta: FileMetadata)
    | InvokeGet(file: string)
    | ClientConnect(op: nat)
    | ClientReply(op: nat)
    | ClientLost(op: nat)
    | GiveUp(op: nat)
    | Store(f: nat)
    | Decide(f: nat)
    | Connect(f: nat)
    | Return(f: nat)
    | Lost(f: nat)
    | CheckRole(f: nat)
    | Lookup(f: nat)
    | Crash(i: nat)
    | Suspect(i: nat)
    | HandleFailure(i: nat)
    | SetSkip(i: nat, to: int)
    | DeliverNotice(to: int, from: nat)

  function Initial(n: nat): Sys {
    Sys(seq(n, i => Constructed(if i + 1 < n then i + 1 else NO_PORT)),
        seq(n, i => true),
        seq(n, i => false),
        [], [],
        seq(n, i => {}),
        {})
  }

  // ----- Reading the state -----

  predicate IsNode(s: Sys, i: int) {
    0 <= i < |s.nodes| && i < |s.alive| && i < |s.suspect| && i < |s.applied|
  }

  predicate Up(s: Sys, i: int) {
    0 <= i < |s.alive| && s.alive[i]
  }

  predicate IsPut(s: Sys, o: nat) {
    o < |s.ops| && s.ops[o].call.PutCall?
  }

  predicate Idle(s: Sys, o: nat) {
    o < |s.ops| && s.ops[o].result.None? && s.ops[o].waitingFor.None?
  }

  /** The client of operation o waits for handler f. */
  predicate Awaits(s: Sys, o: nat, f: nat) {
    && o < |s.ops| && s.ops[o].result.None?
    && s.ops[o].waitingFor == Some(f) && f < |s.frames|
    && s.ops[o].call.PutCall? == s.frames[f].PutFrame?
  }

  predicate PutAt(s: Sys, f: nat) {
    && f < |s.frames| && s.frames[f].PutFrame? && IsNode(s, s.frames[f].node)
    && IsPut(s, s.frames[f].op)
  }

  predicate GetAt(s: Sys, f: nat) {
    && f < |s.frames| && s.frames[f].GetFrame? && IsNode(s, s.frames[f].node)
    && s.frames[f].op < |s.ops| && s.ops[s.frames[f].op].call.GetCall?
  }

  /** PUT sweeps go from the head on, GET sweeps from the tail back. */
  function Advance(op: Op): Op {
    op.(waitingFor := None, pos := if op.call.PutCall? then op.pos + 1 else op.pos - 1)
  }

  // ----- The steps -----

  predicate Enabled(s: Sys, st: Step) {
    match st
    case InvokePut(meta) => Wire.WellFormed(meta)
    case InvokeGet(_) => true
    case ClientConnect(o) => Idle(s, o) && IsNode(s, s.ops[o].pos)
    case ClientReply(o) =>
      && o < |s.ops| && s.ops[o].waitingFor.Some? && Awaits(s, o, s.ops[o].waitingFor.value)
      && (match s.frames[s.ops[o].waitingFor.value]
          case PutFrame(_, _, _, put) => put.Acked? || put.Failed?
          case GetFrame(_, _, get) => get.Found? || get.Absent?)
    case ClientLost(o) =>
      && o < |s.ops| && s.ops[o].waitingFor.Some? && Awaits(s, o, s.ops[o].waitingFor.value)
      && !Up(s, s.frames[s.ops[o].waitingFor.value].node)
    case GiveUp(o) => Idle(s, o) && !(0 <= s.ops[o].pos < |s.nodes|)
    case Store(f) => PutAt(s, f) && s.frames[f].put.Arrived?
    case Decide(f) => PutAt(s, f) && s.frames[f].put.Written?
    case Connect(f) => PutAt(s, f) && s.frames[f].put.Forwarding? && IsNode(s, s.frames[f].put.target)
    case Return(f) =>
      && PutAt(s, f) && s.frames[f].put.Waiting? && PutAt(s, s.frames[f].put.callee)
      && var reply := s.frames[s.frames[f].put.callee].put; (reply.Acked? || reply.Failed?)
    case Lost(f) =>
      && PutAt(s, f) && s.frames[f].put.Waiting? && PutAt(s, s.frames[f].put.callee)
      && !Up(s, s.frames[s.frames[f].put.callee].node)
    case CheckRole(f) => GetAt(s, f) && s.frames[f].get.Asked? && Up(s, s.frames[f].node)
    case Lookup(f) => GetAt(s, f) && s.frames[f].get.Serving? && Up(s, s.frames[f].node)
    case Crash(i) => IsNode(s, i) && Up(s, i)
    case Suspect(i) =>
      IsNode(s, i) && s.nodes[i].next != NO_PORT && !Up(s, s.nodes[i].next)
    case HandleFailure(i) => IsNode(s, i) && s.suspect[i]
    case SetSkip(i, to) =>
      // The skip node is the one right after the current next node.
      && IsNode(s, i) && IsNode(s, to) && s.nodes[i].next != NO_PORT && s.nodes[i].next < to
      && forall j :: s.nodes[i].next < j < to ==> !Up(s, j)
    case DeliverNotice(to, from) => IsNode(s, to) && (to, from) in s.notices
  }

  function SetOp(s: Sys, o: nat, op: Op): Sys
    requires o < |s.ops|
  {
    s.(ops := s.ops[o := op])
  }

  function SetFrame(s: Sys, f: nat, frame: Frame): Sys
    requires f < |s.frames|
  {
    s.(frames := s.frames[f := frame])
  }

  function SetPut(s: Sys, f: nat, put: PutPhase): Sys
    requires f < |s.frames| && s.frames[f].PutFrame?
  {
    SetFrame(s, f, s.frames[f].(put := put))
  }

  function SetGet(s: Sys, f: nat, get: GetPhase): Sys
    requires f < |s.frames| && s.frames[f].GetFrame?
  {
    SetFrame(s, f, s.frames[f].(get := get))
  }

  /** A reply leaves a live node; a node that has crashed sends nothing. */
  function Answering(s: Sys, f: nat, put: PutPhase): PutPhase
    requires f < |s.frames|
  {
    if Up(s, s.frames[f].node) then put else Muted
  }

  function DoClientConnect(s: Sys, o: nat): Sys
    requires Enabled(s, ClientConnect(o))
  {
    var op := s.ops[o];
    if Up(s, op.pos) then
      var frame := if op.call.PutCall? then PutFrame(o, op.pos, None, Arrived) else GetFrame(o, op.pos, Asked);
      SetOp(s, o, op.(waitingFor := Some(|s.frames|))).(frames := s.frames + [frame])
    else
      SetOp(s, o, Advance(op))
  }

  function DoClientReply(s: Sys, o: nat): Sys
    requires Enabled(s, ClientReply(o))
  {
    var op := s.ops[o];
    match s.frames[op.waitingFor.value]
    case PutFrame(_, _, _, put) =>
      SetOp(s, o, if put.Acked? then op.(result := Some(PutAcked)) else Advance(op))
    case GetFrame(_, _, get) =>
      SetOp(s, o, if get.Found? then op.(result := Some(GetFound(get.meta))) else Advance(op))
  }

  function DoStore(s: Sys, f: nat): Sys
    requires Enabled(s, Store(f))
  {
    var frame := s.frames[f];
    SetPut(s, f, Written).(
      nodes := s.nodes[frame.node := Stored(s.nodes[frame.node], s.ops[frame.op].call.meta)],
      applied := s.applied[frame.node := s.applied[frame.node] + {frame.op}])
  }

  function DoDecide(s: Sys, f: nat): Sys
    requires Enabled(s, Decide(f))
  {
    var v := s.nodes[s.frames[f].node];
    SetPut(s, f, if Forwards(v) then Forwarding(v.next) else Answering(s, f, Acked(s.frames[f].node)))
  }

  function DoConnect(s: Sys, f: nat): Sys
    requires Enabled(s, Connect(f))
  {
    var frame := s.frames[f];
    if Up(s, frame.put.target) then
      SetPut(s, f, Waiting(|s.frames|)).(
        frames := s.frames[f := frame.(put := Waiting(|s.frames|))]
                  + [PutFrame(frame.op, frame.put.target, Some(f), Arrived)])
    else
      SetPut(s, f, Answering(s, f, Failed))
  }

  function DoReturn(s: Sys, f: nat): Sys
    requires Enabled(s, Return(f))
  {
    SetPut(s, f, Answering(s, f, s.frames[s.frames[f].put.callee].put))
  }

  function DoLookup(s: Sys, f: nat): Sys
    requires Enabled(s, Lookup(f))
  {
    var store := s.nodes[s.frames[f].node].store;
    var file := s.ops[s.frames[f].op].call.file;
    SetGet(s, f, if file in store then Found(store[file]) else Absent)
  }

  function DoHandleFailure(s: Sys, i: nat): Sys
    requires Enabled(s, HandleFailure(i))
  {
    var v := NextFailed(s.nodes[i]);
    s.(nodes := s.nodes[i := v],
       suspect := s.suspect[i := false],
       notices := if Up(s, v.next) then s.notices + {(v.next, i)} else s.notices)
  }

  function Next(s: Sys, st: Step): Sys
    requires Enabled(s, st)
  {
    match st
    case InvokePut(meta) => s.(ops := s.ops + [Op(PutCall(meta), 0, None, None)])
    case InvokeGet(file) => s.(ops := s.ops + [Op(GetCall(file), |s.nodes| - 1, None, None)])
    case ClientConnect(o) => DoClientConnect(s, o)
    case ClientReply(o) => DoClientReply(s, o)
    case ClientLost(o) => SetOp(s, o, Advance(s.ops[o]))
    case GiveUp(o) =>
      SetOp(s, o, s.ops[o].(result := Some(if s.ops[o].call.PutCall? then PutFailed else GetMissing)))
    case Store(f) => DoStore(s, f)
    case Decide(f) => DoDecide(s, f)
    case Connect(f) => DoConnect(s, f)
    case Return(f) => DoReturn(s, f)
    case Lost(f) => SetPut(s, f, Answering(s, f, Failed))
    case CheckRole(f) => SetGet(s, f, if Terminal(s.nodes[s.frames[f].node]) then Serving else Absent)
    case Lookup(f) => DoLookup(s, f)
    case Crash(i) => s.(alive := s.alive[i := false])
    case Suspect(i) => s.(suspect := s.suspect[i := true])
    case HandleFailure(i) => DoHandleFailure(s, i)
    case SetSkip(i, to) => s.(nodes := s.nodes[i := SkipSet(s.nodes[i], to)])
    case DeliverNotice(to, from) =>
      s.(nodes := s.nodes[to := PrevUpdated(s.nodes[to], from)], notices := s.notices - {(to, from)})
  }

  // ----- Runs -----

  /** What the clients see of a step. */
  function Observed(s: Sys, st: Step): seq<Event>
    requires Enabled(s, st)
  {
    match st
    case InvokePut(meta) => [Inv(|s.ops|, PutCall(meta))]
    case InvokeGet(file) => [Inv(|s.ops|, GetCall(file))]
    case ClientReply(o) =>
      var result := DoClientReply(s, o).ops[o].result;
      if result.Some? then [Ret(o, result.value)] else []
    case GiveUp(o) => [Ret(o, if s.ops[o].call.PutCall? then PutFailed else GetMissing)]
    case _ => []
  }

  /** `states` is what n nodes go through when they take `steps`. */
  predicate Run(n: nat, states: seq<Sys>, steps: seq<Step>) {
    && |states| == |steps| + 1
    && states[0] == Initial(n)
    && forall i :: 0 <= i < |steps| ==> Enabled(states[i], steps[i]) && states[i + 1] == Next(states[i], steps[i])
  }

  /** What the clients have seen after the first k steps. */
  function History(states: seq<Sys>, steps: seq<Step>, k: nat): seq<Event>
    requires k <= |steps| < |states|
    requires forall i :: 0 <= i < |steps| ==> Enabled(states[i], steps[i])
  {
    if k == 0 then [] else History(states, steps, k - 1) + Observed(states[k - 1], steps[k - 1])
  }
}
