/** One metadata node: its state, the critical sections that change it, and its replies. */
module MetadataNodes {
  import opened Common
  import Wire

  datatype Role = HEAD | MIDDLE | TAIL | SINGLE

  /** The port stored when there is no such neighbour. */
  const NO_PORT := -1

  /** A node's state as a value. Nodes are identified by their ports. */
  datatype NodeView = NodeView(role: Role, next: int, prev: int, skip: int, store: Table)

  /** The node answers GETs itself. */
  predicate Terminal(v: NodeView) {
    v.role.TAIL? || v.role.SINGLE?
  }

  /** The node passes PUTs on. */
  predicate Forwards(v: NodeView) {
    !Terminal(v) && v.next != NO_PORT
  }

  // ----- The critical sections, as functions of the state -----

  function Constructed(next: int): NodeView {
    NodeView(if next == NO_PORT then TAIL else HEAD, next, NO_PORT, NO_PORT, map[])
  }

  function Stored(v: NodeView, meta: FileMetadata): NodeView {
    v.(store := v.store[meta.filename := meta])
  }

  function NextFailed(v: NodeView): NodeView {
    if v.skip != NO_PORT then
      v.(next := v.skip, skip := NO_PORT)
    else
      v.(next := NO_PORT, role := if v.prev == NO_PORT then SINGLE else TAIL)
  }

  function PrevUpdated(v: NodeView, port: int): NodeView {
    v.(prev := port, role := match v.role case HEAD => MIDDLE case SINGLE => TAIL case r => r)
  }

  function NextUpdated(v: NodeView, port: int): NodeView {
    v.(next := port, role := match v.role case TAIL => MIDDLE case SINGLE => HEAD case r => r)
  }

  function SkipSet(v: NodeView, port: int): NodeView {
    v.(skip := port)
  }

  function GetReply(v: NodeView, filename: string): string {
    if !Terminal(v) then "REDIRECT_TO_TAIL"
    else if filename !in v.store then "NOT_FOUND"
    else Wire.PrintFound(v.store[filename])
  }

  // ----- Roles -----

  /** What the roles are meant to say: the terminal roles are those without a next node, and
      HEAD and SINGLE are never used by a node that knows its predecessor. */
  predicate Coherent(v: NodeView) {
    && (Terminal(v) <==> v.next == NO_PORT)
    && (v.role.HEAD? || v.role.SINGLE? ==> v.prev == NO_PORT)
  }

  datatype Rewiring = UpdatePrev(port: int) | UpdateNext(port: int) | SetSkip(port: int) | NextFailure

  function Rewire(v: NodeView, c: Rewiring): NodeView {
    match c
    case UpdatePrev(port) => PrevUpdated(v, port)
    case UpdateNext(port) => NextUpdated(v, port)
    case SetSkip(port) => SkipSet(v, port)
    case NextFailure => NextFailed(v)
  }

  function RewireAll(v: NodeView, cs: seq<Rewiring>): NodeView
    decreases |cs|
  {
    if |cs| == 0 then v else RewireAll(Rewire(v, cs[0]), cs[1..])
  }

  /** The health check only acts while there is a next node, and a new next node is a real one. */
  predicate Proper(v: NodeView, c: Rewiring) {
    && (c.UpdateNext? ==> c.port != NO_PORT)
    && (c.NextFailure? ==> v.next != NO_PORT || v.skip == NO_PORT)
  }

  predicate AllProper(v: NodeView, cs: seq<Rewiring>)
    decreases |cs|
  {
    |cs| == 0 || (Proper(v, cs[0]) && AllProper(Rewire(v, cs[0]), cs[1..]))
  }

  /** One rewiring keeps the roles right exactly when it is proper. */
  lemma RewireKeepsRolesIff(v: NodeView, c: Rewiring)
    requires Coherent(v)
    ensures Coherent(Rewire(v, c)) <==> Proper(v, c)
  {
    match c
    case UpdatePrev(_) =>
    case UpdateNext(_) =>
    case SetSkip(_) =>
    case NextFailure =>
  }

  /** Whatever proper rewirings a new node goes through, in whatever order, its role stays
      right, and it answers GETs exactly when it does not pass PUTs on. */
  lemma {:induction false} RolesAlwaysRight(v: NodeView, cs: seq<Rewiring>)
    requires Coherent(v) && AllProper(v, cs)
    ensures Coherent(RewireAll(v, cs))
    ensures Terminal(RewireAll(v, cs)) <==> !Forwards(RewireAll(v, cs))
    ensures RewireAll(v, cs).store == v.store
    decreases |cs|
  {
    if |cs| > 0 {
      RewireKeepsRolesIff(v, cs[0]);
      RolesAlwaysRight(Rewire(v, cs[0]), cs[1..]);
    }
  }

  /** A client that reads well-formed metadata from the terminal node that stored it gets it back. */
  lemma StoredIsServed(v: NodeView, meta: FileMetadata)
    requires Terminal(v) && Wire.BodyOk(meta)
    ensures Wire.ParseFound(meta.filename, GetReply(Stored(v, meta), meta.filename)) == Some(meta)
  {
    Wire.FoundRoundTrip(meta);
  }

  // ----- The node as the program runs it -----

  class MetadataNode {
    var metadataStore: Table
    var nextNodePort: int
    var prevNodePort: int
    var skipToPort: int
    var role: Role
    var running: bool
    const myPort: int

    function View(): NodeView
      reads this
    {
      NodeView(role, nextNodePort, prevNodePort, skipToPort, metadataStore)
    }

    constructor (nextNodePort: int, port: int)
      ensures View() == Constructed(nextNodePort)
      ensures Coherent(View())
      ensures role == (if nextNodePort == -1 then TAIL else HEAD)
      ensures this.nextNodePort == nextNodePort && prevNodePort == skipToPort == -1
      ensures metadataStore == map[] && running && myPort == port
    {
      this.nextNodePort := nextNodePort;
      myPort := port;
      metadataStore := map[];
      prevNodePort := NO_PORT;
      skipToPort := NO_PORT;
      role := HEAD;
      running := true;
      if nextNodePort == NO_PORT {
        role := TAIL;
      }
    }

    /** Rewires the chain around a failed next node, and tells the new next node about it. */
    method HandleNextNodeFailure() returns (sent: seq<(int, string)>)
      modifies `nextNodePort, `skipToPort, `role
      ensures View() == NextFailed(old(View()))
      ensures old(skipToPort) != -1 ==>
                && nextNodePort == old(skipToPort) && skipToPort == -1 && role == old(role)
                && sent == [(old(skipToPort), "UPDATE_PREV 127.0.0.1 " + Wire.Decimal(myPort))]
      ensures old(skipToPort) == -1 ==>
                && nextNodePort == skipToPort == -1 && role == (if prevNodePort == -1 then SINGLE else TAIL)
                && sent == []
    {
      if skipToPort != NO_PORT {
        nextNodePort := skipToPort;
        skipToPort := NO_PORT;
        sent := [(nextNodePort, "UPDATE_PREV 127.0.0.1 " + Wire.Decimal(myPort))];
      } else {
        nextNodePort := NO_PORT;
        role := if prevNodePort == NO_PORT then SINGLE else TAIL;
        sent := [];
      }
    }

    /** One round of the health check. `network` gives a node's response to a message, empty when
        it cannot be reached. */
    method HealthCheck(network: (int, string) -> string) returns (sent: seq<(int, string)>)
      modifies `nextNodePort, `skipToPort, `role
      ensures old(Coherent(View())) ==> Coherent(View())
      ensures old(nextNodePort) == -1 ==> sent == [] && unchanged(this)
      ensures old(nextNodePort) != -1 && network(old(nextNodePort), "PING") == "PONG" ==>
                sent == [(old(nextNodePort), "PING")] && unchanged(this)
      ensures old(nextNodePort) != -1 && network(old(nextNodePort), "PING") != "PONG" ==>
                && View() == NextFailed(old(View()))
                && nextNodePort == old(skipToPort) && skipToPort == -1
                && (old(skipToPort) == -1 ==> role == if prevNodePort == -1 then SINGLE else TAIL)
                && (old(skipToPort) != -1 ==> role == old(role))
                && sent == [(old(nextNodePort), "PING")] +
                           if old(skipToPort) == -1 then []
                           else [(old(skipToPort), "UPDATE_PREV 127.0.0.1 " + Wire.Decimal(myPort))]
    {
      sent := [];
      if nextNodePort != NO_PORT {
        sent := [(nextNodePort, "PING")];
        if network(nextNodePort, "PING") != "PONG" {
          var notices := HandleNextNodeFailure();
          sent := sent + notices;
        }
      }
    }

    method HandleUpdatePrev(port: int)
      modifies `prevNodePort, `role
      ensures View() == PrevUpdated(old(View()), port)
      ensures prevNodePort == port
      ensures role == match old(role) case HEAD => MIDDLE case MIDDLE => MIDDLE case TAIL => TAIL case SINGLE => TAIL
    {
      prevNodePort := port;
      if role == HEAD {
        role := MIDDLE;
      }
      if role == SINGLE {
        role := TAIL;
      }
    }

    method HandleUpdateNext(port: int)
      modifies `nextNodePort, `role
      ensures View() == NextUpdated(old(View()), port)
      ensures nextNodePort == port
      ensures role == match old(role) case HEAD => HEAD case MIDDLE => MIDDLE case TAIL => MIDDLE case SINGLE => HEAD
    {
      nextNodePort := port;
      if role == TAIL {
        role := MIDDLE;
      }
      if role == SINGLE {
        role := HEAD;
      }
    }

    method HandleSetSkip(port: int)
      modifies `skipToPort
      ensures View() == SkipSet(old(View()), port)
      ensures skipToPort == port
    {
      skipToPort := port;
    }

    /** Parses and stores a PUT, and passes the same text on unless this node is the end of the
        chain. */
    method HandlePut(command: string, network: (int, string) -> string)
      returns (reply: string, sent: seq<(int, string)>)
      modifies `metadataStore
      ensures Wire.ParsePut(command).None? ==> reply == "ERROR_ARGS" && sent == [] && unchanged(this)
      ensures Wire.ParsePut(command).Some? ==>
                && var meta := Wire.ParsePut(command).value;
                && View() == Stored(old(View()), meta)
                && metadataStore.Keys == old(metadataStore).Keys + {meta.filename}
                && metadataStore[meta.filename] == meta
                && (forall f :: f in old(metadataStore) && f != meta.filename ==> metadataStore[f] == old(metadataStore)[f])
      ensures Wire.ParsePut(command).Some? && (role == TAIL || role == SINGLE || nextNodePort == -1) ==>
                reply == "ACK" && sent == []
      ensures Wire.ParsePut(command).Some? && (role == HEAD || role == MIDDLE) && nextNodePort != -1 ==>
                && sent == [(nextNodePort, command)]
                && reply == if network(nextNodePort, command) == "ACK" then "ACK" else "ERROR_FORWARD"
    {
      sent := [];
      var parsed := Wire.ParsePut(command);
      if parsed.None? {
        reply := "ERROR_ARGS";
        return;
      }
      var meta := parsed.value;
      metadataStore := metadataStore[meta.filename := meta];
      var success := true;
      if role != TAIL && role != SINGLE && nextNodePort != NO_PORT {
        success := network(nextNodePort, command) == "ACK";
        sent := [(nextNodePort, command)];
      }
      reply := if success then "ACK" else "ERROR_FORWARD";
    }

    /** A node that is not the end of the chain answers no GET, whatever it has stored. */
    method HandleGet(filename: string) returns (reply: string)
      ensures reply == GetReply(View(), filename)
      ensures role == HEAD || role == MIDDLE ==> reply == "REDIRECT_TO_TAIL"
      ensures (role == TAIL || role == SINGLE) && filename !in metadataStore ==> reply == "NOT_FOUND"
      ensures (role == TAIL || role == SINGLE) && filename in metadataStore ==>
                && var meta := metadataStore[filename];
                && reply == "FOUND " + Wire.Decimal(meta.fileSize) + " " + Wire.Decimal(meta.chunkSize) + " " +
                            Wire.Decimal(meta.totalChunks) + " " + meta.rootHash + " " + Wire.Join(meta.chunkHashes)
    {
      if role != TAIL && role != SINGLE {
        reply := "REDIRECT_TO_TAIL";
        return;
      }
      if filename !in metadataStore {
        reply := "NOT_FOUND";
        return;
      }
      var meta := metadataStore[filename];
      var hashes := Wire.JoinHashes(meta.chunkHashes);
      reply := "FOUND " + Wire.Decimal(meta.fileSize) + " " + Wire.Decimal(meta.chunkSize) + " " +
               Wire.Decimal(meta.totalChunks) + " " + meta.rootHash + " " + hashes;
    }

    /** The answer to GET_STATUS. */
    method Status() returns (text: string)
      ensures text == "ROLE=" + (match role case HEAD => "HEAD" case MIDDLE => "MIDDLE" case TAIL => "TAIL"
                                 case SINGLE => "SINGLE") +
                      " NEXT=" + Wire.Decimal(nextNodePort) + " PREV=" + Wire.Decimal(prevNodePort)
    {
      var name := if role == HEAD then "HEAD" else if role == MIDDLE then "MIDDLE"
                  else if role == TAIL then "TAIL" else "SINGLE";
      text := "ROLE=" + name + " NEXT=" + Wire.Decimal(nextNodePort) + " PREV=" + Wire.Decimal(prevNodePort);
    }

    /** One turn of the loop that serves a connection: the replies, the messages to other nodes,
        and whether the connection stays open. A GET or a rewiring command with an argument missing
        is not answered at all. */
    method HandleCommand(command: string, network: (int, string) -> string)
      returns (replies: seq<string>, sent: seq<(int, string)>, open: bool)
      modifies this
      ensures open <==> command != "" && Wire.OpOf(command) != "DIE"
      ensures running <==> old(running) && Wire.OpOf(command) != "DIE"
      ensures Wire.OpOf(command) != "PUT" ==> metadataStore == old(metadataStore) && sent == []
      ensures Wire.OpOf(command) !in {"UPDATE_PREV", "UPDATE_NEXT", "SET_SKIP"} ==>
                unchanged(`nextNodePort, `prevNodePort, `skipToPort, `role)
      ensures command == "" || Wire.OpOf(command) == "DIE" ==> replies == []
      ensures Wire.OpOf(command) == "PUT" && Wire.ParsePut(command).None? ==>
                replies == ["ERROR_ARGS"] && sent == [] && metadataStore == old(metadataStore)
      ensures Wire.OpOf(command) == "PUT" && Wire.ParsePut(command).Some? ==>
                && var meta := Wire.ParsePut(command).value;
                && metadataStore == old(metadataStore)[meta.filename := meta]
                && if (role == HEAD || role == MIDDLE) && nextNodePort != -1 then
                     && sent == [(nextNodePort, command)]
                     && replies == [if network(nextNodePort, command) == "ACK" then "ACK" else "ERROR_FORWARD"]
                   else
                     sent == [] && replies == ["ACK"]
      ensures Wire.OpOf(command) == "GET" && Wire.ArgumentOf(command).None? ==> replies == []
      ensures Wire.OpOf(command) == "GET" && Wire.ArgumentOf(command).Some? ==>
                && |replies| == 1
                && var file := Wire.ArgumentOf(command).value;
                if role == HEAD || role == MIDDLE then replies[0] == "REDIRECT_TO_TAIL"
                else if file !in metadataStore then replies[0] == "NOT_FOUND"
                else
                  var meta := metadataStore[file];
                  replies[0] == "FOUND " + Wire.Decimal(meta.fileSize) + " " + Wire.Decimal(meta.chunkSize) + " " +
                                Wire.Decimal(meta.totalChunks) + " " + meta.rootHash + " " + Wire.Join(meta.chunkHashes)
      ensures Wire.OpOf(command) == "PING" ==> replies == ["PONG"]
      ensures Wire.OpOf(command) == "UPDATE_PREV" ==>
                && nextNodePort == old(nextNodePort) && skipToPort == old(skipToPort)
                && if Wire.PortOf(command).None? then unchanged(this) && replies == []
                   else && prevNodePort == Wire.PortOf(command).value && replies == ["ACK"]
                        && role == match old(role)
                                   case HEAD => MIDDLE case MIDDLE => MIDDLE case TAIL => TAIL case SINGLE => TAIL
      ensures Wire.OpOf(command) == "UPDATE_NEXT" ==>
                && prevNodePort == old(prevNodePort) && skipToPort == old(skipToPort)
                && if Wire.PortOf(command).None? then unchanged(this) && replies == []
                   else && nextNodePort == Wire.PortOf(command).value && replies == ["ACK"]
                        && role == match old(role)
                                   case HEAD => HEAD case MIDDLE => MIDDLE case TAIL => MIDDLE case SINGLE => HEAD
      ensures Wire.OpOf(command) == "SET_SKIP" ==>
                && prevNodePort == old(prevNodePort) && nextNodePort == old(nextNodePort) && role == old(role)
                && if Wire.PortOf(command).None? then unchanged(this) && replies == []
                   else skipToPort == Wire.PortOf(command).value && replies == ["ACK"]
      ensures Wire.OpOf(command) == "GET_STATUS" ==>
                replies == ["ROLE=" + (match role case HEAD => "HEAD" case MIDDLE => "MIDDLE" case TAIL => "TAIL"
                                       case SINGLE => "SINGLE") +
                            " NEXT=" + Wire.Decimal(nextNodePort) + " PREV=" + Wire.Decimal(prevNodePort)]
      ensures command != "" &&
              Wire.OpOf(command) !in {"PUT", "GET", "PING", "UPDATE_PREV", "UPDATE_NEXT", "SET_SKIP", "GET_STATUS", "DIE"}
              ==> replies == ["ERROR"]
    {
      hide Wire.OpOf, Wire.ArgumentOf, Wire.PortOf, Wire.ParsePut, Wire.Decimal, Wire.Join;
      replies, sent, open := [], [], true;
      if command == "" {
        NoCommand();
        open := false;
        return;
      }
      var op := Wire.OpOf(command);
      if op == "PUT" {
        var reply;
        reply, sent := HandlePut(command, network);
        replies := [reply];
      } else if op == "GET" {
        var filename := Wire.ArgumentOf(command);
        if filename.Some? {
          var reply := HandleGet(filename.value);
          replies := [reply];
        }
      } else if op == "PING" {
        replies := ["PONG"];
      } else if op == "UPDATE_PREV" {
        var port := Wire.PortOf(command);
        if port.Some? {
          HandleUpdatePrev(port.value);
          replies := ["ACK"];
        }
      } else if op == "UPDATE_NEXT" {
        var port := Wire.PortOf(command);
        if port.Some? {
          HandleUpdateNext(port.value);
          replies := ["ACK"];
        }
      } else if op == "SET_SKIP" {
        var port := Wire.PortOf(command);
        if port.Some? {
          HandleSetSkip(port.value);
          replies := ["ACK"];
        }
      } else if op == "GET_STATUS" {
        var text := Status();
        replies := [text];
      } else if op == "DIE" {
        running := false;
        open := false;
      } else {
        replies := ["ERROR"];
      }
    }
  }

  lemma NoCommand()
    ensures Wire.OpOf("") == ""
  {
  }
}
