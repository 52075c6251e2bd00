/** One storage node: what a connection's command does to the store and what it answers. */
module StorageNodes {
  import opened Common
  import opened Words
  import Wire

  type Blobs = map<string, seq<Byte>>

  /** The effect of a command on the store, and the answer: the messages sent, the data sent
      after them, whether the connection stays open and whether the node goes on running. */
  datatype Reaction = Reaction(blobs: Blobs, replies: seq<string>, sent: seq<Byte>, open: bool, running: bool)

  function Blob(blobs: Blobs, hash: string): seq<Byte> {
    if hash in blobs then blobs[hash] else []
  }

  function React(blobs: Blobs, command: string, received: seq<Byte>): Reaction {
    var argument := Wire.ArgumentOf(command);
    match Wire.OpOf(command)
    case "STORE" =>
      if argument.None? then Reaction(blobs, ["ERROR"], [], true, true)
      else if received == [] then Reaction(blobs, ["READY"], [], false, true)
      else Reaction(blobs[argument.value := received], ["READY", "ACK"], [], true, true)
    case "GET" =>
      if argument.None? then Reaction(blobs, ["ERROR"], [], true, true)
      else
        var data := Blob(blobs, argument.value);
        Reaction(blobs, [if data == [] then "NOT_FOUND" else "FOUND"], data, true, true)
    case "DIE" => Reaction(blobs, [], [], false, false)
    case _ => if command == "" then Reaction(blobs, [], [], false, true) else Reaction(blobs, ["ERROR"], [], true, true)
  }

  /** The store holds no empty data. */
  ghost predicate NoEmptyBlob(blobs: Blobs) {
    forall h :: h in blobs ==> blobs[h] != []
  }

  /** No command puts empty data into the store or takes anything out, and only a STORE with data
      changes anything, at its own key. */
  lemma ReactionKeeps(blobs: Blobs, command: string, received: seq<Byte>)
    requires NoEmptyBlob(blobs)
    ensures var after := React(blobs, command, received).blobs;
            && NoEmptyBlob(after) && blobs.Keys <= after.Keys
            && (forall h :: h in blobs && after[h] != blobs[h] ==>
                  Wire.OpOf(command) == "STORE" && Wire.ArgumentOf(command) == Some(h) && after[h] == received)
  {
  }

  lemma StoreReaction(blobs: Blobs, hash: string, data: seq<Byte>)
    requires Wire.Token(hash) && data != []
    ensures React(blobs, "STORE" + " " + hash, data) == Reaction(blobs[hash := data], ["READY", "ACK"], [], true, true)
  {
    assert Wire.Token("STORE");
    Wire.ArgumentSurvivesIff("STORE", hash);
    hide Wire.OpOf, Wire.ArgumentOf, Wire.Token;
  }

  /** What one client has stored, the next GET for it returns; a key never stored is not found. */
  lemma StoredIsReturned(blobs: Blobs, hash: string, data: seq<Byte>, wanted: string)
    requires Wire.Token(hash) && Wire.Token(wanted) && data != [] && NoEmptyBlob(blobs)
    ensures var stored := React(blobs, "STORE" + " " + hash, data);
            var answer := React(stored.blobs, "GET" + " " + wanted, []);
            && stored.replies == ["READY", "ACK"]
            && (answer.replies == ["FOUND"] <==> wanted == hash || wanted in blobs)
            && (wanted == hash ==> answer.sent == data)
            && (wanted != hash && wanted in blobs ==> answer.sent == blobs[wanted])
            && answer.blobs == stored.blobs
  {
    assert Wire.Token("GET");
    StoreReaction(blobs, hash, data);
    Wire.ArgumentSurvivesIff("GET", wanted);
    hide Wire.OpOf, Wire.ArgumentOf, Wire.Token;
  }

  class StorageNode {
    var storage: Blobs
    var running: bool

    constructor ()
      ensures storage == map[] && running
    {
      storage := map[];
      running := true;
    }

    /** One turn of the loop that serves a connection; `received` is the data that the client
        sends if it is asked to. Only a DIE stops the node, only a STORE with a key and data changes
        the store, and only a GET that finds something sends data. */
    method HandleCommand(command: string, received: seq<Byte>)
      returns (replies: seq<string>, sent: seq<Byte>, open: bool)
      modifies this
      ensures running <==> old(running) && Wire.OpOf(command) != "DIE"
      ensures Wire.OpOf(command) == "DIE" ==> replies == [] && sent == [] && !open && storage == old(storage)
      ensures Wire.OpOf(command) == "STORE" && Wire.ArgumentOf(command).Some? && received == [] ==>
                replies == ["READY"] && sent == [] && !open && storage == old(storage)
      ensures Wire.OpOf(command) == "STORE" && Wire.ArgumentOf(command).Some? && received != [] ==>
                && replies == ["READY", "ACK"] && sent == [] && open
                && var key := Wire.ArgumentOf(command).value;
                && storage.Keys == old(storage).Keys + {key} && storage[key] == received
                && forall h :: h in old(storage) && h != key ==> storage[h] == old(storage)[h]
      ensures Wire.OpOf(command) == "GET" && Wire.ArgumentOf(command).Some? ==>
                && open && storage == old(storage)
                && var key := Wire.ArgumentOf(command).value;
                   if key in storage && storage[key] != [] then replies == ["FOUND"] && sent == storage[key]
                   else replies == ["NOT_FOUND"] && sent == []
      ensures Wire.OpOf(command) in {"STORE", "GET"} && Wire.ArgumentOf(command).None? ==>
                replies == ["ERROR"] && sent == [] && open && storage == old(storage)
      ensures command != "" && Wire.OpOf(command) !in {"STORE", "GET", "DIE"} ==>
                replies == ["ERROR"] && sent == [] && open && storage == old(storage)
      ensures command == "" ==> replies == [] && sent == [] && !open && storage == old(storage)
      ensures var r := React(old(storage), command, received);
              && storage == r.blobs && replies == r.replies && sent == r.sent && open == r.open
              && running == (old(running) && r.running)
    {
      hide Wire.OpOf, Wire.ArgumentOf;
      replies, sent, open := [], [], true;
      if command == "" {
        NoCommand();
        open := false;
        return;
      }
      var op := Wire.OpOf(command);
      var hash := Wire.ArgumentOf(command);
      if op == "STORE" {
        if hash.None? {
          replies := ["ERROR"];
          return;
        }
        replies := ["READY"];
        if received != [] {
          storage := storage[hash.value := received];
          replies := replies + ["ACK"];
        } else {
          open := false;
        }
      } else if op == "GET" {
        if hash.None? {
          replies := ["ERROR"];
          return;
        }
        if hash.value in storage {
          sent := storage[hash.value];
        }
        replies := [if sent != [] then "FOUND" else "NOT_FOUND"];
      } else if op == "DIE" {
        running := false;
        open := false;
      } else {
        replies := ["ERROR"];
      }
    }
  }

  // ----- The client's side of a connection -----

  /** Sending a chunk to a node: the client counts it as stored only when the node acknowledges it. */
  method UploadChunk(node: StorageNode, hash: string, data: seq<Byte>) returns (ok: bool)
    modifies node
    ensures Wire.Token(hash) ==> (ok <==> data != [])
    ensures Wire.Token(hash) && data != [] ==> node.storage == old(node.storage)[hash := data]
    ensures Wire.Token(hash) && data == [] ==> node.storage == old(node.storage)
    ensures node.running == old(node.running)
  {
    hide Wire.OpOf, Wire.ArgumentOf, Wire.Token;
    StoreText(hash);
    var replies, sent, open := node.HandleCommand("STORE " + hash, data);
    ok := replies == ["READY", "ACK"];
  }

  /** Asking a node for a chunk; nothing comes back unless the node says FOUND. */
  method DownloadChunk(node: StorageNode, hash: string) returns (data: seq<Byte>)
    modifies node
    ensures Wire.Token(hash) ==> data == if hash in old(node.storage) then old(node.storage)[hash] else []
    ensures node.storage == old(node.storage) && node.running == old(node.running)
  {
    hide Wire.OpOf, Wire.ArgumentOf, Wire.Token;
    GetText(hash);
    var replies, sent, open := node.HandleCommand("GET " + hash, []);
    data := if replies == ["FOUND"] then sent else [];
  }

  lemma StoreText(hash: string)
    ensures Wire.OpOf("STORE " + hash) == "STORE"
    ensures Wire.Token(hash) ==> Wire.ArgumentOf("STORE " + hash) == Some(hash)
  {
    Wire.ArgumentSurvivesIff("STORE", hash);
    hide Wire.OpOf, Wire.ArgumentOf, Wire.Token;
    assert "STORE" + " " + hash == "STORE " + hash;
  }

  lemma GetText(hash: string)
    ensures Wire.OpOf("GET " + hash) == "GET"
    ensures Wire.Token(hash) ==> Wire.ArgumentOf("GET " + hash) == Some(hash)
  {
    Wire.ArgumentSurvivesIff("GET", hash);
    hide Wire.OpOf, Wire.ArgumentOf, Wire.Token;
    assert "GET" + " " + hash == "GET " + hash;
  }

  lemma NoCommand()
    ensures Wire.OpOf("") == ""
  {
  }
}
