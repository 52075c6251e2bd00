/** The storage nodes as a transition system: any number of clients with STOREs under way at any
    number of nodes. A STORE has two phases, the READY handshake and the data, and only the
    update of a node's store is a critical section; nodes may crash at any moment and do not come
    back. Clients store every chunk under its digest. */
module StorageSystem {
  import opened Words
  import opened HashUtils
  import opened StorageNodes
  import Sha256
  import Wire

  /** How far a STORE has come: what the client and the handler have exchanged. */
  datatype Phase = Connected | ReadySent | Delivered | Kept | Acked | Refused

  /** One client connection that stores a chunk; `owner` is the upload it belongs to. */
  datatype Conn = Conn(owner: nat, node: string, hash: string, data: seq<Byte>, phase: Phase)

  datatype Storage = Storage(blobs: map<string, Blobs>, up: set<string>, conns: seq<Conn>)

  datatype StorageStep =
    | OpenStore(owner: nat, node: string, data: seq<Byte>)
    | SayReady(c: nat)
    | SendData(c: nat)
    | Commit(c: nat)
    | SayAck(c: nat)
    | Break(c: nat)
    | Kill(node: string)

  /** The nodes at the start: all up, all empty. */
  function NoBlobs(nodes: set<string>): Storage {
    Storage(map n | n in nodes :: map[], nodes, [])
  }

  predicate ConnIs(s: Storage, c: nat, phase: Phase) {
    c < |s.conns| && s.conns[c].phase == phase && s.conns[c].node in s.blobs
  }

  predicate Serving(s: Storage, c: nat) {
    c < |s.conns| && s.conns[c].node in s.up
  }

  predicate StepEnabled(s: Storage, st: StorageStep) {
    match st
    case OpenStore(_, node, data) => node in s.up && node in s.blobs && data != []
    case SayReady(c) => ConnIs(s, c, Connected) && Serving(s, c)
    case SendData(c) => ConnIs(s, c, ReadySent) && Serving(s, c)
    case Commit(c) => ConnIs(s, c, Delivered) && Serving(s, c)
    case SayAck(c) => ConnIs(s, c, Kept) && Serving(s, c)
    case Break(c) => c < |s.conns| && s.conns[c].phase != Acked && !Serving(s, c)
    case Kill(node) => node in s.up
  }

  function SetPhase(s: Storage, c: nat, phase: Phase): Storage
    requires c < |s.conns|
  {
    s.(conns := s.conns[c := s.conns[c].(phase := phase)])
  }

  function DoCommit(s: Storage, c: nat): Storage
    requires StepEnabled(s, Commit(c))
  {
    var conn := s.conns[c];
    SetPhase(s, c, Kept).(blobs := s.blobs[conn.node := s.blobs[conn.node][conn.hash := conn.data]])
  }

  function NextStorage(s: Storage, st: StorageStep): Storage
    requires StepEnabled(s, st)
  {
    match st
    case OpenStore(owner, node, data) =>
      s.(conns := s.conns + [Conn(owner, node, Sha256.Digest(data), data, Connected)])
    case SayReady(c) => SetPhase(s, c, ReadySent)
    case SendData(c) => SetPhase(s, c, Delivered)
    case Commit(c) => DoCommit(s, c)
    case SayAck(c) => SetPhase(s, c, Acked)
    case Break(c) => SetPhase(s, c, Refused)
    case Kill(node) => s.(up := s.up - {node})
  }

  /** A committed STORE is what the node's handler does with the client's command and data. */
  lemma CommitIsReaction(s: Storage, c: nat)
    requires StepEnabled(s, Commit(c)) && StorageInv(s)
    ensures var conn := s.conns[c];
            && DoCommit(s, c).blobs[conn.node] == React(s.blobs[conn.node], "STORE" + " " + conn.hash, conn.data).blobs
            && React(s.blobs[conn.node], "STORE" + " " + conn.hash, conn.data).replies == ["READY", "ACK"]
  {
    var conn := s.conns[c];
    assert ConnOk(s, c);
    DigestIsToken(conn.data);
    hide Sha256.Digest, React;
    StoreReaction(s.blobs[conn.node], conn.hash, conn.data);
  }

  /** Every digest travels as one word without commas. */
  lemma DigestIsToken(data: seq<Byte>)
    ensures Wire.Token(Sha256.Digest(data)) && ',' !in Sha256.Digest(data)
  {
    Sha256.DigestShape(data);
    hide Sha256.Digest;
  }

  // ----- The invariant -----

  /** Every entry is non-empty and stored under its own digest. */
  ghost predicate ContentAddressed(blobs: Blobs) {
    forall h :: h in blobs ==> blobs[h] != [] && h == Sha256.Digest(blobs[h])
  }

  ghost predicate Holds(s: Storage, node: string, hash: string) {
    node in s.blobs && hash in s.blobs[node]
  }

  ghost predicate ConnOk(s: Storage, c: nat)
    requires c < |s.conns|
  {
    var conn := s.conns[c];
    && conn.data != [] && conn.hash == Sha256.Digest(conn.data) && conn.node in s.blobs
    && (conn.phase.Kept? || conn.phase.Acked? ==> Holds(s, conn.node, conn.hash))
  }

  ghost predicate StorageInv(s: Storage) {
    && (forall n :: n in s.blobs ==> ContentAddressed(s.blobs[n]))
    && (forall c: nat :: c < |s.conns| ==> ConnOk(s, c))
  }

  /** What no step takes back: entries stay, and an entry that changes is a collision; crashed
      nodes stay down; an acknowledged STORE stays acknowledged. */
  ghost predicate Persists(s: Storage, t: Storage) {
    && (forall n, h :: Holds(s, n, h) ==> Holds(t, n, h))
    && (forall n, h :: Holds(s, n, h) ==> t.blobs[n][h] == s.blobs[n][h] || Collision(s.blobs[n][h], t.blobs[n][h]))
    && t.up <= s.up && s.blobs.Keys <= t.blobs.Keys
    && |s.conns| <= |t.conns|
    && forall c: nat :: c < |s.conns| ==>
         t.conns[c].(phase := s.conns[c].phase) == s.conns[c] && (s.conns[c].phase.Acked? ==> t.conns[c].phase.Acked?)
  }

  lemma CommitPersists(s: Storage, c: nat)
    requires StorageInv(s) && StepEnabled(s, Commit(c))
    ensures Persists(s, DoCommit(s, c)) && StorageInv(DoCommit(s, c))
  {
    hide Sha256.Digest;
    var conn, t := s.conns[c], DoCommit(s, c);
    assert ConnOk(s, c);
    forall n, h | Holds(s, n, h)
      ensures Holds(t, n, h) && (t.blobs[n][h] == s.blobs[n][h] || Collision(s.blobs[n][h], t.blobs[n][h]))
    {
      assert ContentAddressed(s.blobs[n]);
    }
    assert ContentAddressed(s.blobs[conn.node]);
    forall d: nat | d < |t.conns|
      ensures ConnOk(t, d)
    {
      assert ConnOk(s, d);
    }
  }

  lemma StepKeepsStorage(s: Storage, st: StorageStep)
    requires StorageInv(s) && StepEnabled(s, st)
    ensures StorageInv(NextStorage(s, st)) && Persists(s, NextStorage(s, st))
  {
    hide Sha256.Digest;
    if st.Commit? {
      CommitPersists(s, st.c);
    } else {
      var t := NextStorage(s, st);
      assert t.blobs == s.blobs;
      forall d: nat | d < |t.conns|
        ensures ConnOk(t, d)
      {
        assert d < |s.conns| ==> ConnOk(s, d);
      }
    }
  }

  // ----- Over every run -----

  ghost predicate StorageRun(nodes: set<string>, states: seq<Storage>, steps: seq<StorageStep>) {
    && |states| == |steps| + 1 && states[0] == NoBlobs(nodes)
    && forall i: nat :: i < |steps| ==> StepEnabled(states[i], steps[i]) && states[i + 1] == NextStorage(states[i], steps[i])
  }

  lemma {:induction false} EveryStateIsSound(nodes: set<string>, states: seq<Storage>, steps: seq<StorageStep>, k: nat)
    requires StorageRun(nodes, states, steps) && k < |states|
    ensures StorageInv(states[k])
  {
    if k > 0 {
      EveryStateIsSound(nodes, states, steps, k - 1);
      StepKeepsStorage(states[k - 1], steps[k - 1]);
    }
  }

  /** At every moment of every run: entries are non-empty and keyed by their digest. */
  lemma StoresAreContentAddressed(nodes: set<string>, states: seq<Storage>, steps: seq<StorageStep>,
                                  k: nat, node: string, hash: string)
    requires StorageRun(nodes, states, steps) && k < |states| && Holds(states[k], node, hash)
    ensures states[k].blobs[node][hash] != [] && hash == Sha256.Digest(states[k].blobs[node][hash])
  {
    EveryStateIsSound(nodes, states, steps, k);
    hide Sha256.Digest;
    assert ContentAddressed(states[k].blobs[node]);
  }

  /** Once a node holds a chunk, it holds it for good, with the same bytes unless the run
      exhibits a SHA-256 collision. */
  lemma {:induction false} ChunksAreStable(nodes: set<string>, states: seq<Storage>, steps: seq<StorageStep>,
                                           k: nat, l: nat, node: string, hash: string)
    requires StorageRun(nodes, states, steps) && k <= l < |states| && Holds(states[k], node, hash)
    ensures Holds(states[l], node, hash)
    ensures states[l].blobs[node][hash] == states[k].blobs[node][hash] ||
            Collision(states[k].blobs[node][hash], states[l].blobs[node][hash])
  {
    hide Sha256.Digest;
    StoresAreContentAddressed(nodes, states, steps, k, node, hash);
    if k < l {
      ChunksAreStable(nodes, states, steps, k, l - 1, node, hash);
      EveryStateIsSound(nodes, states, steps, l - 1);
      StepKeepsStorage(states[l - 1], steps[l - 1]);
      StoresAreContentAddressed(nodes, states, steps, l, node, hash);
    }
  }

  /** An acknowledged STORE means that the node holds the chunk, then and ever after: its bytes are
      those sent, or they collide with them. */
  lemma AcknowledgedIsHeld(nodes: set<string>, states: seq<Storage>, steps: seq<StorageStep>, k: nat, l: nat, c: nat)
    requires StorageRun(nodes, states, steps) && k <= l < |states|
    requires c < |states[k].conns| && states[k].conns[c].phase.Acked?
    ensures var conn := states[k].conns[c];
            && Holds(states[l], conn.node, conn.hash)
            && (states[l].blobs[conn.node][conn.hash] == conn.data ||
                Collision(conn.data, states[l].blobs[conn.node][conn.hash]))
  {
    hide Sha256.Digest;
    EveryStateIsSound(nodes, states, steps, k);
    var conn := states[k].conns[c];
    assert ConnOk(states[k], c);
    ChunksAreStable(nodes, states, steps, k, l, conn.node, conn.hash);
    StoresAreContentAddressed(nodes, states, steps, l, conn.node, conn.hash);
  }
}
