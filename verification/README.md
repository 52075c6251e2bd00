# Verification of the distributed file store

A Dafny model of the store: a client that cuts files into chunks of one megabyte, hashes them and
places every chunk on the two nodes that a consistent-hash ring names for its hash; storage nodes
that keep chunks under their SHA-256 digest; and a chain of metadata nodes that is meant to be a
linearizable map from file name to metadata. `dafny verify dfyconfig.toml` checks all of it.

What is proved, layer by layer:

* **The metadata chain** (`ChainSystem` and the `Chain*` modules around it). n nodes, any number of
  clients sweeping over them, any number of concurrent handlers, crashes, failure detection, skip
  nodes and their splices form one transition system in which every critical section, connect and
  receive is a step. Over every run: what a live node has stored, every live node before it has
  stored; an acknowledgement has come back along a path of nodes that all stored the PUT; forwarding
  ends and never deadlocks; a GET returns only what was put under that name. Crash-free runs are
  linearizable with every outcome counted. Runs in which only the last live node crashes, any number
  of times, and uploads of one name do not overlap are linearizable in acknowledged PUTs and
  successful GETs. In every chain of two nodes or more the two assumptions are exactly what is needed:
  all runs that keep a chosen set of assumptions are linearizable if and only if the set has both.
  Three families of runs show how a crash in the middle without a skip node, a crash of the head, and
  overlapping uploads break it.
* **SHA-256** (`Words`, `Sha256Spec`, `Sha256`, `Sha256Machine`, `Sha256Example`). The block loop with its
  two cases of padding, the schedule and round loops and the hex output are proved equal to a
  specification written from FIPS 180-4, down to the constants as fractions of roots of primes and to
  the padding bit by bit. The specification itself is tied down twice over: every word operation and
  every round is what a machine with 32-bit registers computes, and the digest of "abc" is the one
  that the standard publishes.
* **The ring** (`ConsistentHash`). The sorted map with signed positions, wrap-around search and
  modular walk returns the nearest nodes by clockwise distance; adding or removing a node changes
  every replica list by exactly that node, whatever the key and the number of replicas.
* **Chunks and identifiers** (`FileUtils`, `HashUtils`, `Sorting`). Splitting and reconstructing are
  inverse for any permutation of the chunks; equal identifiers mean equal files or an extracted
  collision.
* **The whole data path** (`StorageNode`, `StorageSystem`, `DataPath`, `DataPathInvariant`, `EndToEnd`,
  `Client`). Uploads, downloads, storage handlers and the chain run interleaved in one system:
  metadata never runs ahead of data, and a download that finishes has written exactly the uploaded
  bytes or the run exhibits a SHA-256 collision.
* **Order and loss as users see them** (`ServedInOrder`, `Replication`, `DataLoss`). The chain's part of
  every run of the data path is a run of the chain, so under the two assumptions a download begun
  after an acknowledged upload is served from that upload or a later one of the name. A published
  chunk has a live replica exactly while one of its two nodes is up; one storage failure is always
  survived, two can lose an acknowledged file.
* **The wire protocol and the nodes** (`Wire`, `WireFormat`, `MetadataNode`, `NodeInChain`, `Topology`). Text
  commands and replies are printed and parsed character by character. A metadata node's code, command
  by command, does what the steps of the chain do to a node: a client understands a node's reply to
  a GET as some metadata exactly when the chain's handler finds that metadata. The nodes that read
  the same configuration form one chain.

SHA-256 is never taken to be injective: where the digest matters, a theorem concludes "equal, or here
are two different byte strings with the same digest".

## How the model reads the program

* A connection is a reliable request and response; a request to a node that is down yields the empty
  string. Crashes are final, and a health check detects a failure only after the next node crashed,
  at any later time.
* Reading a node's role together with its next pointer is one atomic step, and so is the second read of
  the next pointer before the connect (metadata_node.cpp:188 and 201 are merged), so a splice between
  the two reads is not a behaviour of the model.
* Nodes of the chain are named by their place in the initial chain, which `Topology` shows to be the
  order of their ids; a client's list of metadata nodes is in chain order.
* After DIE the handlers of a node may go on running, as the program's do, but their replies reach
  no one.
* SET_SKIP names the node right after the current next node, counting only live ones in between.
* Signed overflow in the position hash is two's-complement wrap-around to 32 bits.
* The standard library's sort is represented by a sort of which only order and permutation are used,
  and its ordered map by a map with a lower-bound search.

Three promises of the repository's README.md hold of the code only in part, and the model follows the
code:

* Linearizable metadata (README.md:9 and 25). Reads from the tail and acknowledgement after it give
  linearizability if and only if the last live node alone crashes and uploads of one name do not
  overlap (`ChainCounterexamples.LinearizableIff`).
* Data that survives a storage failure (README.md:10). With two nodes or more on the ring it does, for
  every single failure (`Replication.OneFailureIsSurvived`). But a client takes a chunk for stored as
  soon as one of its two nodes acknowledged it, so an upload acknowledged during one failure can be
  lost in the next one (`DataLoss.AcknowledgedUploadIsLost`); a chunk survives any further crash
  exactly when both its nodes acknowledged it and are up (`Replication.SurvivesAnyCrashIff`).
* Integrity checked on download (README.md:40). A download checks no hash: with a storage node that
  answers other bytes, these are written (`Clients.OtherBytesAreAccepted`), since all that decides is
  whether every chunk is answered at all (`Clients.DownloadedIffAvailable`). That the bytes are
  right follows from what the storage nodes keep.

## Model

| member | source | states |
|---|---|---|
| ChainContainment.StepKeepsInv | src/metadata/metadata_node.cpp:69-212 | every step of every kind, with crashes, sweeps and splices, keeps the chain invariant, and takes back no stored PUT and no crash |
| ChainContainment.Containment | src/metadata/metadata_node.cpp:181-189 | in every state of every run, a PUT stored at a node is stored at every live node before it |
| ChainContainment.AcknowledgedReachedEnd | src/metadata/metadata_node.cpp:187-196 | an acknowledged PUT is, from then on, at every live node up to one that has no next node |
| ChainContainment.FailedIsStillStored | src/client/client.cpp:68-77 | an upload that failed everywhere is nevertheless stored at every node still up |
| ChainContainment.TablesHoldPuts | src/metadata/metadata_node.cpp:164-184 | a table holds, under a name, exactly some metadata that a client put under that name |
| ChainAnswers.GetsReturnPuts | src/metadata/metadata_node.cpp:214-237 | whatever crashes, a GET that finds something returns metadata put under that very name |
| ChainProgress.AckedAlongPath | src/metadata/metadata_node.cpp:187-211 | an acknowledgement has come back along handlers at ever later nodes that all stored the PUT, from one at a node with no next |
| ChainProgress.HandlerStepWorks | src/metadata/metadata_node.cpp:181-211 | every step of a PUT handler lowers the total work left |
| ChainProgress.ForwardingIsBounded | src/metadata/metadata_node.cpp:199-212 | however the handlers are scheduled, they take no more steps than the work in the state they start from |
| ChainProgress.HandlerCanStep | src/metadata/metadata_node.cpp:199-212 | from an unfinished PUT handler a path of handlers, each waiting for the next further down, leads to one that can take a step: no deadlock, whatever has crashed |
| ChainProgress.QuietMeansAnswered | src/metadata/metadata_node.cpp:187-197 | when no handler can step, every PUT at a live node has been answered |
| ChainLinearizable.StepUndisturbed | src/metadata/metadata_node.cpp:159-237 | in a chain without crashes every step keeps the handlers of one PUT at different nodes, the earlier one waiting or acknowledged |
| ChainLinearizable.StepExplained | src/metadata/metadata_node.cpp:159-237 | every step extends an order of effects, a PUT at the tail's store and a GET at the tail's lookup, that explains all answers |
| ChainLinearizable.CrashFreeRunsLinearizable | src/metadata/metadata_node.cpp:159-237 | every crash-free run of any chain is linearizable with every outcome definite, overlapping PUTs included |
| ChainTailCrash.StepOrderly | src/metadata/metadata_node.cpp:69-84 | with crashes at the end only and one upload per name at a time, every step keeps the latest PUT of a name at every live node that has stored it |
| ChainTailCrash.LiveNodesHoldAcknowledged | src/metadata/metadata_node.cpp:78-83 | in such runs every live node, so also the one that answers GETs, holds the last acknowledged PUT of a name or a later attempted one |
| ChainTailLinearizable.TableIsReplay | src/metadata/metadata_node.cpp:214-237 | the answering node's table is what the order of effects leaves behind |
| ChainTailLinearizable.LaterAnswer | README.md:25 | in such runs a GET invoked after a PUT was acknowledged returns what that PUT or a later one of the name has put |
| ChainTailLinearizable.TailCrashRunsLinearizable | src/metadata/metadata_node.cpp:69-84 | such runs are linearizable in acknowledged PUTs and successful GETs |
| ChainCounterexamples.MiddleCrashNotLinearizable | src/metadata/metadata_node.cpp:78-83 | for every chain of three or more, a middle crash without a skip node has a run that is not linearizable |
| ChainCounterexamples.HeadCrashNotLinearizable | src/client/client.cpp:68-77 | for every chain of two or more, a head crash with a request in flight has a run that is not linearizable |
| ChainCounterexamples.OverlapNotLinearizable | src/metadata/metadata_node.cpp:181-189 | for every chain of two or more, overlapping uploads of one name with crashes at the end only have a run that is not linearizable |
| ChainCounterexamples.LinearizableIff | README.md:9 | for every chain of two or more, all runs that keep a set of assumptions are linearizable if and only if the set has both: crashes at the end only, and one upload of a name at a time |
| ChainService.UndisturbedUpload | src/client/client.cpp:68-77 | from any reachable state, an upload left alone is acknowledged and stored along the whole live path |
| ChainService.UndisturbedDownload | src/client/client.cpp:129-136 | from any reachable state, a download left alone returns what the last live node holds, if it is the end of the chain |
| ChainHistory.StepHistory | src/client/client.cpp:68-77 | the clients' history has one invocation of each operation and the returns of those with a result |
| MapObject.AppendEntry | README.md:9 | an operation appended to a linearization order keeps the order legal |
| MapObject.RemoveGet | README.md:9 | a lookup whose answer is lost may be taken out of a linearization order |
| MetadataNodes.RewireKeepsRolesIff | src/metadata/metadata_node.cpp:69-143 | a rewiring command or a failure keeps the roles right exactly when it is a proper one |
| MetadataNodes.RolesAlwaysRight | src/metadata/metadata_node.cpp:110-143 | after any proper sequence of rewirings a node is terminal iff it has no next, HEAD or SINGLE only without a previous node, and answers GETs exactly when it does not forward |
| MetadataNodes.StoredIsServed | src/metadata/metadata_node.cpp:229-236 | what a terminal node stored, a client's parser gets back |
| MetadataNodes.MetadataNode.constructor | src/metadata/metadata_node.cpp:10-15 | a new node is TAIL iff it has no next node and HEAD otherwise, knows no other neighbour, and has an empty table |
| MetadataNodes.MetadataNode.HandleNextNodeFailure | src/metadata/metadata_node.cpp:69-92 | with a skip node: it is the next node, the role stays, and UPDATE_PREV with this node's port is sent to it; without: no next node, SINGLE or TAIL by the previous one, and nothing is sent |
| MetadataNodes.MetadataNode.HealthCheck | src/metadata/metadata_node.cpp:45-67 | asks only a next node, with PING; anything but PONG is a failure, PONG changes nothing, and the roles stay right |
| MetadataNodes.MetadataNode.HandleUpdatePrev | src/metadata/metadata_node.cpp:110-121 | the new previous node, HEAD becomes MIDDLE, SINGLE becomes TAIL, and nothing else changes |
| MetadataNodes.MetadataNode.HandleUpdateNext | src/metadata/metadata_node.cpp:122-133 | the new next node, TAIL becomes MIDDLE, SINGLE becomes HEAD, and nothing else changes |
| MetadataNodes.MetadataNode.HandleSetSkip | src/metadata/metadata_node.cpp:134-143 | the new skip node, and nothing else changes |
| MetadataNodes.MetadataNode.HandlePut | src/metadata/metadata_node.cpp:159-212 | a PUT that does not parse changes nothing; any other replaces one entry of the table, goes on unchanged to the next node from HEAD and MIDDLE only, and is acknowledged iff it need not go on or the next node answers ACK |
| MetadataNodes.MetadataNode.HandleGet | src/metadata/metadata_node.cpp:214-237 | HEAD and MIDDLE redirect, whatever they have stored; TAIL and SINGLE answer NOT_FOUND or the fields of the entry in order |
| MetadataNodes.MetadataNode.HandleCommand | src/metadata/metadata_node.cpp:94-157 | for every command, malformed ones included: the replies, the messages to other nodes, the fields that change, whether the connection stays open; only DIE stops the node |
| NodeInChain.Answer | src/metadata/metadata_node.cpp:214-237 | a node object's reply to a GET is the one that its role and table call for |
| NodeInChain.ReplyIsUnderstood | src/client/client.cpp:193-206 | a client takes from a reply the entry of a TAIL or SINGLE node that has one, and nothing from any other node |
| NodeInChain.AnswerIsReply | src/metadata/metadata_node.cpp:214-237 | the chain's CheckRole followed by Lookup ends with some metadata if and only if a client understands the node's reply as that metadata |
| NodeInChain.ReachableAnswerIsReply | src/metadata/metadata_node.cpp:214-237 | in every state of every run that equivalence holds, whatever the tables have come to hold |
| NodeInChain.StoringIsHandled | src/metadata/metadata_node.cpp:159-184 | the chain's Store puts into the table what the node parses out of the client's text, and changes nothing else |
| NodeInChain.NodeChanges | src/metadata/metadata_node.cpp:69-143 | which steps change a node's fields, and to what: those and only those of the node's own code |
| NodeInChain.NoticesAreSent | src/metadata/metadata_node.cpp:69-92 | an UPDATE_PREV notice comes into being only with a splice, goes to the new next node, and its text carries the sender's port |
| Wire.JoinHashes | src/metadata/metadata_node.cpp:229-233 | the printing loop joins the hashes with commas |
| Wire.SplitHashes | src/metadata/metadata_node.cpp:175-179 | the reading loop returns the non-empty pieces between commas |
| Wire.SplitJoin | src/client/client.cpp:106-110 | a list of non-empty comma-free hashes survives joining and splitting |
| Wire.PutRoundTrip | src/client/client.cpp:111-112 | parsing a printed PUT gives the metadata back |
| Wire.FoundRoundTrip | src/client/client.cpp:193-206 | parsing a printed FOUND gives the metadata back |
| Wire.PutSurvivesIff | src/metadata/metadata_node.cpp:159-184 | a PUT command carries its metadata unchanged if and only if the metadata is well formed |
| Wire.FoundSurvivesIff | src/metadata/metadata_node.cpp:229-236 | a FOUND reply carries the metadata unchanged under exactly that condition |
| Wire.ArgumentSurvivesIff | src/storage/storage_node.cpp:48-69 | a one-word argument is read back unchanged if and only if it is one word |
| Wire.MetadataSurvives | src/client/client.cpp:193-206 | PUT, parse, store, FOUND, parse is the identity on well-formed metadata |
| Wire.PortSurvives | src/metadata/metadata_node.cpp:86-92 | a rewiring command carries any 32-bit port |
| WireFormat.DecimalPlaces | src/client/client.cpp:111-112 | digit k from the right counts the k-th power of ten, with no leading zero |
| WireFormat.ValueStep | src/metadata/metadata_node.cpp:164-164 | digits are read positionally in base ten |
| WireFormat.WordIs | src/metadata/metadata_node.cpp:164-164 | extraction skips any white space and takes the longest word after it; it fails only when there is none |
| WireFormat.NumberIs | src/metadata/metadata_node.cpp:164-164 | extraction takes white space, a sign and all digits, and fails without digits or out of range |
| WireFormat.CommandIs | src/storage/storage_node.cpp:44-69 | operation and argument are the first two words of a command, whatever white space is around them |
| WireFormat.SplitComma | src/metadata/metadata_node.cpp:175-179 | splitting a concatenation at a comma is splitting both sides |
| WireFormat.PutFields | src/metadata/metadata_node.cpp:160-179 | which field of a PUT is which, for all values in range |
| WireFormat.FoundFields | src/client/client.cpp:193-206 | which field of a FOUND is which, for all values in range |
| WireFormat.Example | src/client/client.cpp:111-112 | one PUT and one FOUND in full, printed and parsed |
| Topology.FindNext | apps/main_metadata_node.cpp:21-41 | the nodes with an id of 11 or more, in order of their ids, and from these the one with the smallest larger id, or -1 when there is none; when the own id is repeated in the configuration, another entry with that id |
| Topology.NextInOrder | apps/main_metadata_node.cpp:26-37 | in the sorted list every entry is followed by one with the same or the next id, and the last entry has the last id |
| Topology.OneChain | apps/main_metadata_node.cpp:21-27 | nodes that sort for themselves agree on the order |
| Topology.OnePath | apps/main_metadata_node.cpp:29-39 | every metadata node once in increasing order, each with the next one's port, and only the last constructed as TAIL |
| Words.ShrBits | src/common/sha256.cpp:21-27 | the machine's right shift moves bits and fills with zeros |
| Words.ShlBits | src/common/sha256.cpp:21-21 | the machine's left shift moves bits, drops those that do not fit and fills with zeros |
| Words.OrIsSum | src/common/sha256.cpp:32-35 | or of words that share no bits is their sum |
| Words.MaskIsRemainder | src/common/sha256.cpp:83-83 | masking with 0xff is the remainder modulo 256 |
| Words.OperationBits | src/common/sha256.cpp:21-27 | bit by bit, and, or, xor and not are the logical operations |
| Sha256Spec.ChoiceAndMajority | src/common/sha256.cpp:22-23 | a bit of ch is the second word's where the first one's is set, else the third one's; a bit of maj is what two of three have |
| Sha256Spec.SigmaBits | src/common/sha256.cpp:24-27 | a bit of each sigma function is the parity of the bits of the word at the places that the rotations and the shift name |
| Sha256.Rotation | src/common/sha256.cpp:21-21 | two shifts and an or are the circular shift of section 3.2 of FIPS 180-4 |
| Sha256.BitFunctions | src/common/sha256.cpp:24-27 | the four sigma functions are those of section 4.1.2 |
| Sha256.LoadIsBlockWord | src/common/sha256.cpp:31-36 | four shifted bytes are the big-endian word of section 5.2.1 |
| Sha256.FillSchedule | src/common/sha256.cpp:29-39 | the two loops fill the array with the message schedule of section 6.2.2 |
| Sha256.RunRounds | src/common/sha256.cpp:40-46 | the 64 in-place rounds compute the recurrence of section 6.2.2 |
| Sha256.Transform | src/common/sha256.cpp:29-49 | one block transforms the state by the compression function |
| Sha256.WriteLength | src/common/sha256.cpp:72-76 | the loop from the last byte back writes the 64-bit length, big-endian, and leaves the rest of the block |
| Sha256.FullBlocks | src/common/sha256.cpp:57-62 | the block loop has hashed all full blocks of the padded message |
| Sha256.LongTail | src/common/sha256.cpp:63-71 | with 56 bytes or more left the padded message has two more blocks, which are those the program builds |
| Sha256.ShortTail | src/common/sha256.cpp:63-71 | with fewer bytes left it has one more, which is the one the program builds |
| Sha256.LastBlocks | src/common/sha256.cpp:63-77 | both branches end with the hash of all blocks of the padded message |
| Sha256.Blocks | src/common/sha256.cpp:63-77 | the padded message has exactly (len + 9 + 63) / 64 blocks |
| Sha256.PaddingIsStandard | src/common/sha256.cpp:63-76 | below 2^61 bytes the bytes hashed are, bit for bit, the padded message of section 5.1.1 |
| Sha256.ToHex | src/common/sha256.cpp:79-86 | the output loops print the 256 bits in hex, two digits a byte |
| Sha256.DigestShape | src/common/sha256.hpp:11-12 | every digest has 64 lower-case hex characters |
| Sha256.ComputeSha256 | src/common/sha256.cpp:51-87 | the program computes the digest of every input, 64 hex characters |
| Sha256.DigestText | src/common/sha256.cpp:79-86 | the digest is the eight words after the last block, each as eight hex digits, most significant first |
| Sha256Machine.LogicIsMachine | src/common/sha256.cpp:22-27 | and, or and xor of words are those of 32-bit registers |
| Sha256Machine.NotIsMachine | src/common/sha256.cpp:22-22 | not of a word is that of a register |
| Sha256Machine.SumIsMachine | src/common/sha256.cpp:38-48 | addition of words is that of registers, overflow included |
| Sha256Machine.RotationIsMachine | src/common/sha256.cpp:21-21 | rotation of a word is that of a register |
| Sha256Machine.RoundIsMachine | src/common/sha256.cpp:42-46 | one round of the standard is what the program's statements do to eight registers |
| Sha256Machine.ScheduleIsMachine | src/common/sha256.cpp:37-39 | so is one word of the message schedule |
| Sha256Example.DigestOfAbc | src/common/sha256.cpp:51-87 | the digest of "abc" is the one that FIPS 180-4 publishes |
| Sha256.RoundConstants | src/common/sha256.cpp:10-19 | the 64 constants are the fractions of the cube roots of the first 64 primes, section 4.2.2 |
| Sha256.InitialHash | src/common/sha256.cpp:52-55 | the initial state is the fractions of the square roots of the first 8 primes, section 5.3.3 |
| ConsistentHashing.HashKey | src/dht/consistent_hash.cpp:8-14 | the result lies in the signed 32-bit range and differs from the base-31 number of the bytes by a multiple of 2^32 |
| ConsistentHashing.PositionIs | src/dht/consistent_hash.cpp:8-14 | one more byte multiplies that number by 31 and adds the byte |
| ConsistentHashing.WrapStep | src/dht/consistent_hash.cpp:10-12 | wrapping at every step is wrapping once at the end |
| ConsistentHashing.MembershipKeepsPlacement | src/dht/consistent_hash.cpp:16-22 | adding and removing keep every address at its own hash |
| ConsistentHashing.OnlyOrder | src/dht/consistent_hash.cpp:32-52 | only one order of positions increases in clockwise distance |
| ConsistentHashing.RotationIsClockwise | src/dht/consistent_hash.cpp:36-43 | the signed-sorted keys from the lower bound on, and round, are the clockwise order |
| ConsistentHashing.ReplicasAreNearest | src/dht/consistent_hash.cpp:32-52 | exactly min(max(k, 0), n) nodes of the ring at increasing clockwise distance, all others further away |
| ConsistentHashing.RankedIsDistinct | src/dht/consistent_hash.cpp:47-49 | nodes at increasing distance are pairwise distinct, so the search for duplicates never drops one |
| ConsistentHashing.ReplicasGrow | src/dht/consistent_hash.cpp:44-51 | the list for k is a prefix of the list for k + 1 |
| ConsistentHashing.AddOnlyInserts | src/dht/consistent_hash.cpp:16-18 | a node at a fresh position is inserted into every key's order and nothing else changes |
| ConsistentHashing.DisruptionBound | src/dht/consistent_hash.cpp:16-52 | for every k, the new list without the new node is the old one, or the old one but its last |
| ConsistentHashing.RemoveOnlyDrops | src/dht/consistent_hash.cpp:20-22 | removing a node takes it out of every key's order and nothing else changes |
| ConsistentHashing.SameNodesSameRing | src/client/client.cpp:19-25 | clients that know the same nodes have the same ring, in whatever order they learned of them |
| ConsistentHashing.ViewsShareReplica | src/client/client.cpp:144-158 | two rings that differ by one node share a replica of every key when the larger has two nodes |
| ConsistentHashing.AdditionsCommuteIff | src/client/client.cpp:22-24 | the order of two additions matters exactly when different addresses collide |
| ConsistentHashing.Collision | src/dht/consistent_hash.cpp:8-18 | "Aa" and "BB" collide, and the second takes the first one's place |
| ConsistentHashing.ConsistentHash.AddNode | src/dht/consistent_hash.cpp:16-18 | the address stands at its position, and nothing else changes |
| ConsistentHashing.ConsistentHash.RemoveNode | src/dht/consistent_hash.cpp:20-22 | the position of the address is empty, and nothing else changes |
| ConsistentHashing.ConsistentHash.GetNodeForKey | src/dht/consistent_hash.cpp:24-30 | the node at the smallest position not below the key's, or else at the smallest, which is the one-element replica list; the empty string on an empty ring |
| ConsistentHashing.ConsistentHash.GetNodesForKey | src/dht/consistent_hash.cpp:32-52 | the first k nodes of the clockwise order |
| ConsistentHashing.ConsistentHash.GetAllNodes | src/dht/consistent_hash.cpp:54-58 | every node once, by position |
| ConsistentHashing.ConsistentHash.HasNode | src/dht/consistent_hash.cpp:64-66 | whether the position of the address is occupied |
| FileUtils.SplitFileIntoChunks | src/common/file_utils.cpp:9-31 | (n + 1048575) / 1048576 chunks, chunk i with the bytes from 1048576 i on; none for an empty or unreadable file |
| FileUtils.ChunkShape | src/common/file_utils.cpp:19-29 | chunks are numbered from 0, not empty, and full but for the last |
| FileUtils.CheckIsComplete | src/common/file_utils.cpp:39-48 | the index check on the sorted list passes if and only if the indices are a permutation of 0 to n - 1 |
| FileUtils.ReconstructFile | src/common/file_utils.cpp:33-60 | a file is written iff there are chunks, it can be created and the indices are complete; it has the chunks' bytes in index order |
| FileUtils.ReconstructionIsUnique | src/common/file_utils.cpp:39-58 | a set of chunks reconstructs at most one file |
| FileUtils.SplitThenReconstruct | src/common/file_utils.cpp:9-60 | any permutation of a non-empty file's chunks reconstructs that file and nothing else |
| FileUtils.JoinedAt | src/common/file_utils.cpp:54-58 | what is written holds the valid bytes of every chunk, one chunk after the other in the order of the list, and nothing else |
| HashUtils.HashAllChunks | src/common/hash_utils.cpp:15-24 | every chunk of the array gets the digest of its valid bytes, in place, and nothing else changes |
| HashUtils.ComputeRootHash | src/common/hash_utils.cpp:26-32 | the digest of the bytes that spell the digests one after the other, in the order of the list |
| HashUtils.ConcatAt | src/common/hash_utils.cpp:27-30 | digest i of a list stands at place 64 i of the concatenation |
| HashUtils.ConcatInjective | src/common/hash_utils.cpp:27-30 | lists of digests are determined by their concatenation |
| HashUtils.ComputeCID | src/client/verify_files.cpp:8-17 | the digest of the digests of the file's pieces in order; empty for a file that is empty or unreadable |
| HashUtils.SameHashes | src/common/hash_utils.cpp:20-24 | files with the same chunk digests are equal, or two of their pieces collide |
| HashUtils.EqualCids | src/client/verify_files.cpp:8-17 | two readable files with one identifier are equal, or a collision among their chunks or digest lists is extracted |
| StorageNodes.StorageNode.HandleCommand | src/storage/storage_node.cpp:39-96 | for every command, malformed ones and empty data included: the replies, the data sent, the entry that changes, whether the connection stays open; only DIE stops the node |
| StorageNodes.ReactionKeeps | src/storage/storage_node.cpp:48-94 | no command empties or drops an entry, and only a STORE with data changes one, its own |
| StorageNodes.StoredIsReturned | src/storage/storage_node.cpp:48-85 | a GET after a STORE finds exactly what was stored, and nothing else under other keys |
| StorageNodes.UploadChunk | src/client/client.cpp:210-234 | against a node object, a chunk counts as sent if and only if it is not empty, and then the node holds it under its key |
| StorageNodes.DownloadChunk | src/client/client.cpp:236-256 | against a node object, what it holds under the key, or nothing |
| StorageSystem.StepKeepsStorage | src/storage/storage_node.cpp:48-66 | every step of interleaved two-phase STOREs keeps entries non-empty and keyed by their digest, and an entry that changes is a collision |
| StorageSystem.CommitIsReaction | src/storage/storage_node.cpp:54-62 | a committed STORE is what one node does with the client's command and data |
| StorageSystem.StoresAreContentAddressed | src/storage/storage_node.cpp:56-61 | in every run every entry is non-empty and its key is its SHA-256 digest |
| StorageSystem.ChunksAreStable | src/storage/storage_node.cpp:56-61 | once held, a chunk is held for good, with the same bytes or a collision |
| StorageSystem.AcknowledgedIsHeld | src/client/client.cpp:210-234 | an acknowledged STORE is held ever after, with the bytes sent or a collision |
| DataPathInvariant.MoveKeepsInv | src/client/client.cpp:27-175 | every move of uploads, downloads, storage nodes and chain keeps the data path's invariant |
| EndToEnd.MetaIsWellFormed | src/client/client.cpp:100-112 | the metadata of every file with a one-word name and sizes in range can be carried by the protocol |
| EndToEnd.MetadataBehindData | src/client/client.cpp:45-77 | in every state, each hash in any metadata table has been acknowledged by, and is held at, a node of its two-replica set |
| EndToEnd.DownloadIsExact | src/client/client.cpp:123-175 | a finished download wrote a file uploaded under that name, or the run exhibits a collision with one of its chunks |
| EndToEnd.FailureNeedsLosses | src/client/client.cpp:144-163 | a download fails at a chunk only if every replica in its view that acknowledged it is down |
| EndToEnd.ServedUploadIsReturned | src/client/client.cpp:123-175 | whatever other uploads share the name: if an upload's metadata was served and each of its chunks has a live acknowledged replica, a download that has ended did not fail and wrote that upload's bytes, or a collision |
| EndToEnd.DownloadReturnsUpload | src/client/client.cpp:27-175 | with a live acknowledged replica per chunk and no other upload of the name, a served download does not fail and writes exactly the uploaded bytes, or a collision |
| EndToEnd.FetchingEnds | src/client/client.cpp:144-165 | a download that fetches ends after at most three attempts per chunk and one last step |
| EndToEnd.DownloadCompletes | src/client/client.cpp:144-175 | a fetching download whose chunks have live replicas finishes within that bound with exactly the uploaded bytes, or a collision |
| EndToEnd.PublishIsPossible | src/client/client.cpp:67-77 | an upload whose chunks are placed can always be published: its PUT text is one that nodes can parse |
| EndToEnd.OtherViewFindsReplica | src/client/client.cpp:144-158 | a fully replicated chunk has a live replica in the view of a client whose ring differs by one node |
| EndToEnd.GluedIsReconstructed | src/client/client.cpp:158-168 | the chunks a download collects pass the index check and reconstruct their concatenation |
| ServedInOrder.MoveProjects | src/client/client.cpp:27-175 | every move of the data path is one step of the chain or none |
| ServedInOrder.OrderlyRunsLinearizable | README.md:9 | in runs of the whole data path with crashes at the end of the chain and no overlapping publications of a name, publications and questions are linearizable |
| ServedInOrder.LaterDownloadIsCurrent | README.md:25 | in such runs a download begun after an acknowledged upload, and answered with metadata at all, is served from that upload or a later one of the name, and writes its file or exhibits a collision |
| Replication.LiveIffTargetUp | src/client/client.cpp:51-63 | in every run, a published chunk has a live acknowledged replica if and only if one of its two nodes is up |
| Replication.OneFailureIsSurvived | README.md:10 | in every run with at most one node of the ring down, every published chunk has a live replica |
| Replication.OneFailureIsInvisible | README.md:10 | then a served download in that view does not fail, and writes exactly the uploaded bytes, or a collision |
| Replication.SurvivesAnyCrashIff | src/client/client.cpp:51-63 | a chunk keeps a live replica after any one further crash if and only if both its nodes acknowledged it and are up |
| DataLoss.AcknowledgedUploadIsLost | README.md:10 | for every one-chunk file, every name and every ring of two or more nodes: a run in which the upload is acknowledged with one of its two nodes down, then only the other one crashes, and the download fails |
| Clients.BaseNameOf | src/client/client.cpp:101-102 | the published name does not depend on the directory |
| Clients.BaseNameIs | src/client/client.cpp:101-102 | the published name is everything after the last slash or backslash |
| Clients.PlaceChunk | src/client/client.cpp:51-58 | the successes are the nodes that acknowledge the chunk, and there is one if and only if some node acknowledges it |
| Clients.PlaceChunks | src/client/client.cpp:45-63 | the chunk loop succeeds if and only if every chunk was taken by one of its replicas |
| Clients.PublishMetadata | src/client/client.cpp:67-77 | the sweep stops at the first node that acknowledges, and succeeds if and only if there is one |
| Clients.UploadFile | src/client/client.cpp:27-121 | an upload succeeds if and only if all chunks were placed and then some node acknowledged the text sent; that text has the name, the size in bytes, 1048576, the number of chunks, the identifier and the digest of every piece, in this order; no metadata node is asked before |
| Clients.UploadIsPublished | src/client/client.cpp:90-121 | what a metadata node parses out of an upload's text: the size, which is the sum of the sizes of the chunks, the chunk size, the number of hashes, the file's identifier, and the digest of every piece in order |
| Clients.FindMetadata | src/client/client.cpp:127-140 | the answer of the last node in the list that the client understands; none if and only if it understands no node |
| Clients.FetchChunk | src/client/client.cpp:146-154 | the first replica that returns data |
| Clients.FirstDataIs | src/client/client.cpp:146-154 | the first non-empty answer in replica order, empty if and only if every answer is |
| Clients.DownloadFile | src/client/client.cpp:123-175 | what a download writes; nothing if the metadata or a chunk is missing or the file cannot be created |
| Clients.ServedIsUnderstood | src/client/client.cpp:177-208 | a client understands from a node that stored an upload's PUT text exactly the upload's metadata |
| Clients.HitAt | src/client/client.cpp:129-136 | the last node that answers decides, whatever the nodes before it hold |
| Clients.DownloadReadsUpload | src/client/client.cpp:123-175 | if the metadata found lists a file's hashes, the download writes that file or exhibits a collision, and writes something iff every chunk is available |
| Clients.DownloadedIffAvailable | src/client/client.cpp:144-168 | a download writes something if and only if each listed chunk is answered with some bytes, whatever the bytes |
| Clients.OtherBytesAreAccepted | README.md:40 | against a storage node that answers other bytes, a download of any one-chunk file writes these |

## Left out

- Sockets, accept loops and framing: a connection is a reliable request and response or a failure.
- Real time, console output, latency fields, plotting, test and performance drivers, printRing and config parsing.
- The file system: a file is a byte sequence that can be read or not, and created or not.
- Thread shutdown and torn reads of role and next pointer: a question of the C++ memory model.
- The address half of host and port: nodes are told apart by port, or by place in the chain.
- Node restart and rejoin; UPDATE_NEXT and SET_SKIP with arbitrary targets, which nothing in the repository sends; UPDATE_NEXT is modelled at the node and in the roles, not in the chain's runs.
- Metadata that the text protocol cannot carry, such as file names with spaces, in the chain's and the data path's runs; `Wire` says exactly which metadata that is.
- Files of more than 2^31 - 1 chunks, whose indices overflow in the program.
- SHA-256 inputs of 2^61 bytes and more: the program's 64-bit length wraps around, as the model's does, and the standard's padding is proved below that bound only.
- A false suspicion of a node that is up; the failure detector is perfect.
- Clients.DownloadFile: the network is a function, one answer per node and request; downloads under interleaved change are in `DataPath` and `EndToEnd`.
- FileUtils.ReconstructFile: requires each chunk to have as many bytes as its size says, as the program's write does.
- Cryptographic strength of SHA-256.
