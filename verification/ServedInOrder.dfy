/** What the chain's sequential order means for the users of the whole store. The chain's part of any
    run of the data path is a run of the chain; so, when only the last live metadata node crashes
    and uploads of one name do not overlap, a download begun after an upload was acknowledged is
    served from that upload or from a later one of the name, never from an earlier one. */
module ServedInOrder {
  import opened Common
  import opened MapObject
  import opened DataPath
  import opened DataPathInvariant
  import opened EndToEnd
  import Chain = ChainSystem
  import ChainTailCrash
  import ChainTailLinearizable

  // ----- The chain's part of a run -----

  /** What a move does to the chain. */
  ghost function ChainStep(w: World, m: Move): Option<Chain.Step>
    requires Possible(w, m)
  {
    match m
    case Publish(u) => Some(Chain.InvokePut(Meta(w.uploads[u])))
    case Ask(name, _) => Some(Chain.InvokeGet(name))
    case ChainMove(st) => Some(st)
    case _ => None
  }

  /** Only the last live metadata node crashes, and metadata is published only when every earlier
      publication under its name has returned. */
  ghost predicate InOrder(w: World, m: Move)
    requires Possible(w, m)
  {
    var st := ChainStep(w, m);
    st.Some? ==> ChainTailCrash.CrashesAtEnd(w.chain, st.value) && ChainTailCrash.OneUploadAtATime(w.chain, st.value)
  }

  ghost predicate OrderlyRun(n: nat, nodes: set<string>, states: seq<World>, moves: seq<Move>) {
    WorldRun(n, nodes, states, moves) && forall i: nat :: i < |moves| ==> InOrder(states[i], moves[i])
  }

  lemma MoveProjects(w: World, m: Move)
    requires Possible(w, m)
    ensures match ChainStep(w, m)
            case Some(st) => Chain.Enabled(w.chain, st) && NextWorld(w, m).chain == Chain.Next(w.chain, st)
            case None => NextWorld(w, m).chain == w.chain
  {
    hide Chain.Next, Meta, DoPlace, DoFetch;
    FetchFrame(w, m);
    PlaceFrame(w, m);
  }

  lemma MoveIsAdmissible(w: World, m: Move)
    requires Possible(w, m) && InOrder(w, m) && ChainStep(w, m).Some?
    ensures ChainTailCrash.Admissible(w.chain, ChainStep(w, m).value)
  {
    hide Possible, ChainStep, NextWorld, Chain.Enabled, Chain.Next;
    MoveProjects(w, m);
  }

  /** The run of the chain goes through the chains of the first k + 1 worlds, at places `at`. */
  ghost predicate Projects(n: nat, states: seq<World>, k: nat, chains: seq<Chain.Sys>, steps: seq<Chain.Step>, at: seq<nat>) {
    && ChainTailCrash.AdmissibleRun(n, chains, steps) && k < |states| && |at| == k + 1 && at[k] == |steps|
    && (forall i: nat :: i <= k ==> at[i] <= |steps| && chains[at[i]] == states[i].chain)
    && (forall i: nat, j: nat :: i <= j <= k ==> at[i] <= at[j])
  }

  lemma ChainStays(n: nat, states: seq<World>, k: nat, chains: seq<Chain.Sys>, steps: seq<Chain.Step>, at: seq<nat>)
    requires Projects(n, states, k, chains, steps, at) && k + 1 < |states| && states[k + 1].chain == states[k].chain
    ensures Projects(n, states, k + 1, chains, steps, at + [|steps|])
  {
    hide Chain.Enabled, Chain.Next, ChainTailCrash.Admissible;
  }

  lemma RunGrows(n: nat, chains: seq<Chain.Sys>, steps: seq<Chain.Step>, st: Chain.Step)
    requires ChainTailCrash.AdmissibleRun(n, chains, steps) && ChainTailCrash.Admissible(chains[|steps|], st)
    ensures ChainTailCrash.AdmissibleRun(n, chains + [Chain.Next(chains[|steps|], st)], steps + [st])
  {
    hide Chain.Enabled, Chain.Next, ChainTailCrash.CrashesAtEnd, ChainTailCrash.OneUploadAtATime;
    var chains2, steps2 := chains + [Chain.Next(chains[|steps|], st)], steps + [st];
    forall i | 0 <= i < |steps2|
      ensures ChainTailCrash.Admissible(chains2[i], steps2[i]) && chains2[i + 1] == Chain.Next(chains2[i], steps2[i])
    {
      if i < |steps| {
        assert ChainTailCrash.Admissible(chains[i], steps[i]) && chains[i + 1] == Chain.Next(chains[i], steps[i]);
      }
    }
  }

  lemma ChainMoves(n: nat, states: seq<World>, k: nat, chains: seq<Chain.Sys>, steps: seq<Chain.Step>, at: seq<nat>,
                   st: Chain.Step)
    requires Projects(n, states, k, chains, steps, at) && k + 1 < |states|
    requires ChainTailCrash.Admissible(states[k].chain, st) && states[k + 1].chain == Chain.Next(states[k].chain, st)
    ensures Projects(n, states, k + 1, chains + [states[k + 1].chain], steps + [st], at + [|steps| + 1])
  {
    hide Chain.Enabled, Chain.Next, ChainTailCrash.Admissible;
    assert chains[at[k]] == states[k].chain;
    RunGrows(n, chains, steps, st);
  }

  /** The chains that an orderly run goes through are an admissible run of the chain. */
  lemma {:induction false} ChainRunOf(n: nat, nodes: set<string>, states: seq<World>, moves: seq<Move>, k: nat)
      returns (chains: seq<Chain.Sys>, steps: seq<Chain.Step>, at: seq<nat>)
    requires OrderlyRun(n, nodes, states, moves) && k < |states|
    ensures Projects(n, states, k, chains, steps, at)
  {
    hide Possible, NextWorld, InOrder, ChainStep, Chain.Enabled, Chain.Next, Chain.Initial, ChainTailCrash.Admissible;
    if k == 0 {
      chains, steps, at := [Chain.Initial(n)], [], [0];
    } else {
      chains, steps, at := ChainRunOf(n, nodes, states, moves, k - 1);
      var w, m := states[k - 1], moves[k - 1];
      MoveProjects(w, m);
      if ChainStep(w, m).None? {
        ChainStays(n, states, k - 1, chains, steps, at);
        at := at + [|steps|];
      } else {
        var st := ChainStep(w, m).value;
        MoveIsAdmissible(w, m);
        ChainMoves(n, states, k - 1, chains, steps, at, st);
        chains, steps, at := chains + [states[k].chain], steps + [st], at + [|steps| + 1];
      }
    }
  }

  /** So the publications and questions of an orderly run are linearizable. */
  lemma OrderlyRunsLinearizable(n: nat, nodes: set<string>, states: seq<World>, moves: seq<Move>)
      returns (chains: seq<Chain.Sys>, steps: seq<Chain.Step>, at: seq<nat>)
    requires OrderlyRun(n, nodes, states, moves)
    ensures Projects(n, states, |moves|, chains, steps, at)
    ensures Linearizable(Chain.History(chains, steps, |steps|), false)
  {
    chains, steps, at := ChainRunOf(n, nodes, states, moves, |moves|);
    hide OrderlyRun, WorldRun, ChainTailCrash.Admissible, Chain.Enabled, Chain.Next, Chain.Observed;
    ChainTailLinearizable.TailCrashRunsLinearizable(n, chains, steps);
  }

  // ----- What stays from one world to a later one -----

  /** Operations keep their calls, and published uploads stay as they are. */
  ghost predicate Kept(w: World, t: World) {
    && |w.chain.ops| <= |t.chain.ops|
    && (forall o: nat :: o < |w.chain.ops| ==> t.chain.ops[o].call == w.chain.ops[o].call)
    && |w.uploads| <= |t.uploads|
    && (forall u: nat :: u < |w.uploads| && w.uploads[u].phase.Published? ==> t.uploads[u] == w.uploads[u])
  }

  lemma LaterKeeps(w: World, t: World)
    requires Later(w, t)
    ensures Kept(w, t)
  {
    hide AcksLater;
    forall u: nat | u < |w.uploads| && w.uploads[u].phase.Published?
      ensures t.uploads[u] == w.uploads[u]
    {
      assert t.uploads[u].(phase := w.uploads[u].phase) == w.uploads[u];
    }
  }

  lemma {:induction false} RunKeeps(n: nat, nodes: set<string>, states: seq<World>, moves: seq<Move>, j: nat, k: nat)
    requires WorldRun(n, nodes, states, moves) && j <= k < |states|
    ensures Kept(states[j], states[k])
  {
    hide WorldInv, Later, NextWorld, Possible, Start;
    if j < k {
      RunKeeps(n, nodes, states, moves, j, k - 1);
      EveryWorldIsSound(n, nodes, states, moves, k - 1);
      MoveKeepsInv(states[k - 1], n, moves[k - 1]);
      LaterKeeps(states[k - 1], states[k]);
    }
  }

  // ----- When a download began, and when it was answered -----

  /** The download has been answered with metadata. */
  ghost predicate Told(w: World, d: nat) {
    d < |w.downloads| &&
    var phase := w.downloads[d].phase; phase.Fetching? || phase.Done? || phase.FailedAt?
  }

  lemma DownloadBegins(w: World, m: Move, d: nat)
    requires Possible(w, m) && d < |NextWorld(w, m).downloads|
    ensures d < |w.downloads| ==> NextWorld(w, m).downloads[d].op == w.downloads[d].op
    ensures d >= |w.downloads| ==> NextWorld(w, m).downloads[d].op == |w.chain.ops|
  {
    hide Chain.Next, Meta, DoPlace, DoFetch;
    FetchFrame(w, m);
    PlaceFrame(w, m);
    if m.Fetch? && d < |w.downloads| {
      assert m.d == d ==> NextWorld(w, m).downloads[d].(phase := w.downloads[d].phase) == w.downloads[d];
    }
  }

  /** A download begun later asks with a later operation. */
  lemma {:induction false} BegunAfter(n: nat, nodes: set<string>, states: seq<World>, moves: seq<Move>,
                                      j: nat, k: nat, d: nat)
    requires WorldRun(n, nodes, states, moves) && j <= k < |states|
    requires |states[j].downloads| <= d < |states[k].downloads|
    ensures |states[j].chain.ops| <= states[k].downloads[d].op
  {
    hide Possible, NextWorld, Start;
    DownloadBegins(states[k - 1], moves[k - 1], d);
    if d < |states[k - 1].downloads| {
      BegunAfter(n, nodes, states, moves, j, k - 1, d);
    } else {
      RunKeeps(n, nodes, states, moves, j, k - 1);
    }
  }

  /** From w to t, download d goes on with the answer it already had. */
  ghost predicate GoesOn(w: World, t: World, d: nat) {
    && Told(w, d) && Told(t, d)
    && t.downloads[d].op == w.downloads[d].op && t.downloads[d].known == w.downloads[d].known
    && t.downloads[d].phase.meta == w.downloads[d].phase.meta
  }

  /** Download d of t has got its answer from the chain of w. */
  ghost predicate AnsweredFrom(w: World, t: World, d: nat) {
    && Told(t, d) && t.downloads[d].known == |w.chain.ops| && t.downloads[d].op < |w.chain.ops|
    && w.chain.ops[t.downloads[d].op].result == Some(GetFound(t.downloads[d].phase.meta))
  }

  lemma FetchGoesOn(w: World, d: nat)
    requires Possible(w, Fetch(d))
    ensures GoesOn(w, DoFetch(w, d), d)
  {
    hide Targets;
  }

  lemma MoveAnswers(w: World, m: Move, d: nat)
    requires Possible(w, m) && Told(NextWorld(w, m), d)
    ensures GoesOn(w, NextWorld(w, m), d) || AnsweredFrom(w, NextWorld(w, m), d)
  {
    hide Chain.Next, Meta, DoPlace, DoFetch;
    FetchFrame(w, m);
    PlaceFrame(w, m);
    if m == Fetch(d) {
      FetchGoesOn(w, d);
    } else if m.Fetch? {
      assert NextWorld(w, m).downloads[d] == w.downloads[d];
    }
  }

  /** A download that has been told something was answered at some moment after it began. */
  lemma {:induction false} AnswerMoment(n: nat, nodes: set<string>, states: seq<World>, moves: seq<Move>,
                                        j: nat, k: nat, d: nat) returns (i: nat)
    requires WorldRun(n, nodes, states, moves) && j <= k < |states|
    requires |states[j].downloads| <= d && Told(states[k], d)
    ensures j <= i <= k && AnsweredFrom(states[i], states[k], d)
  {
    hide Possible, NextWorld, Start;
    MoveAnswers(states[k - 1], moves[k - 1], d);
    if AnsweredFrom(states[k - 1], states[k], d) {
      i := k - 1;
    } else {
      i := AnswerMoment(n, nodes, states, moves, j, k - 1, d);
    }
  }

  // ----- The theorem -----

  /** The chain has acknowledged the metadata of upload u. */
  ghost predicate Acknowledged(w: World, u: nat) {
    && u < |w.uploads| && w.uploads[u].phase.Published? && w.uploads[u].phase.op < |w.chain.ops|
    && w.chain.ops[w.uploads[u].phase.op].result == Some(PutAcked)
  }

  lemma UploadsPut(w: World, n: nat, u: nat)
    requires WorldInv(w, n) && u < |w.uploads| && w.uploads[u].phase.Published?
    ensures var o := w.uploads[u].phase.op; o < |w.chain.ops| && w.chain.ops[o].call == PutCall(Meta(w.uploads[u]))
    ensures Meta(w.uploads[u]).filename == w.uploads[u].base
  {
    assert UploadOk(w, u);
    MetaHashes(w.uploads[u]);
    hide WorldInv, Meta, AcceptedUpTo, Uploadable;
  }

  lemma DownloadsGet(w: World, n: nat, d: nat)
    requires WorldInv(w, n) && d < |w.downloads|
    ensures w.downloads[d].op < |w.chain.ops| && w.chain.ops[w.downloads[d].op].call == GetCall(w.downloads[d].name)
  {
    assert DownloadOk(w, d);
    hide WorldInv, DataPathInvariant.Answered, Missed, GotOk, Targets;
  }

  /** The operation behind the answer: the acknowledged upload's own or a later one of its name. */
  lemma AnswerBehind(n: nat, nodes: set<string>, states: seq<World>, moves: seq<Move>, j: nat, k: nat, u: nat, d: nat)
      returns (o: nat)
    requires OrderlyRun(n, nodes, states, moves) && j <= k < |states| && Acknowledged(states[j], u)
    requires |states[j].downloads| <= d && Told(states[k], d) && states[k].downloads[d].name == states[j].uploads[u].base
    ensures states[j].uploads[u].phase.op <= o < states[k].downloads[d].known <= |states[k].chain.ops|
    ensures states[k].chain.ops[o].call == PutCall(states[k].downloads[d].phase.meta)
    ensures states[k].downloads[d].phase.meta.filename == states[j].uploads[u].base
  {
    hide Possible, NextWorld, InOrder, Start, WorldInv, Meta;
    var i := AnswerMoment(n, nodes, states, moves, j, k, d);
    BegunAfter(n, nodes, states, moves, j, k, d);
    RunKeeps(n, nodes, states, moves, i, k);
    EveryWorldIsSound(n, nodes, states, moves, j);
    EveryWorldIsSound(n, nodes, states, moves, k);
    UploadsPut(states[j], n, u);
    DownloadsGet(states[k], n, d);
    var chains, steps, at := ChainRunOf(n, nodes, states, moves, i);
    hide OrderlyRun, WorldRun, ChainTailCrash.AdmissibleRun;
    assert chains[at[j]] == states[j].chain && chains[at[i]] == states[i].chain && at[j] <= at[i] <= |steps|;
    o := ChainTailLinearizable.LaterAnswer(n, chains, steps, at[j], at[i], states[j].uploads[u].phase.op,
                                           states[k].downloads[d].op, states[k].downloads[d].phase.meta);
  }

  /** In an orderly run, a download that was begun after an upload of its name was acknowledged, and
      that is answered with metadata at all, is served from that upload or from a later one of the
      name. If it finishes, it writes that upload's file, unless the run exhibits a SHA-256
      collision; and it does not fail while that upload's chunks have live replicas in its view. */
  lemma LaterDownloadIsCurrent(n: nat, nodes: set<string>, states: seq<World>, moves: seq<Move>,
                               j: nat, k: nat, u: nat, d: nat) returns (v: nat)
    requires OrderlyRun(n, nodes, states, moves) && j <= k < |states| && Acknowledged(states[j], u)
    requires |states[j].downloads| <= d && Told(states[k], d) && states[k].downloads[d].name == states[j].uploads[u].base
    ensures ServedFrom(states[k], d, v) && states[k].uploads[v].base == states[j].uploads[u].base
    ensures v == u || states[j].uploads[u].phase.op < states[k].uploads[v].phase.op
    ensures states[k].downloads[d].phase.Done? ==>
              ExactOrCollision(states[k].uploads[v].file, states[k].downloads[d].phase.out)
    ensures AllLive(states[k], d, v) ==> !states[k].downloads[d].phase.FailedAt?
  {
    hide Possible, NextWorld, InOrder, Start, WorldInv, Meta, ExactOrCollision, AllLive;
    var o := AnswerBehind(n, nodes, states, moves, j, k, u, d);
    RunKeeps(n, nodes, states, moves, j, k);
    EveryWorldIsSound(n, nodes, states, moves, k);
    var w := states[k];
    UploadsPut(w, n, u);
    if o == states[j].uploads[u].phase.op {
      v := u;
    } else {
      v := PublishedIsAccepted(w, n, o);
      UploadsPut(w, n, v);
    }
    assert ServedFrom(w, d, v);
    if w.downloads[d].phase.Done? {
      ServedIsExact(w, n, d, v);
    }
    if AllLive(w, d, v) {
      ServedUploadInWorld(w, n, d, v);
    }
  }
}
