/** Where answers come from: whatever crashes, a GET that finds something returns metadata that some
    client put under exactly that file name. */
module ChainAnswers {
  import opened Common
  import opened MapObject
  import opened ChainSystem
  import opened ChainContainment

  /** Some client asked for this metadata to be put under this name. */
  ghost predicate WasPut(ops: seq<Op>, file: string, meta: FileMetadata) {
    meta.filename == file && exists o: nat :: o < |ops| && ops[o].call == PutCall(meta)
  }

  ghost predicate FrameSourced(s: Sys, f: nat)
    requires f < |s.frames|
  {
    GetAt(s, f) && s.frames[f].get.Found? ==> WasPut(s.ops, s.ops[s.frames[f].op].call.file, s.frames[f].get.meta)
  }

  ghost predicate OpSourced(s: Sys, o: nat)
    requires o < |s.ops|
  {
    s.ops[o].call.GetCall? && s.ops[o].result.Some? && s.ops[o].result.value.GetFound? ==>
      WasPut(s.ops, s.ops[o].call.file, s.ops[o].result.value.meta)
  }

  ghost predicate Sourced(s: Sys) {
    && (forall f: nat :: f < |s.frames| ==> FrameSourced(s, f))
    && (forall o: nat :: o < |s.ops| ==> OpSourced(s, o))
  }

  lemma WasPutGrows(s: Sys, t: Sys, file: string, meta: FileMetadata)
    requires Grows(s, t) && WasPut(s.ops, file, meta)
    ensures WasPut(t.ops, file, meta)
  {
    var o: nat :| o < |s.ops| && s.ops[o].call == PutCall(meta);
    assert t.ops[o].call == PutCall(meta);
  }

  lemma StoredWasPut(s: Sys, n: nat, i: nat, file: string)
    requires ChainInv(s, n) && i < |s.nodes| && file in s.nodes[i].store
    ensures WasPut(s.ops, file, s.nodes[i].store[file])
  {
    assert NodeOk(s, i);
    var o :| o in s.applied[i] && IsPut(s, o) && s.ops[o].call.meta == s.nodes[i].store[file]
             && s.ops[o].call.meta.filename == file;
  }

  lemma SameFrameSourced(s: Sys, t: Sys, f: nat)
    requires Grows(s, t) && f < |s.frames| && t.frames[f] == s.frames[f] && FrameOk(s, f) && FrameSourced(s, f)
    ensures FrameSourced(t, f)
  {
    if GetAt(t, f) && t.frames[f].get.Found? {
      WasPutGrows(s, t, s.ops[s.frames[f].op].call.file, s.frames[f].get.meta);
    }
  }

  lemma LookupSourced(s: Sys, n: nat, f: nat)
    requires ChainInv(s, n) && Enabled(s, Lookup(f))
    ensures FrameSourced(Next(s, Lookup(f)), f)
  {
    hide ChainInv;
    var file := s.ops[s.frames[f].op].call.file;
    if file in s.nodes[s.frames[f].node].store {
      StoredWasPut(s, n, s.frames[f].node, file);
    }
  }

  /** Any other step finds nothing. */
  lemma OtherSourced(s: Sys, st: Step, f: nat)
    requires Enabled(s, st) && !st.Lookup? && f < |Next(s, st).frames|
    requires f < |s.frames| ==> ByHandler(st) && st.f == f
    ensures FrameSourced(Next(s, st), f)
  {
  }

  lemma StepFrameSourced(s: Sys, n: nat, st: Step, f: nat)
    requires ChainInv(s, n) && Sourced(s) && Enabled(s, st) && Grows(s, Next(s, st))
    requires f < |Next(s, st).frames|
    ensures FrameSourced(Next(s, st), f)
  {
    if f < |s.frames| {
      assert FrameSourced(s, f);
      FrameIsOk(s, n, f);
      FrameChanges(s, st, f);
      hide ChainInv, Sourced, Enabled, Next, Grows, FrameOk, FrameSourced;
      if Next(s, st).frames[f] == s.frames[f] {
        SameFrameSourced(s, Next(s, st), f);
      } else if st.Lookup? {
        LookupSourced(s, n, f);
      } else {
        OtherSourced(s, st, f);
      }
    } else {
      hide ChainInv, Sourced, Grows, FrameSourced;
      OtherSourced(s, st, f);
    }
  }

  lemma FrameIsOk(s: Sys, n: nat, f: nat)
    requires ChainInv(s, n) && f < |s.frames|
    ensures FrameOk(s, f)
  {
  }

  lemma OpIsOk(s: Sys, n: nat, o: nat)
    requires ChainInv(s, n) && o < |s.ops|
    ensures OpOk(s, o)
  {
  }

  lemma StepOpSourced(s: Sys, n: nat, st: Step, o: nat)
    requires ChainInv(s, n) && Sourced(s) && Enabled(s, st) && Grows(s, Next(s, st))
    requires o < |Next(s, st).ops|
    ensures OpSourced(Next(s, st), o)
  {
    var t := Next(s, st);
    hide Shape, Links, Ops, Nodes, Frames;
    if o < |s.ops| && t.ops[o].result == s.ops[o].result {
      assert OpSourced(s, o);
      if t.ops[o].call.GetCall? && t.ops[o].result.Some? && t.ops[o].result.value.GetFound? {
        WasPutGrows(s, t, t.ops[o].call.file, t.ops[o].result.value.meta);
      }
    } else if st.ClientReply? && o == st.op && s.ops[o].call.GetCall? {
      OpIsOk(s, n, o);
      var f := s.ops[o].waitingFor.value;
      FrameIsOk(s, n, f);
      assert FrameSourced(s, f);
      if s.frames[f].get.Found? {
        WasPutGrows(s, t, s.ops[o].call.file, s.frames[f].get.meta);
      }
    }
  }

  lemma StepKeepsSourced(s: Sys, n: nat, st: Step)
    requires ChainInv(s, n) && Sourced(s) && Enabled(s, st)
    ensures ChainInv(Next(s, st), n) && Sourced(Next(s, st))
  {
    hide ChainInv, Grows;
    StepKeepsInv(s, n, st);
    forall f: nat | f < |Next(s, st).frames|
      ensures FrameSourced(Next(s, st), f)
    {
      StepFrameSourced(s, n, st, f);
    }
    forall o: nat | o < |Next(s, st).ops|
      ensures OpSourced(Next(s, st), o)
    {
      StepOpSourced(s, n, st, o);
    }
  }

  lemma {:induction false} EveryAnswerIsSourced(n: nat, states: seq<Sys>, steps: seq<Step>, k: nat)
    requires Run(n, states, steps) && k < |states|
    ensures ChainInv(states[k], n) && Sourced(states[k])
  {
    hide ChainInv;
    if k == 0 {
      InitialInv(n);
    } else {
      EveryAnswerIsSourced(n, states, steps, k - 1);
      StepKeepsSourced(states[k - 1], n, steps[k - 1]);
    }
  }

  /** In every run, with any crashes and any rewiring: a download that finds metadata finds what
      some client asked to be put under that very name. */
  lemma GetsReturnPuts(n: nat, states: seq<Sys>, steps: seq<Step>, k: nat, o: nat, file: string, meta: FileMetadata)
    requires Run(n, states, steps) && k < |states| && o < |states[k].ops|
    requires states[k].ops[o].call == GetCall(file) && states[k].ops[o].result == Some(GetFound(meta))
    ensures meta.filename == file
    ensures exists p: nat :: p < |states[k].ops| && states[k].ops[p].call == PutCall(meta)
  {
    EveryAnswerIsSourced(n, states, steps, k);
    hide ChainInv;
    assert OpSourced(states[k], o);
  }
}
