/** How the history that clients see relates to the state of the chain. */
module ChainHistory {
  import opened Common
  import opened MapObject
  import opened ChainSystem

  /** The history holds exactly one invocation of every operation, with its arguments, and the
      returns of exactly those operations that have a result. */
  ghost predicate HistoryOk(s: Sys, h: seq<Event>) {
    && (forall o: nat, c: Call :: Inv(o, c) in h <==> o < |s.ops| && s.ops[o].call == c)
    && (forall o: nat, r: Outcome :: Ret(o, r) in h <==> o < |s.ops| && s.ops[o].result == Some(r))
  }

  /** The operations of a step that leaves the invocations and results alone. */
  ghost predicate SameResults(s: Sys, t: Sys) {
    |s.ops| == |t.ops| &&
    forall o :: 0 <= o < |s.ops| ==> s.ops[o].call == t.ops[o].call && s.ops[o].result == t.ops[o].result
  }

  lemma SameResultsHistory(s: Sys, t: Sys, h: seq<Event>)
    requires HistoryOk(s, h) && SameResults(s, t)
    ensures HistoryOk(t, h)
  {
  }

  lemma InvokeHistory(s: Sys, t: Sys, h: seq<Event>, op: Op)
    requires HistoryOk(s, h) && t.ops == s.ops + [op] && op.result.None?
    ensures HistoryOk(t, h + [Inv(|s.ops|, op.call)])
  {
    var h2 := h + [Inv(|s.ops|, op.call)];
    forall o: nat, c: Call
      ensures Inv(o, c) in h2 <==> o < |t.ops| && t.ops[o].call == c
    {
      assert Inv(o, c) in h2 <==> Inv(o, c) in h || Inv(o, c) == Inv(|s.ops|, op.call);
    }
    forall o: nat, r: Outcome
      ensures Ret(o, r) in h2 <==> o < |t.ops| && t.ops[o].result == Some(r)
    {
      assert Ret(o, r) in h2 <==> Ret(o, r) in h;
    }
  }

  lemma ReturnHistory(s: Sys, t: Sys, h: seq<Event>, o: nat, r: Outcome)
    requires HistoryOk(s, h) && o < |s.ops| && s.ops[o].result.None?
    requires o < |t.ops| && t.ops == s.ops[o := t.ops[o]] && t.ops[o].call == s.ops[o].call && t.ops[o].result == Some(r)
    ensures HistoryOk(t, h + [Ret(o, r)])
  {
    var h2 := h + [Ret(o, r)];
    forall p: nat, c: Call
      ensures Inv(p, c) in h2 <==> p < |t.ops| && t.ops[p].call == c
    {
      assert Inv(p, c) in h2 <==> Inv(p, c) in h;
    }
    forall p: nat, q: Outcome
      ensures Ret(p, q) in h2 <==> p < |t.ops| && t.ops[p].result == Some(q)
    {
      assert Ret(p, q) in h2 <==> Ret(p, q) in h || Ret(p, q) == Ret(o, r);
    }
  }

  lemma StepHistory(s: Sys, st: Step, h: seq<Event>)
    requires Enabled(s, st) && HistoryOk(s, h)
    ensures HistoryOk(Next(s, st), h + Observed(s, st))
  {
    var t := Next(s, st);
    match st {
      case InvokePut(meta) => InvokeHistory(s, t, h, t.ops[|s.ops|]);
      case InvokeGet(file) => InvokeHistory(s, t, h, t.ops[|s.ops|]);
      case ClientReply(o) =>
        if t.ops[o].result.Some? {
          ReturnHistory(s, t, h, o, t.ops[o].result.value);
        } else {
          SameResultsHistory(s, t, h);
          assert h + [] == h;
        }
      case GiveUp(o) => ReturnHistory(s, t, h, o, t.ops[o].result.value);
      case _ =>
        SameResultsHistory(s, t, h);
        assert h + [] == h;
    }
  }

  /** In every run, what the clients have seen is what the operations record. */
  lemma {:induction false} ReachableHistory(n: nat, states: seq<Sys>, steps: seq<Step>, k: nat)
    requires Run(n, states, steps) && k <= |steps|
    ensures HistoryOk(states[k], History(states, steps, k))
  {
    if k > 0 {
      ReachableHistory(n, states, steps, k - 1);
      StepHistory(states[k - 1], steps[k - 1], History(states, steps, k - 1));
    }
  }

  /** The order talks about the operations of the run. */
  ghost predicate OrderOk(s: Sys, order: seq<Entry>) {
    forall k :: 0 <= k < |order| ==> order[k].op < |s.ops| && order[k].call == s.ops[order[k].op].call
  }

  /** Steps that change the history but not the order. */
  lemma ObserveKeepsOrder(s: Sys, st: Step, h: seq<Event>, order: seq<Entry>, strict: bool)
    requires Enabled(s, st) && HistoryOk(s, h) && Linearizes(h, order, strict)
    requires forall o, r :: Observed(s, st) == [Ret(o, r)] && Definite(strict, r) ==>
               exists k :: 0 <= k < |order| && order[k].op == o && AnswerAt(order, k) == r
    ensures Linearizes(h + Observed(s, st), order, strict)
  {
    var seen := Observed(s, st);
    if |seen| == 0 {
      assert h + seen == h;
    } else if seen[0].Inv? {
      forall e | e in h
        ensures e.op != |s.ops|
      {
        match e
        case Inv(o, c) => assert Inv(o, c) in h;
        case Ret(o, r) => assert Ret(o, r) in h;
      }
      assert seen == [Inv(|s.ops|, seen[0].call)];
      AppendInv(h, order, strict, |s.ops|, seen[0].call);
    } else {
      assert seen == [Ret(seen[0].op, seen[0].outcome)];
      AppendRet(h, order, strict, seen[0].op, seen[0].outcome);
    }
  }
}
