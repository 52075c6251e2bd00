/** The atomic map that the metadata chain is meant to implement, and what it means for
    a concurrent history of PUTs and GETs to be linearizable with respect to it. */
module MapObject {
  import opened Common

  datatype Call = PutCall(meta: FileMetadata) | GetCall(file: string)

  datatype Outcome = PutAcked | PutFailed | GetFound(meta: FileMetadata) | GetMissing

  /** A client-visible event: operation `op` is invoked, or returns. */
  datatype Event = Inv(op: nat, call: Call) | Ret(op: nat, outcome: Outcome)

  /** One operation placed in a sequential order. */
  datatype Entry = Entry(op: nat, call: Call)

  function Effect(table: Table, call: Call): Table {
    match call
    case PutCall(meta) => table[meta.filename := meta]
    case GetCall(_) => table
  }

  function Answer(table: Table, call: Call): Outcome {
    match call
    case PutCall(_) => PutAcked
    case GetCall(file) => if file in table then GetFound(table[file]) else GetMissing
  }

  /** The table after the entries took effect one at a time, in order. */
  function Replay(order: seq<Entry>): Table {
    if |order| == 0 then map[]
    else Effect(Replay(order[..|order| - 1]), order[|order| - 1].call)
  }

  /** What the atomic map answers to the k-th operation of the order. */
  function AnswerAt(order: seq<Entry>, k: nat): Outcome
    requires k < |order|
  {
    Answer(Replay(order[..k]), order[k].call)
  }

  /** The outcomes that tell the client something definite. When nodes may crash, a failed
      PUT may or may not have happened, and a GET that finds nothing may only mean that no
      node answered; `strict` makes every outcome definite. */
  predicate Definite(strict: bool, outcome: Outcome) {
    strict || outcome.PutAcked? || outcome.GetFound?
  }

  ghost predicate Has(order: seq<Entry>, op: nat) {
    exists k :: 0 <= k < |order| && order[k].op == op
  }

  /** Every operation appears at most once. */
  ghost predicate Once(order: seq<Entry>) {
    forall k, l :: 0 <= k < l < |order| ==> order[k].op != order[l].op
  }

  /** Only invoked operations appear, with the arguments they were invoked with. */
  ghost predicate OnlyInvoked(h: seq<Event>, order: seq<Entry>) {
    forall k :: 0 <= k < |order| ==> Inv(order[k].op, order[k].call) in h
  }

  /** Every operation that returned definitely appears, and returned what the atomic map
      answers at its place. */
  ghost predicate Answered(h: seq<Event>, order: seq<Entry>, strict: bool) {
    forall o: nat, r: Outcome :: Ret(o, r) in h && Definite(strict, r) ==>
      exists k :: 0 <= k < |order| && order[k].op == o && AnswerAt(order, k) == r
  }

  /** Operation a returned before operation b was invoked. */
  ghost predicate Precedes(h: seq<Event>, a: nat, b: nat) {
    exists i, j :: 0 <= i < j < |h| && h[i].Ret? && h[i].op == a && h[j].Inv? && h[j].op == b
  }

  /** An operation that returned before another was invoked is ordered before it. */
  ghost predicate RealTime(h: seq<Event>, order: seq<Entry>) {
    forall k, l :: 0 <= k < |order| && 0 <= l < |order| && Precedes(h, order[k].op, order[l].op) ==> k < l
  }

  ghost predicate Linearizes(h: seq<Event>, order: seq<Entry>, strict: bool) {
    && Once(order)
    && OnlyInvoked(h, order)
    && Answered(h, order, strict)
    && RealTime(h, order)
  }

  ghost predicate Linearizable(h: seq<Event>, strict: bool) {
    exists order :: Linearizes(h, order, strict)
  }

  /** No event of the history belongs to operation `op`. */
  ghost predicate Unseen(h: seq<Event>, op: nat) {
    forall e :: e in h ==> e.op != op
  }

  lemma AppendAnswers(order: seq<Entry>, e: Entry)
    ensures Replay(order + [e]) == Effect(Replay(order), e.call)
    ensures AnswerAt(order + [e], |order|) == Answer(Replay(order), e.call)
    ensures forall k :: 0 <= k < |order| ==> AnswerAt(order + [e], k) == AnswerAt(order, k)
  {
    var longer := order + [e];
    assert longer[..|order|] == order;
    forall k | 0 <= k < |order|
      ensures AnswerAt(longer, k) == AnswerAt(order, k)
    {
      assert longer[..k] == order[..k];
    }
  }

  lemma AppendAnswered(h: seq<Event>, order: seq<Entry>, strict: bool, e: Entry)
    requires Answered(h, order, strict)
    ensures Answered(h, order + [e], strict)
  {
    var longer := order + [e];
    AppendAnswers(order, e);
    forall o: nat, r: Outcome | Ret(o, r) in h && Definite(strict, r)
      ensures exists k :: 0 <= k < |longer| && longer[k].op == o && AnswerAt(longer, k) == r
    {
      var k :| 0 <= k < |order| && order[k].op == o && AnswerAt(order, k) == r;
      assert longer[k].op == o && AnswerAt(longer, k) == r;
    }
  }

  lemma AppendRealTime(h: seq<Event>, order: seq<Entry>, e: Entry)
    requires RealTime(h, order)
    requires forall o: nat, r: Outcome :: Ret(o, r) in h ==> o != e.op
    ensures RealTime(h, order + [e])
  {
    var longer := order + [e];
    forall k, l | 0 <= k < |longer| && 0 <= l < |longer| && Precedes(h, longer[k].op, longer[l].op)
      ensures k < l
    {
      var i, j :| 0 <= i < j < |h| && h[i].Ret? && h[i].op == longer[k].op && h[j].Inv? && h[j].op == longer[l].op;
      assert h[i] == Ret(longer[k].op, h[i].outcome) && h[i] in h;
      assert k < |order|;
      if l < |order| {
        assert Precedes(h, order[k].op, order[l].op);
      }
    }
  }

  /** An operation that is running may take effect now: it goes at the end of the order. */
  lemma AppendEntry(h: seq<Event>, order: seq<Entry>, strict: bool, e: Entry)
    requires Linearizes(h, order, strict)
    requires !Has(order, e.op)
    requires Inv(e.op, e.call) in h
    requires forall o: nat, r: Outcome :: Ret(o, r) in h ==> o != e.op
    ensures Linearizes(h, order + [e], strict)
  {
    AppendAnswered(h, order, strict, e);
    AppendRealTime(h, order, e);
    forall k | 0 <= k < |order|
      ensures order[k].op != e.op
    {
      assert k < |order|;
    }
  }

  lemma AppendInv(h: seq<Event>, order: seq<Entry>, strict: bool, op: nat, call: Call)
    requires Linearizes(h, order, strict)
    requires Unseen(h, op)
    ensures Linearizes(h + [Inv(op, call)], order, strict)
  {
    var h2 := h + [Inv(op, call)];
    forall o: nat, r: Outcome | Ret(o, r) in h2 && Definite(strict, r)
      ensures exists k :: 0 <= k < |order| && order[k].op == o && AnswerAt(order, k) == r
    {
      assert Ret(o, r) in h;
    }
    forall k | 0 <= k < |order|
      ensures Inv(order[k].op, order[k].call) in h2 && order[k].op != op
    {
      assert Inv(order[k].op, order[k].call) in h;
    }
    forall k, l | 0 <= k < |order| && 0 <= l < |order| && Precedes(h2, order[k].op, order[l].op)
      ensures k < l
    {
      var i, j :| 0 <= i < j < |h2| && h2[i].Ret? && h2[i].op == order[k].op && h2[j].Inv? && h2[j].op == order[l].op;
      assert j < |h|;
      assert h2[i] == h[i] && h2[j] == h[j];
      assert Precedes(h, order[k].op, order[l].op);
    }
  }

  lemma AppendRet(h: seq<Event>, order: seq<Entry>, strict: bool, op: nat, outcome: Outcome)
    requires Linearizes(h, order, strict)
    requires Definite(strict, outcome) ==>
               exists k :: 0 <= k < |order| && order[k].op == op && AnswerAt(order, k) == outcome
    ensures Linearizes(h + [Ret(op, outcome)], order, strict)
  {
    var h2 := h + [Ret(op, outcome)];
    forall o: nat, r: Outcome | Ret(o, r) in h2 && Definite(strict, r)
      ensures exists k :: 0 <= k < |order| && order[k].op == o && AnswerAt(order, k) == r
    {
      if !(o == op && r == outcome) {
        assert Ret(o, r) in h;
      }
    }
    forall k, l | 0 <= k < |order| && 0 <= l < |order| && Precedes(h2, order[k].op, order[l].op)
      ensures k < l
    {
      var i, j :| 0 <= i < j < |h2| && h2[i].Ret? && h2[i].op == order[k].op && h2[j].Inv? && h2[j].op == order[l].op;
      assert j < |h|;
      assert h2[i] == h[i] && h2[j] == h[j];
      assert Precedes(h, order[k].op, order[l].op);
    }
  }

  lemma {:induction false} ReplaySkipsGet(order: seq<Entry>, k: nat, n: nat)
    requires k < |order| && order[k].call.GetCall? && n <= |order|
    ensures n <= k ==> (order[..k] + order[k + 1..])[..n] == order[..n]
    ensures n > k ==> Replay((order[..k] + order[k + 1..])[..n - 1]) == Replay(order[..n])
    decreases n
  {
    var cut := order[..k] + order[k + 1..];
    if n <= k {
      assert cut[..n] == order[..n];
    } else if n == k + 1 {
      assert cut[..k] == order[..k];
      assert order[..n][..n - 1] == order[..k];
    } else {
      ReplaySkipsGet(order, k, n - 1);
      assert cut[..n - 1][..n - 2] == cut[..n - 2];
      assert order[..n][..n - 1] == order[..n - 1];
      assert cut[n - 2] == order[n - 1];
    }
  }

  /** Taking a GET out of an order leaves the answers of all other operations alone. */
  lemma RemoveAnswers(order: seq<Entry>, k: nat, cut: seq<Entry>)
    requires k < |order| && order[k].call.GetCall? && cut == order[..k] + order[k + 1..]
    ensures Replay(cut) == Replay(order)
    ensures forall l :: 0 <= l < k ==> AnswerAt(cut, l) == AnswerAt(order, l)
    ensures forall l :: k < l < |order| ==> AnswerAt(cut, l - 1) == AnswerAt(order, l)
  {
    ReplaySkipsGet(order, k, |order|);
    assert order[..|order|] == order && cut[..|order| - 1] == cut;
    forall l | 0 <= l < |order|
      ensures l < k ==> AnswerAt(cut, l) == AnswerAt(order, l)
      ensures k < l ==> AnswerAt(cut, l - 1) == AnswerAt(order, l)
    {
      ReplaySkipsGet(order, k, l);
    }
  }

  lemma RemoveAnswered(h: seq<Event>, order: seq<Entry>, strict: bool, k: nat, cut: seq<Entry>)
    requires Answered(h, order, strict)
    requires k < |order| && order[k].call.GetCall? && cut == order[..k] + order[k + 1..]
    requires forall o: nat, r: Outcome :: Ret(o, r) in h ==> o != order[k].op
    ensures Answered(h, cut, strict)
  {
    RemoveAnswers(order, k, cut);
    forall o: nat, r: Outcome | Ret(o, r) in h && Definite(strict, r)
      ensures exists l :: 0 <= l < |cut| && cut[l].op == o && AnswerAt(cut, l) == r
    {
      var l :| 0 <= l < |order| && order[l].op == o && AnswerAt(order, l) == r;
      var m := if l < k then l else l - 1;
      assert cut[m].op == o && AnswerAt(cut, m) == r;
    }
  }

  lemma RemoveRealTime(h: seq<Event>, order: seq<Entry>, k: nat, cut: seq<Entry>)
    requires RealTime(h, order)
    requires k < |order| && cut == order[..k] + order[k + 1..]
    ensures RealTime(h, cut)
  {
    forall a, b | 0 <= a < |cut| && 0 <= b < |cut| && Precedes(h, cut[a].op, cut[b].op)
      ensures a < b
    {
      var a2, b2 := if a < k then a else a + 1, if b < k then b else b + 1;
      assert cut[a] == order[a2] && cut[b] == order[b2];
    }
  }

  /** A GET that has not returned can be taken out of the order again. */
  lemma RemoveGet(h: seq<Event>, order: seq<Entry>, strict: bool, k: nat, cut: seq<Entry>)
    requires Linearizes(h, order, strict)
    requires k < |order| && order[k].call.GetCall? && cut == order[..k] + order[k + 1..]
    requires forall o: nat, r: Outcome :: Ret(o, r) in h ==> o != order[k].op
    ensures Linearizes(h, cut, strict)
  {
    RemoveAnswered(h, order, strict, k, cut);
    RemoveRealTime(h, order, k, cut);
    forall a | 0 <= a < |cut|
      ensures cut[a] == order[if a < k then a else a + 1]
    {
    }
  }
}
