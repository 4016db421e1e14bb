/**
 Appends as they interleave: each reads the head, writes its receipt to the store and replaces the head, with other
 calls in between. The store keeps one receipt per execution and number, so a later write replaces an earlier one.

 Appends to different executions touch different heads and different keys. A run of one execution comes first, all
 executions together at the end.
 */
module ReceiptRuns {
  import opened Results
  import opened Receipts

  /** What one execution's Appends share: its identifier, its first number and the chain's hashing and signing. */
  datatype Chain = Chain(suite: Suite, start: int, executionID: string, sign: Receipt -> string)

  /** An Append under way: it has read its link, or it has also written its receipt. */
  datatype Pending = Read(link: Link) | Written(receipt: Receipt)

  /**
   One execution: its head, its stored receipts by number, its Appends under way, and as history the receipts in the
   order in which they were written and in the order in which they were published and returned to their callers.
   */
  datatype State = State(
    head: Option<Head>,
    stored: map<int, Receipt>,
    pending: map<nat, Pending>,
    written: seq<Receipt>,
    issued: seq<Receipt>)

  datatype Event =
    | Begin(call: nat)
    | Put(call: nat, id: string, content: string)
    | Publish(call: nat)
    | Fail(call: nat)      // serialising, signing or storing fails: nothing was written

  const EMPTY := State(None, map[], map[], [], [])

  function LinkNeeded(chain: Chain, s: State): Link {
    NextLink(chain.suite, chain.start, chain.executionID, s.head)
  }

  function LinkOf(r: Receipt): Link {
    Link(r.prev, r.number)
  }

  function MadeBy(chain: Chain, link: Link, id: string, content: string): Receipt {
    Made(id, link, chain.executionID, content, chain.sign)
  }

  /** An Append that begins has a number left to give; one that goes on has serialised its receipt. */
  ghost predicate Possible(chain: Chain, s: State, ev: Event) {
    match ev
    case Begin(call) => call !in s.pending && (s.head.Some? ==> s.head.value.number < MAX_NUMBER)
    case Put(call, id, content) =>
      && call in s.pending && s.pending[call].Read?
      && HashReceipt(chain.suite, MadeBy(chain, s.pending[call].link, id, content)).Some?
    case Publish(call) =>
      call in s.pending && s.pending[call].Written? && HashReceipt(chain.suite, s.pending[call].receipt).Some?
    case Fail(call) => call in s.pending && s.pending[call].Read?
  }

  ghost function HeadBy(chain: Chain, r: Receipt): Option<Head> {
    match HashReceipt(chain.suite, r)
    case None => None
    case Some(hash) => Some(Head(hash, r.number))
  }

  ghost function Next(chain: Chain, s: State, ev: Event): State
    requires Possible(chain, s, ev)
  {
    match ev
    case Begin(call) => s.(pending := s.pending[call := Read(LinkNeeded(chain, s))])
    case Put(call, id, content) =>
      var r := MadeBy(chain, s.pending[call].link, id, content);
      s.(stored := s.stored[r.number := r], pending := s.pending[call := Written(r)], written := s.written + [r])
    case Publish(call) =>
      var r := s.pending[call].receipt;
      s.(head := HeadBy(chain, r), pending := s.pending - {call}, issued := s.issued + [r])
    case Fail(call) => s.(pending := s.pending - {call})
  }

  ghost predicate PossibleRun(chain: Chain, s: State, events: seq<Event>)
    decreases |events|
  {
    events == [] || (Possible(chain, s, events[0]) && PossibleRun(chain, Next(chain, s, events[0]), events[1..]))
  }

  ghost function Run(chain: Chain, s: State, events: seq<Event>): State
    requires PossibleRun(chain, s, events)
    decreases |events|
  {
    if events == [] then s else Run(chain, Next(chain, s, events[0]), events[1..])
  }

  // What is in the store, however Appends overlap.

  predicate Among(start: int, size: nat, n: int) {
    start <= n < start + size
  }

  /** The stored numbers run from the first on without a gap. */
  ghost predicate Filled(start: int, stored: map<int, Receipt>) {
    forall n :: n in stored <==> Among(start, |stored|, n)
  }

  /** The head, every link read and every receipt written are among the stored numbers, or the next one. */
  ghost predicate Placed(chain: Chain, s: State) {
    && chain.start <= MAX_NUMBER
    && Filled(chain.start, s.stored)
    && (forall n | n in s.stored :: s.stored[n].number == n && s.stored[n].executionID == chain.executionID)
    && (s.head.Some? ==> s.head.value.number in s.stored)
    && (forall c | c in s.pending && s.pending[c].Read? ::
          s.pending[c].link.number <= MAX_NUMBER && Among(chain.start, |s.stored| + 1, s.pending[c].link.number))
    && (forall c | c in s.pending && s.pending[c].Written? :: s.pending[c].receipt.executionID == chain.executionID)
    && (forall c | c in s.pending && s.pending[c].Written? :: s.pending[c].receipt.number in s.stored)
  }

  /** What an export lists, in the order of numbers. */
  ghost function Export(chain: Chain, s: State): seq<Receipt>
    requires Placed(chain, s)
  {
    seq(|s.stored|, i requires 0 <= i < |s.stored| =>
      assert Among(chain.start, |s.stored|, chain.start + i); s.stored[chain.start + i])
  }

  lemma PutFills(start: int, stored: map<int, Receipt>, n: int, r: Receipt)
    requires Filled(start, stored) && Among(start, |stored| + 1, n)
    ensures Filled(start, stored[n := r])
    ensures |stored[n := r]| == if n in stored then |stored| else |stored| + 1
  {
    var more := stored[n := r];
    assert |more| == |more.Keys| && |stored| == |stored.Keys|;
    assert more.Keys == stored.Keys + {n};
    forall k ensures k in more <==> Among(start, |more|, k) {
      assert k in stored <==> Among(start, |stored|, k);
      assert n in stored <==> Among(start, |stored|, n);
    }
  }

  lemma StepKeepsPlaced(chain: Chain, s: State, ev: Event)
    requires Placed(chain, s) && Possible(chain, s, ev)
    ensures Placed(chain, Next(chain, s, ev))
  {
    match ev
    case Begin(call) =>
      if s.head.Some? { assert Among(chain.start, |s.stored|, s.head.value.number); }
    case Put(call, id, content) =>
      var r := MadeBy(chain, s.pending[call].link, id, content);
      PutFills(chain.start, s.stored, r.number, r);
    case Publish(call) =>
    case Fail(call) =>
  }

  lemma {:induction false} RunKeepsPlaced(chain: Chain, s: State, events: seq<Event>)
    requires Placed(chain, s) && PossibleRun(chain, s, events)
    ensures Placed(chain, Run(chain, s, events))
    decreases |events|
  {
    if events != [] {
      StepKeepsPlaced(chain, s, events[0]);
      RunKeepsPlaced(chain, Next(chain, s, events[0]), events[1..]);
    }
  }

  ghost function Placing(receipts: seq<Receipt>, j: nat, r: Receipt): seq<Receipt>
    requires j <= |receipts|
  {
    if j < |receipts| then receipts[j := r] else receipts + [r]
  }

  /** Writing a receipt puts it in its number's place, at the end or over the one that was there. */
  lemma PutExports(chain: Chain, s: State, ev: Event)
    requires Placed(chain, s) && Possible(chain, s, ev) && ev.Put?
    ensures var t, r := Next(chain, s, ev), MadeBy(chain, s.pending[ev.call].link, ev.id, ev.content);
      && Placed(chain, t) && 0 <= r.number - chain.start <= |Export(chain, s)|
      && Export(chain, t) == Placing(Export(chain, s), r.number - chain.start, r)
  {
    StepKeepsPlaced(chain, s, ev);
    var r := MadeBy(chain, s.pending[ev.call].link, ev.id, ev.content);
    PutFills(chain.start, s.stored, r.number, r);
    assert r.number in s.stored <==> Among(chain.start, |s.stored|, r.number);
  }

  /** No other event changes what an export lists. */
  lemma OthersExport(chain: Chain, s: State, ev: Event)
    requires Placed(chain, s) && Possible(chain, s, ev) && !ev.Put?
    ensures Placed(chain, Next(chain, s, ev)) && Export(chain, Next(chain, s, ev)) == Export(chain, s)
  {
    StepKeepsPlaced(chain, s, ev);
  }

  // Chains.

  /** From the start of an execution: the first link, then each receipt following the one before. */
  ghost predicate Chained(chain: Chain, receipts: seq<Receipt>) {
    && Linked(chain.suite, receipts)
    && (forall i | 0 <= i < |receipts| :: receipts[i].executionID == chain.executionID)
    && (receipts != [] ==>
          LinkOf(receipts[0]) == NextLink(chain.suite, chain.start, chain.executionID, None))
  }

  /** The head that a list of receipts ends in. */
  ghost function EndOf(chain: Chain, receipts: seq<Receipt>): Option<Head> {
    if receipts == [] then None else HeadBy(chain, receipts[|receipts| - 1])
  }

  /** A chain grows by a receipt exactly when that carries the link its end calls for. */
  lemma ChainedPlus(chain: Chain, receipts: seq<Receipt>, r: Receipt)
    requires r.executionID == chain.executionID && (receipts != [] ==> EndOf(chain, receipts).Some?)
    ensures Chained(chain, receipts + [r]) <==>
      && Chained(chain, receipts)
      && LinkOf(r) == NextLink(chain.suite, chain.start, chain.executionID, EndOf(chain, receipts))
  {
    var longer := receipts + [r];
    var n := |receipts|;
    if Chained(chain, longer) {
      forall i | 0 < i < n ensures Follows(chain.suite, receipts[i - 1], receipts[i]) {
        assert Follows(chain.suite, longer[i - 1], longer[i]);
      }
      forall i | 0 <= i < n ensures receipts[i].executionID == chain.executionID {
        assert longer[i] == receipts[i];
      }
      if n > 0 {
        assert longer[0] == receipts[0];
        assert Follows(chain.suite, longer[n - 1], longer[n]);
      }
    } else if Chained(chain, receipts) && n > 0 {
      assert longer[0] == receipts[0];
      forall i | 0 < i < n ensures Follows(chain.suite, longer[i - 1], longer[i]) {
        assert Follows(chain.suite, receipts[i - 1], receipts[i]);
      }
    }
  }

  lemma ChainedPrefix(chain: Chain, receipts: seq<Receipt>, n: nat)
    requires Chained(chain, receipts) && n <= |receipts|
    ensures Chained(chain, receipts[..n])
  {
    forall i | 0 < i < n ensures Follows(chain.suite, receipts[..n][i - 1], receipts[..n][i]) {
      assert Follows(chain.suite, receipts[i - 1], receipts[i]);
    }
  }

  lemma ChainedNumbers(chain: Chain, s: State)
    requires Placed(chain, s)
    ensures forall i | 0 <= i < |Export(chain, s)| ::
      Export(chain, s)[i].number == chain.start + i && Export(chain, s)[i].executionID == chain.executionID
  {
    forall i | 0 <= i < |s.stored|
      ensures Export(chain, s)[i].number == chain.start + i && Export(chain, s)[i].executionID == chain.executionID
    {
      assert Among(chain.start, |s.stored|, chain.start + i);
    }
  }

  /** What is stored before a place is what a receipt written there has to link to. */
  ghost predicate FitsAt(chain: Chain, receipts: seq<Receipt>, j: nat, r: Receipt)
    requires j <= |receipts|
  {
    if j == 0 then r.prev == InitialPrev(chain.suite, chain.executionID)
    else HashReceipt(chain.suite, receipts[j - 1]) == Some(r.prev)
  }

  /**
   Writing a receipt keeps an execution's stored chain exactly when it links to what is stored before its place and,
   if its place was already followed by another, hashes like the receipt it replaces.
   */
  lemma PutKeepsChainIff(chain: Chain, s: State, ev: Event)
    requires Placed(chain, s) && Possible(chain, s, ev) && ev.Put? && Chained(chain, Export(chain, s))
    ensures var t, r := Next(chain, s, ev), MadeBy(chain, s.pending[ev.call].link, ev.id, ev.content);
      var receipts, j := Export(chain, s), r.number - chain.start;
      && Placed(chain, t) && 0 <= j <= |receipts|
      && (Chained(chain, Export(chain, t)) <==>
            FitsAt(chain, receipts, j, r)
            && (j + 1 < |receipts| ==> HashReceipt(chain.suite, r) == HashReceipt(chain.suite, receipts[j])))
  {
    PutExports(chain, s, ev);
    ChainedNumbers(chain, s);
    var r := MadeBy(chain, s.pending[ev.call].link, ev.id, ev.content);
    PlacingChainedIff(chain, Export(chain, s), r.number - chain.start, r);
  }

  lemma PlacingChainedIff(chain: Chain, receipts: seq<Receipt>, j: nat, r: Receipt)
    requires j <= |receipts| && Chained(chain, receipts)
    requires r.number == chain.start + j <= MAX_NUMBER && r.executionID == chain.executionID
    requires forall i | 0 <= i < |receipts| :: receipts[i].number == chain.start + i
    ensures Chained(chain, Placing(receipts, j, r)) <==>
      FitsAt(chain, receipts, j, r)
      && (j + 1 < |receipts| ==> HashReceipt(chain.suite, r) == HashReceipt(chain.suite, receipts[j]))
  {
    var after := Placing(receipts, j, r);
    if j + 1 < |receipts| {
      assert Follows(chain.suite, receipts[j], receipts[j + 1]);
    }
    if Chained(chain, after) {
      if j > 0 { assert Follows(chain.suite, after[j - 1], after[j]); }
      if j + 1 < |receipts| { assert Follows(chain.suite, after[j], after[j + 1]); }
    }
    if FitsAt(chain, receipts, j, r)
       && (j + 1 < |receipts| ==> HashReceipt(chain.suite, r) == HashReceipt(chain.suite, receipts[j]))
    {
      forall i | 0 < i < |after| ensures Follows(chain.suite, after[i - 1], after[i]) {
        if i < |receipts| { assert Follows(chain.suite, receipts[i - 1], receipts[i]); }
      }
    }
  }

  /** Nobody in between: what ReceiptChain.Append does to its execution's head and stored receipts. */
  lemma OneAppend(chain: Chain, s: State, heads: Heads, call: nat, id: string, content: string)
    requires Possible(chain, s, Begin(call)) && s.head == HeadOf(heads, chain.executionID)
    requires HashReceipt(chain.suite, MadeBy(chain, LinkNeeded(chain, s), id, content)).Some?
    ensures var events := [Begin(call), Put(call, id, content), Publish(call)];
      var made := Appended(chain.suite, chain.start, heads, id, chain.executionID, content, chain.sign);
      && PossibleRun(chain, s, events)
      && Run(chain, s, events).head == HeadBy(chain, made)
      && Run(chain, s, events).stored == s.stored[made.number := made]
      && Run(chain, s, events).pending == s.pending
  {
    var events := [Begin(call), Put(call, id, content), Publish(call)];
    var s1 := Next(chain, s, events[0]);
    var s2 := Next(chain, s1, events[1]);
    var s3 := Next(chain, s2, events[2]);
    assert events[1..] == [events[1], events[2]] && events[1..][1..] == [events[2]] && events[1..][1..][1..] == [];
    assert PossibleRun(chain, s3, []) && Run(chain, s3, []) == s3;
    assert PossibleRun(chain, s2, [events[2]]) && Run(chain, s2, [events[2]]) == s3;
    assert PossibleRun(chain, s1, events[1..]) && Run(chain, s1, events[1..]) == s3;
    assert s3.pending == s.pending;
  }

  // All executions together.

  /** Every execution's state; one that has not begun is empty. */
  type System = map<string, State>

  function Of(y: System, executionID: string): State {
    if executionID in y then y[executionID] else EMPTY
  }

  function ChainOf(chain: Chain, executionID: string): Chain {
    chain.(executionID := executionID)
  }

  ghost predicate PossibleTogether(chain: Chain, y: System, events: seq<(string, Event)>)
    decreases |events|
  {
    events == [] ||
      var (e, ev) := events[0];
      && Possible(ChainOf(chain, e), Of(y, e), ev)
      && PossibleTogether(chain, y[e := Next(ChainOf(chain, e), Of(y, e), ev)], events[1..])
  }

  ghost function RunTogether(chain: Chain, y: System, events: seq<(string, Event)>): System
    requires PossibleTogether(chain, y, events)
    decreases |events|
  {
    if events == [] then y
    else
      var (e, ev) := events[0];
      RunTogether(chain, y[e := Next(ChainOf(chain, e), Of(y, e), ev)], events[1..])
  }

  function Project(events: seq<(string, Event)>, executionID: string): seq<Event> {
    if events == [] then []
    else if events[0].0 == executionID then [events[0].1] + Project(events[1..], executionID)
    else Project(events[1..], executionID)
  }

  /** However the Appends of different executions interleave, each execution has the run of its own events. */
  lemma {:induction false} RunsApart(chain: Chain, y: System, events: seq<(string, Event)>, executionID: string)
    requires PossibleTogether(chain, y, events)
    ensures var c := ChainOf(chain, executionID);
      && PossibleRun(c, Of(y, executionID), Project(events, executionID))
      && Of(RunTogether(chain, y, events), executionID) == Run(c, Of(y, executionID), Project(events, executionID))
    decreases |events|
  {
    if events != [] {
      var (e, ev) := events[0];
      var z := y[e := Next(ChainOf(chain, e), Of(y, e), ev)];
      RunsApart(chain, z, events[1..], executionID);
      if e == executionID {
        var own := Project(events, executionID);
        assert own[0] == ev && own[1..] == Project(events[1..], executionID);
      }
    }
  }
}
