/**
 What Appends leave behind: verified chains where those of one execution do not overlap, lost receipts where they do.
 */
module ReceiptOverlaps {
  import opened Results
  import opened Receipts
  import opened ReceiptRuns

  // The receipts handed out.

  /** The head is always that of the receipt published last. */
  ghost predicate Heading(chain: Chain, s: State) {
    s.head == EndOf(chain, s.issued) && (s.issued != [] ==> s.head.Some?)
  }

  /** A publishing Append finds the link it read still the one that is needed. */
  ghost predicate Current(chain: Chain, s: State, ev: Event)
    requires Possible(chain, s, ev)
  {
    ev.Publish? ==> LinkOf(s.pending[ev.call].receipt) == LinkNeeded(chain, s)
  }

  ghost predicate CurrentRun(chain: Chain, s: State, events: seq<Event>)
    requires PossibleRun(chain, s, events)
    decreases |events|
  {
    events == [] || (Current(chain, s, events[0]) && CurrentRun(chain, Next(chain, s, events[0]), events[1..]))
  }

  lemma StepIssues(chain: Chain, s: State, ev: Event)
    requires Placed(chain, s) && Heading(chain, s) && Possible(chain, s, ev)
    ensures Heading(chain, Next(chain, s, ev)) && s.issued <= Next(chain, s, ev).issued
    ensures Chained(chain, Next(chain, s, ev).issued) <==> Chained(chain, s.issued) && Current(chain, s, ev)
  {
    if ev.Publish? {
      ChainedPlus(chain, s.issued, s.pending[ev.call].receipt);
    }
  }

  lemma {:induction false} IssuedGrows(chain: Chain, s: State, events: seq<Event>)
    requires PossibleRun(chain, s, events)
    ensures s.issued <= Run(chain, s, events).issued
    decreases |events|
  {
    if events != [] {
      IssuedGrows(chain, Next(chain, s, events[0]), events[1..]);
    }
  }

  lemma BrokenPrefix(chain: Chain, receipts: seq<Receipt>, more: seq<Receipt>)
    requires receipts <= more && !Chained(chain, receipts)
    ensures !Chained(chain, more)
  {
    assert more[..|receipts|] == receipts;
    if Chained(chain, more) {
      ChainedPrefix(chain, more, |receipts|);
    }
  }

  /**
   Over any run, overlaps included: the receipts handed out form a chain in the order of their publication exactly when
   every publishing Append found its link still current.
   */
  lemma {:induction false} IssuedChainedIff(chain: Chain, s: State, events: seq<Event>)
    requires Placed(chain, s) && Heading(chain, s) && Chained(chain, s.issued) && PossibleRun(chain, s, events)
    ensures Chained(chain, Run(chain, s, events).issued) <==> CurrentRun(chain, s, events)
    decreases |events|
  {
    if events != [] {
      var t := Next(chain, s, events[0]);
      StepKeepsPlaced(chain, s, events[0]);
      StepIssues(chain, s, events[0]);
      if Chained(chain, t.issued) {
        IssuedChainedIff(chain, t, events[1..]);
      } else {
        IssuedGrows(chain, t, events[1..]);
        BrokenPrefix(chain, t.issued, Run(chain, t, events[1..]).issued);
      }
    }
  }

  // Signatures.

  ghost predicate SignedBy(chain: Chain, r: Receipt) {
    r.signature == chain.sign(r.(signature := ""))
  }

  ghost predicate AllSigned(chain: Chain, s: State) {
    forall n | n in s.stored :: SignedBy(chain, s.stored[n])
  }

  /** Every signature this chain makes is one that the verifier's key accepts. */
  ghost predicate Accepts(chain: Chain, valid: Option<Receipt -> bool>) {
    valid.Some? ==> forall r | SignedBy(chain, r) :: valid.value(r)
  }

  lemma {:induction false} RunKeepsSigned(chain: Chain, s: State, events: seq<Event>)
    requires PossibleRun(chain, s, events) && AllSigned(chain, s)
    ensures AllSigned(chain, Run(chain, s, events))
    decreases |events|
  {
    if events != [] {
      RunKeepsSigned(chain, Next(chain, s, events[0]), events[1..]);
    }
  }

  /** An export of signed receipts verifies without error exactly when they are linked. */
  lemma ExportVerifiesIff(chain: Chain, valid: Option<Receipt -> bool>, s: State)
    requires Placed(chain, s) && AllSigned(chain, s) && Accepts(chain, valid)
    ensures var receipts := Export(chain, s);
      ErrorCount(chain.suite, valid, receipts, |receipts|) == 0 <==> Linked(chain.suite, receipts)
  {
    var receipts := Export(chain, s);
    if valid.Some? {
      forall i | 0 <= i < |receipts| ensures valid.value(receipts[i]) {
        assert Among(chain.start, |s.stored|, chain.start + i);
        assert SignedBy(chain, receipts[i]);
      }
    }
    NoErrorsIffVerified(chain.suite, valid, receipts, |receipts|);
    assert receipts[..|receipts|] == receipts;
  }

  // Appends one at a time.

  /** No Append begins while another is under way. */
  ghost predicate Alone(s: State, ev: Event) {
    ev.Begin? ==> s.pending == map[]
  }

  ghost predicate AloneRun(chain: Chain, s: State, events: seq<Event>)
    requires PossibleRun(chain, s, events)
    decreases |events|
  {
    events == [] || (Alone(s, events[0]) && AloneRun(chain, Next(chain, s, events[0]), events[1..]))
  }

  /** At most one Append is under way; its link is the one needed, and only its receipt is stored and not yet issued. */
  ghost predicate Orderly(chain: Chain, s: State) {
    && Placed(chain, s) && Heading(chain, s) && Chained(chain, s.issued)
    && (forall c, d | c in s.pending && d in s.pending :: c == d)
    && (s.pending == map[] ==> Export(chain, s) == s.issued)
    && (s.pending != map[] && s.head.Some? ==> s.head.value.number < MAX_NUMBER)
    && (forall c | c in s.pending ::
          match s.pending[c]
          case Read(link) => link == LinkNeeded(chain, s) && Export(chain, s) == s.issued
          case Written(r) => LinkOf(r) == LinkNeeded(chain, s) && Export(chain, s) == s.issued + [r])
  }

  lemma IssuedNumbers(chain: Chain, s: State)
    requires Placed(chain, s) && Heading(chain, s) && Export(chain, s) == s.issued
    requires s.head.Some? ==> s.head.value.number < MAX_NUMBER
    ensures LinkNeeded(chain, s).number == chain.start + |s.issued|
  {
    ChainedNumbers(chain, s);
  }

  lemma StepKeepsOrderly(chain: Chain, s: State, ev: Event)
    requires Orderly(chain, s) && Possible(chain, s, ev) && Alone(s, ev)
    ensures Orderly(chain, Next(chain, s, ev))
  {
    var t := Next(chain, s, ev);
    StepKeepsPlaced(chain, s, ev);
    StepIssues(chain, s, ev);
    match ev
    case Begin(call) => OthersExport(chain, s, ev);
    case Put(call, id, content) =>
      PutExports(chain, s, ev);
      IssuedNumbers(chain, s);
    case Publish(call) =>
      OthersExport(chain, s, ev);
      assert t.pending == map[];
    case Fail(call) =>
      OthersExport(chain, s, ev);
      assert t.pending == map[];
  }

  lemma {:induction false} RunKeepsOrderly(chain: Chain, s: State, events: seq<Event>)
    requires Orderly(chain, s) && PossibleRun(chain, s, events) && AloneRun(chain, s, events)
    ensures Orderly(chain, Run(chain, s, events))
    decreases |events|
  {
    if events != [] {
      StepKeepsOrderly(chain, s, events[0]);
      RunKeepsOrderly(chain, Next(chain, s, events[0]), events[1..]);
    }
  }

  lemma OrderlyExport(chain: Chain, s: State)
    requires Orderly(chain, s)
    ensures Chained(chain, Export(chain, s))
    ensures s.pending == map[] ==> Export(chain, s) == s.issued && s.head == EndOf(chain, Export(chain, s))
  {
    if s.pending != map[] {
      var c :| c in s.pending;
      if s.pending[c].Written? {
        ChainedPlus(chain, s.issued, s.pending[c].receipt);
      }
    }
  }

  /**
   Appends that do not overlap: what is exported starts from the first link, every receipt follows the one before, and
   it verifies with no error; between Appends it is every receipt handed out, and Head is the last of them.
   */
  lemma AppendedChainsVerify(chain: Chain, valid: Option<Receipt -> bool>, events: seq<Event>)
    requires chain.start <= MAX_NUMBER && Accepts(chain, valid)
    requires PossibleRun(chain, EMPTY, events) && AloneRun(chain, EMPTY, events)
    ensures var s := Run(chain, EMPTY, events);
      && Placed(chain, s) && Chained(chain, Export(chain, s))
      && ErrorCount(chain.suite, valid, Export(chain, s), |Export(chain, s)|) == 0
      && (s.pending == map[] ==> Export(chain, s) == s.issued && s.head == EndOf(chain, s.issued))
  {
    assert Orderly(chain, EMPTY);
    RunKeepsOrderly(chain, EMPTY, events);
    RunKeepsSigned(chain, EMPTY, events);
    OrderlyExport(chain, Run(chain, EMPTY, events));
    ExportVerifiesIff(chain, valid, Run(chain, EMPTY, events));
  }

  // Receipts lost.

  /** The receipt written last under each number. */
  ghost function LastWrites(written: seq<Receipt>): map<int, Receipt> {
    if written == [] then map[]
    else
      var last := written[|written| - 1];
      LastWrites(written[..|written| - 1])[last.number := last]
  }

  /** A receipt that was written is handed out or about to be. */
  ghost predicate Delivered(s: State, r: Receipt) {
    r in s.issued || exists c | c in s.pending :: s.pending[c] == Written(r)
  }

  /** The store holds the last writes, and what was written is what is handed out or about to be. */
  ghost predicate Accounted(s: State) {
    && s.stored == LastWrites(s.written)
    && (forall r | r in s.written :: Delivered(s, r))
    && (forall r | r in s.issued :: r in s.written)
    && (forall c | c in s.pending && s.pending[c].Written? :: s.pending[c].receipt in s.written)
  }

  lemma StepKeepsAccounted(chain: Chain, s: State, ev: Event)
    requires Accounted(s) && Possible(chain, s, ev)
    ensures Accounted(Next(chain, s, ev))
  {
    var t := Next(chain, s, ev);
    if ev.Put? {
      assert t.written[..|s.written|] == s.written;
    }
    forall r | r in t.written ensures Delivered(t, r) {
      if r in s.written && r !in s.issued {
        assert Delivered(s, r);
        var c :| c in s.pending && s.pending[c] == Written(r);
        assert !ev.Publish? || c != ev.call ==> t.pending[c] == Written(r);
      } else if r !in s.written {
        assert t.pending[ev.call] == Written(r);
      }
    }
  }

  lemma {:induction false} RunKeepsAccounted(chain: Chain, s: State, events: seq<Event>)
    requires Accounted(s) && PossibleRun(chain, s, events)
    ensures Accounted(Run(chain, s, events))
    decreases |events|
  {
    if events != [] {
      StepKeepsAccounted(chain, s, events[0]);
      RunKeepsAccounted(chain, Next(chain, s, events[0]), events[1..]);
    }
  }

  lemma {:induction false} LastWritesAreWrites(written: seq<Receipt>, n: int)
    ensures n in LastWrites(written) <==> exists r :: r in written && r.number == n
    ensures n in LastWrites(written) ==> LastWrites(written)[n] in written && LastWrites(written)[n].number == n
  {
    if written != [] {
      var front, last := written[..|written| - 1], written[|written| - 1];
      assert written == front + [last];
      LastWritesAreWrites(front, n);
    }
  }

  /** No number was given to two different receipts. */
  ghost predicate NoNumberTwice(receipts: seq<Receipt>) {
    forall r, q | r in receipts && q in receipts && r.number == q.number :: r == q
  }

  lemma InExport(chain: Chain, s: State, r: Receipt)
    requires Placed(chain, s)
    ensures r in Export(chain, s) <==> r.number in s.stored && s.stored[r.number] == r
  {
    ChainedNumbers(chain, s);
    var receipts := Export(chain, s);
    if r.number in s.stored && s.stored[r.number] == r {
      assert Among(chain.start, |s.stored|, r.number);
      assert receipts[r.number - chain.start] == r;
    }
    if r in receipts {
      var i :| 0 <= i < |receipts| && receipts[i] == r;
      assert Among(chain.start, |s.stored|, chain.start + i);
    }
  }

  /** All that was written is exported exactly when no number was written with two different receipts. */
  lemma WrittenKeptIff(chain: Chain, s: State)
    requires Placed(chain, s) && Accounted(s)
    ensures (forall r | r in s.written :: r in Export(chain, s)) <==> NoNumberTwice(s.written)
  {
    forall r | r in s.written
      ensures r.number in s.stored && (r in Export(chain, s) <==> s.stored[r.number] == r)
      ensures s.stored[r.number] in s.written && s.stored[r.number].number == r.number
    {
      InExport(chain, s, r);
      LastWritesAreWrites(s.written, r.number);
    }
  }

  /**
   Over any run that has ended, overlaps included: no receipt that was handed out is missing from the export exactly
   when no number was written with two different receipts. At every moment the store holds the last writes.
   */
  lemma NothingLostIff(chain: Chain, events: seq<Event>)
    requires chain.start <= MAX_NUMBER && PossibleRun(chain, EMPTY, events)
    ensures var s := Run(chain, EMPTY, events);
      && Placed(chain, s) && s.stored == LastWrites(s.written)
      && (s.pending == map[] ==>
            ((forall r | r in s.issued :: r in Export(chain, s)) <==> NoNumberTwice(s.written)))
  {
    var s := Run(chain, EMPTY, events);
    RunKeepsPlaced(chain, EMPTY, events);
    RunKeepsAccounted(chain, EMPTY, events);
    WrittenKeptIff(chain, s);
    if s.pending == map[] {
      forall r ensures r in s.issued <==> r in s.written {
        assert r in s.written ==> Delivered(s, r);
      }
    }
  }
}
