/**
 Appends of one execution that overlap: a round in which any number of them read the same head.

 All of them write to one number, so the store keeps the receipt that was written last, and the head is the one that
 was published last. Every other receipt of the round was handed out and is gone, and verification passes.
 */
module ReceiptRounds {
  import opened Results
  import opened Receipts
  import opened ReceiptRuns
  import opened ReceiptOverlaps

  /** Between Appends: what is stored is a chain and the head is its end. */
  ghost predicate Settled(chain: Chain, s: State) {
    && Placed(chain, s) && s.pending == map[] && AllSigned(chain, s)
    && Chained(chain, Export(chain, s)) && s.head == EndOf(chain, Export(chain, s))
    && (Export(chain, s) != [] ==> s.head.Some?)
  }

  /** In a round no Append begins after one of the round has published. */
  ghost predicate OneRound(chain: Chain, s: State, events: seq<Event>, issued: nat)
    requires PossibleRun(chain, s, events)
    decreases |events|
  {
    events == [] ||
      ((events[0].Begin? ==> |s.issued| == issued) && OneRound(chain, Next(chain, s, events[0]), events[1..], issued))
  }

  ghost function WrittenSince(s0: State, s: State): seq<Receipt> {
    if |s0.written| <= |s.written| then s.written[|s0.written|..] else []
  }

  ghost function IssuedSince(s0: State, s: State): seq<Receipt> {
    if |s0.issued| <= |s.issued| then s.issued[|s0.issued|..] else []
  }

  ghost predicate AllLinked(receipts: seq<Receipt>, link: Link) {
    forall r | r in receipts :: LinkOf(r) == link
  }

  ghost function WithLast(base: seq<Receipt>, more: seq<Receipt>): seq<Receipt> {
    if more == [] then base else base + [more[|more| - 1]]
  }

  ghost predicate PendingIn(s0: State, s: State, link: Link) {
    forall c | c in s.pending ::
      match s.pending[c]
      case Read(l) => l == link
      case Written(r) => LinkOf(r) == link && r in WrittenSince(s0, s)
  }

  /** Every receipt written was published or is about to be, and the other way round. */
  ghost predicate Accounted(s0: State, s: State) {
    && (forall r | r in IssuedSince(s0, s) :: r in WrittenSince(s0, s))
    && (forall r | r in WrittenSince(s0, s) ::
          r in IssuedSince(s0, s) || exists c :: c in s.pending && s.pending[c] == Written(r))
  }

  ghost predicate Recorded(s0: State, s: State, link: Link) {
    && s0.written <= s.written && s0.issued <= s.issued
    && AllLinked(WrittenSince(s0, s), link) && AllLinked(IssuedSince(s0, s), link)
    && PendingIn(s0, s, link) && Accounted(s0, s)
  }

  ghost predicate InRound(chain: Chain, s0: State, s: State) {
    && Settled(chain, s0) && Placed(chain, s) && AllSigned(chain, s) && Recorded(s0, s, LinkNeeded(chain, s0))
    && Export(chain, s) == WithLast(Export(chain, s0), WrittenSince(s0, s))
    && s.head == (if IssuedSince(s0, s) == [] then s0.head else EndOf(chain, s.issued))
    && (IssuedSince(s0, s) != [] ==> s.head.Some?)
    && (s.pending != map[] || WrittenSince(s0, s) != [] ==> s0.head.Some? ==> s0.head.value.number < MAX_NUMBER)
  }

  lemma RoundStarts(chain: Chain, s0: State)
    requires Settled(chain, s0)
    ensures InRound(chain, s0, s0)
  {
    assert WrittenSince(s0, s0) == [] && IssuedSince(s0, s0) == [];
  }

  lemma RoundNumber(chain: Chain, s0: State)
    requires Settled(chain, s0) && (s0.head.Some? ==> s0.head.value.number < MAX_NUMBER)
    ensures LinkNeeded(chain, s0).number == chain.start + |Export(chain, s0)|
  {
    ChainedNumbers(chain, s0);
  }

  lemma PutRecorded(chain: Chain, s0: State, s: State, ev: Event, link: Link)
    requires Recorded(s0, s, link) && Possible(chain, s, ev) && ev.Put?
    ensures var t := Next(chain, s, ev);
      && Recorded(s0, t, link)
      && WrittenSince(s0, t) == WrittenSince(s0, s) + [MadeBy(chain, link, ev.id, ev.content)]
      && IssuedSince(s0, t) == IssuedSince(s0, s)
  {
    var t, r := Next(chain, s, ev), MadeBy(chain, s.pending[ev.call].link, ev.id, ev.content);
    assert WrittenSince(s0, t) == WrittenSince(s0, s) + [r] && IssuedSince(s0, t) == IssuedSince(s0, s);
    assert t.pending[ev.call] == Written(r);
    forall q | q in WrittenSince(s0, t)
      ensures q in IssuedSince(s0, t) || exists c :: c in t.pending && t.pending[c] == Written(q)
    {
      if q in WrittenSince(s0, s) && q !in IssuedSince(s0, s) {
        var c :| c in s.pending && s.pending[c] == Written(q);
        assert t.pending[c] == Written(q);
      }
    }
  }

  lemma PutSigned(chain: Chain, s: State, ev: Event)
    requires AllSigned(chain, s) && Possible(chain, s, ev) && ev.Put?
    ensures AllSigned(chain, Next(chain, s, ev))
  {
  }

  lemma RoundPut(chain: Chain, s0: State, s: State, ev: Event)
    requires InRound(chain, s0, s) && Possible(chain, s, ev) && ev.Put?
    ensures InRound(chain, s0, Next(chain, s, ev))
  {
    var link := LinkNeeded(chain, s0);
    PutExports(chain, s, ev);
    PutSigned(chain, s, ev);
    PutRecorded(chain, s0, s, ev, link);
    RoundNumber(chain, s0);
    PlacingLast(Export(chain, s0), WrittenSince(s0, s), MadeBy(chain, link, ev.id, ev.content));
  }

  /** The next place of a list, whether it is already taken or not. */
  lemma PlacingLast(base: seq<Receipt>, more: seq<Receipt>, r: Receipt)
    ensures Placing(WithLast(base, more), |base|, r) == WithLast(base, more + [r])
  {
  }

  lemma PublishRecorded(chain: Chain, s0: State, s: State, ev: Event, link: Link)
    requires Recorded(s0, s, link) && Possible(chain, s, ev) && ev.Publish?
    ensures var t := Next(chain, s, ev);
      && Recorded(s0, t, link)
      && WrittenSince(s0, t) == WrittenSince(s0, s)
      && IssuedSince(s0, t) == IssuedSince(s0, s) + [s.pending[ev.call].receipt]
  {
    var t, r := Next(chain, s, ev), s.pending[ev.call].receipt;
    assert WrittenSince(s0, t) == WrittenSince(s0, s) && IssuedSince(s0, t) == IssuedSince(s0, s) + [r];
    StillAccounted(s0, s, t, r);
  }

  /** Taking one Append's receipt out of those under way is made up for by its publication. */
  lemma StillAccounted(s0: State, s: State, t: State, r: Receipt)
    requires Accounted(s0, s) && WrittenSince(s0, t) == WrittenSince(s0, s)
    requires IssuedSince(s0, s) <= IssuedSince(s0, t)
    requires forall q | q in IssuedSince(s0, t) :: q in IssuedSince(s0, s) || (q == r && r in WrittenSince(s0, s))
    requires forall c | c in s.pending && s.pending[c].Written? ::
      (c in t.pending && t.pending[c] == s.pending[c]) || s.pending[c].receipt in IssuedSince(s0, t)
    ensures Accounted(s0, t)
  {
    forall q | q in WrittenSince(s0, t)
      ensures q in IssuedSince(s0, t) || exists c :: c in t.pending && t.pending[c] == Written(q)
    {
      if q !in IssuedSince(s0, t) {
        assert q !in IssuedSince(s0, s);
        var c :| c in s.pending && s.pending[c] == Written(q);
        assert t.pending[c] == Written(q);
      }
    }
  }

  lemma RoundPublish(chain: Chain, s0: State, s: State, ev: Event)
    requires InRound(chain, s0, s) && Possible(chain, s, ev) && ev.Publish?
    ensures InRound(chain, s0, Next(chain, s, ev))
  {
    OthersExport(chain, s, ev);
    PublishRecorded(chain, s0, s, ev, LinkNeeded(chain, s0));
  }

  lemma OtherRecorded(chain: Chain, s0: State, s: State, ev: Event, link: Link)
    requires Recorded(s0, s, link) && Possible(chain, s, ev) && (ev.Begin? || ev.Fail?)
    requires ev.Begin? ==> LinkNeeded(chain, s) == link
    ensures var t := Next(chain, s, ev);
      && Recorded(s0, t, link)
      && WrittenSince(s0, t) == WrittenSince(s0, s) && IssuedSince(s0, t) == IssuedSince(s0, s)
  {
    var t := Next(chain, s, ev);
    assert WrittenSince(s0, t) == WrittenSince(s0, s) && IssuedSince(s0, t) == IssuedSince(s0, s);
    forall q | q in WrittenSince(s0, t)
      ensures q in IssuedSince(s0, t) || exists c :: c in t.pending && t.pending[c] == Written(q)
    {
      if q !in IssuedSince(s0, t) {
        var c :| c in s.pending && s.pending[c] == Written(q);
        assert t.pending[c] == Written(q);
      }
    }
  }

  lemma RoundOther(chain: Chain, s0: State, s: State, ev: Event)
    requires InRound(chain, s0, s) && Possible(chain, s, ev) && (ev.Begin? || ev.Fail?)
    requires ev.Begin? ==> |s.issued| == |s0.issued|
    ensures InRound(chain, s0, Next(chain, s, ev))
  {
    OthersExport(chain, s, ev);
    OtherRecorded(chain, s0, s, ev, LinkNeeded(chain, s0));
  }

  lemma {:induction false} RunsInRound(chain: Chain, s0: State, s: State, events: seq<Event>)
    requires InRound(chain, s0, s) && PossibleRun(chain, s, events) && OneRound(chain, s, events, |s0.issued|)
    ensures InRound(chain, s0, Run(chain, s, events))
    decreases |events|
  {
    if events != [] {
      var ev := events[0];
      if ev.Put? {
        RoundPut(chain, s0, s, ev);
      } else if ev.Publish? {
        RoundPublish(chain, s0, s, ev);
      } else {
        RoundOther(chain, s0, s, ev);
      }
      RunsInRound(chain, s0, Next(chain, s, ev), events[1..]);
    }
  }

  /** The end of a round: all its Appends are done, and at least one of them wrote. */
  ghost predicate Ended(s0: State, s: State) {
    s.pending == map[] && WrittenSince(s0, s) != []
  }

  ghost function LastWritten(s0: State, s: State): Receipt
    requires WrittenSince(s0, s) != []
  {
    WrittenSince(s0, s)[|WrittenSince(s0, s)| - 1]
  }

  /**
   After a round of any number of overlapping Appends the export is what it was before and one receipt more, the one
   written last. It verifies with no error, although every other receipt of the round was handed out as well.
   */
  lemma RoundKeepsOne(chain: Chain, valid: Option<Receipt -> bool>, s0: State, events: seq<Event>)
    requires Settled(chain, s0) && Accepts(chain, valid)
    requires PossibleRun(chain, s0, events) && OneRound(chain, s0, events, |s0.issued|)
    requires Ended(s0, Run(chain, s0, events))
    ensures var s := Run(chain, s0, events);
      && Placed(chain, s)
      && Export(chain, s) == Export(chain, s0) + [LastWritten(s0, s)]
      && LastWritten(s0, s) in IssuedSince(s0, s)
      && (forall r | r in IssuedSince(s0, s) :: r in Export(chain, s) <==> r == LastWritten(s0, s))
      && ErrorCount(chain.suite, valid, Export(chain, s), |Export(chain, s)|) == 0
  {
    var s := Run(chain, s0, events);
    RoundStarts(chain, s0);
    RunsInRound(chain, s0, s0, events);
    RoundChained(chain, s0, s);
    ExportVerifiesIff(chain, valid, s);
    RoundNumber(chain, s0);
    ChainedNumbers(chain, s0);
  }

  lemma RoundChained(chain: Chain, s0: State, s: State)
    requires InRound(chain, s0, s) && Ended(s0, s)
    ensures Chained(chain, Export(chain, s))
  {
    var last := LastWritten(s0, s);
    assert last in WrittenSince(s0, s);
    ChainedNumbers(chain, s);
    assert Export(chain, s)[|Export(chain, s0)|] == last;
    ChainedPlus(chain, Export(chain, s0), last);
  }

  lemma EndOfRound(chain: Chain, s0: State, s: State)
    requires InRound(chain, s0, s) && Ended(s0, s)
    ensures IssuedSince(s0, s) != [] && s.issued != [] && s.head == HeadBy(chain, s.issued[|s.issued| - 1])
    ensures s.issued[|s.issued| - 1].number == chain.start + |Export(chain, s)| - 1
  {
    assert LastWritten(s0, s) in WrittenSince(s0, s);
    var last := s.issued[|s.issued| - 1];
    assert last == IssuedSince(s0, s)[|IssuedSince(s0, s)| - 1];
    assert LinkOf(last) == LinkNeeded(chain, s0);
    RoundNumber(chain, s0);
  }

  /** A receipt that links to one receipt continues a chain that ends in another exactly when the two hash alike. */
  lemma ContinuesIff(suite: Suite, receipts: seq<Receipt>, published: Receipt, r: Receipt)
    requires Linked(suite, receipts) && receipts != [] && HashReceipt(suite, published) == Some(r.prev)
    requires r.number == Succ(receipts[|receipts| - 1].number)
    ensures Linked(suite, receipts + [r]) <==>
      HashReceipt(suite, published) == HashReceipt(suite, receipts[|receipts| - 1])
  {
    var longer, n := receipts + [r], |receipts|;
    if Linked(suite, longer) {
      assert Follows(suite, longer[n - 1], longer[n]);
    }
    if HashReceipt(suite, published) == HashReceipt(suite, receipts[n - 1]) {
      forall i | 0 < i < |longer| ensures Follows(suite, longer[i - 1], longer[i]) {
        if i < n { assert Follows(suite, receipts[i - 1], receipts[i]); }
      }
    }
  }

  /**
   What the next Append then finds: its receipt links to the one published last, so the export goes on verifying exactly
   when that one hashes like the one written last. If writing and publishing ended with the same Append it does; if not
   it fails, or the two receipts serialise alike or collide.
   */
  lemma AfterRoundIff(chain: Chain, valid: Option<Receipt -> bool>, s0: State, events: seq<Event>, begin: Event,
      put: Event)
    requires Settled(chain, s0) && Accepts(chain, valid)
    requires PossibleRun(chain, s0, events) && OneRound(chain, s0, events, |s0.issued|)
    requires Ended(s0, Run(chain, s0, events))
    requires begin.Begin? && put.Put? && put.call == begin.call
    requires Possible(chain, Run(chain, s0, events), begin)
    requires Possible(chain, Next(chain, Run(chain, s0, events), begin), put)
    ensures var s := Run(chain, s0, events);
      var t := Next(chain, Next(chain, s, begin), put);
      && Placed(chain, t) && IssuedSince(s0, s) != [] && s.issued != []
      && (ErrorCount(chain.suite, valid, Export(chain, t), |Export(chain, t)|) == 0 <==>
            HashReceipt(chain.suite, s.issued[|s.issued| - 1]) == HashReceipt(chain.suite, LastWritten(s0, s)))
  {
    RoundStarts(chain, s0);
    RunsInRound(chain, s0, s0, events);
    NextAppendIff(chain, valid, s0, Run(chain, s0, events), begin, put);
  }

  lemma NextAppendIff(chain: Chain, valid: Option<Receipt -> bool>, s0: State, s: State, begin: Event, put: Event)
    requires InRound(chain, s0, s) && Ended(s0, s) && Accepts(chain, valid)
    requires begin.Begin? && put.Put? && put.call == begin.call
    requires Possible(chain, s, begin) && Possible(chain, Next(chain, s, begin), put)
    ensures var t := Next(chain, Next(chain, s, begin), put);
      && Placed(chain, t) && IssuedSince(s0, s) != []
      && var published := s.issued[|s.issued| - 1];
         (ErrorCount(chain.suite, valid, Export(chain, t), |Export(chain, t)|) == 0 <==>
            HashReceipt(chain.suite, published) == HashReceipt(chain.suite, LastWritten(s0, s)))
  {
    RoundReady(chain, s0, s);
    AppendAfterIff(chain, valid, s, s.issued[|s.issued| - 1], begin, put);
  }

  /** Where a chain is stored and the head is some receipt's of the last number, whichever that is. */
  ghost predicate Ready(chain: Chain, s: State, published: Receipt) {
    && Placed(chain, s) && AllSigned(chain, s) && Linked(chain.suite, Export(chain, s)) && Export(chain, s) != []
    && s.head.Some? && s.head == HeadBy(chain, published)
    && s.head.value.number == chain.start + |Export(chain, s)| - 1
  }

  lemma AppendAfterIff(chain: Chain, valid: Option<Receipt -> bool>, s: State, published: Receipt, begin: Event,
      put: Event)
    requires Ready(chain, s, published) && Accepts(chain, valid)
    requires begin.Begin? && put.Put? && put.call == begin.call
    requires Possible(chain, s, begin) && Possible(chain, Next(chain, s, begin), put)
    ensures var t, receipts := Next(chain, Next(chain, s, begin), put), Export(chain, s);
      && Placed(chain, t)
      && (ErrorCount(chain.suite, valid, Export(chain, t), |Export(chain, t)|) == 0 <==>
            HashReceipt(chain.suite, published) == HashReceipt(chain.suite, receipts[|receipts| - 1]))
  {
    var receipts, r := Export(chain, s), MadeBy(chain, LinkNeeded(chain, s), put.id, put.content);
    NextAppendExports(chain, s, begin, put);
    ExportVerifiesIff(chain, valid, Next(chain, Next(chain, s, begin), put));
    ChainedNumbers(chain, s);
    ContinuesIff(chain.suite, receipts, published, r);
  }

  lemma RoundLast(chain: Chain, s0: State, s: State)
    requires InRound(chain, s0, s) && Ended(s0, s)
    ensures var receipts := Export(chain, s);
      && receipts != [] && receipts[|receipts| - 1] == LastWritten(s0, s)
      && receipts[|receipts| - 1].number == chain.start + |receipts| - 1
  {
    ChainedNumbers(chain, s);
  }

  lemma RoundReady(chain: Chain, s0: State, s: State)
    requires InRound(chain, s0, s) && Ended(s0, s)
    ensures IssuedSince(s0, s) != [] && s.issued != [] && Ready(chain, s, s.issued[|s.issued| - 1])
    ensures Export(chain, s)[|Export(chain, s)| - 1] == LastWritten(s0, s)
  {
    RoundChained(chain, s0, s);
    EndOfRound(chain, s0, s);
    RoundLast(chain, s0, s);
  }

  lemma NextAppendExports(chain: Chain, s: State, begin: Event, put: Event)
    requires Placed(chain, s) && AllSigned(chain, s) && Export(chain, s) != []
    requires s.head.Some? && s.head.value.number == chain.start + |Export(chain, s)| - 1
    requires begin.Begin? && put.Put? && put.call == begin.call
    requires Possible(chain, s, begin) && Possible(chain, Next(chain, s, begin), put)
    ensures var t := Next(chain, Next(chain, s, begin), put);
      && Placed(chain, t) && AllSigned(chain, t)
      && Export(chain, t) == Export(chain, s) + [MadeBy(chain, LinkNeeded(chain, s), put.id, put.content)]
  {
    var b := Next(chain, s, begin);
    OthersExport(chain, s, begin);
    PutExports(chain, b, put);
    PutSigned(chain, b, put);
  }
}
