/** What an appended receipt holds, and what the offline check counts. */
module ReceiptAnswers {
  import opened Results
  import opened Receipts

  /** The first receipt of an execution links to the hash of the execution's identifier and has the first number. */
  lemma FirstLink(suite: Suite, start: int, executionID: string)
    ensures NextLink(suite, start, executionID, None) == Link("sha256:" + suite.sum(executionID), start)
  {
  }

  /**
   Two Appends of an execution, one after the other: the second receipt links to the hash of the first as serialised,
   signature included, and has the number after it.
   */
  lemma SecondLink(suite: Suite, start: int, heads: Heads, executionID: string, first: Receipt, content: string,
      id: string, sign: Receipt -> string)
    requires suite.marshal(first).Some? && first.number < 0x7FFF_FFFF_FFFF_FFFF
    requires HeadOf(heads, executionID) == Some(Head("sha256:" + suite.sum(suite.marshal(first).value), first.number))
    ensures var made := Appended(suite, start, heads, id, executionID, content, sign);
      && HashReceipt(suite, first) == Some(made.prev)
      && made.prev == "sha256:" + suite.sum(suite.marshal(first).value) && made.number == first.number + 1
  {
  }

  /** An appended receipt carries what was recorded, and a signature over all of it but the signature. */
  lemma AppendedHolds(suite: Suite, start: int, heads: Heads, id: string, executionID: string, content: string,
      sign: Receipt -> string)
    ensures var made := Appended(suite, start, heads, id, executionID, content, sign);
      && made.id == id && made.executionID == executionID && made.content == content
      && made.signature == sign(Receipt(id, made.number, made.prev, executionID, content, ""))
      && if executionID in heads then made.prev == heads[executionID].hash
         else made.prev == "sha256:" + suite.sum(executionID) && made.number == start
  {
    var made := Appended(suite, start, heads, id, executionID, content, sign);
    assert made.(signature := "") == Receipt(id, made.number, made.prev, executionID, content, "");
  }

  // Errors.

  /** The number after a receipt's, the largest being followed by the least. */
  function NumberAfter(n: int): int {
    if n == 0x7FFF_FFFF_FFFF_FFFF then -0x8000_0000_0000_0000 else n + 1
  }

  predicate NumberedAfter(receipts: seq<Receipt>, i: nat)
    requires 0 < i < |receipts|
  {
    receipts[i].number == NumberAfter(receipts[i - 1].number)
  }

  /** The receipt before serialises, and this one carries the hash of that. */
  predicate LinkedBack(suite: Suite, receipts: seq<Receipt>, i: nat)
    requires 0 < i < |receipts|
  {
    var data := suite.marshal(receipts[i - 1]);
    data.Some? && receipts[i].prev == "sha256:" + suite.sum(data.value)
  }

  ghost function BadNumbers(receipts: seq<Receipt>, n: nat): set<nat>
    requires n <= |receipts|
  {
    set i: nat | 0 < i < n && !NumberedAfter(receipts, i)
  }

  ghost function BadLinks(suite: Suite, receipts: seq<Receipt>, n: nat): set<nat>
    requires n <= |receipts|
  {
    set i: nat | 0 < i < n && !LinkedBack(suite, receipts, i)
  }

  ghost function BadSignatures(valid: Receipt -> bool, receipts: seq<Receipt>, n: nat): set<nat>
    requires n <= |receipts|
  {
    set i: nat | i < n && !valid(receipts[i])
  }

  /** The check counts every wrong number, every wrong link and, with a key, every wrong signature once. */
  lemma {:induction false} ErrorsCounted(suite: Suite, valid: Option<Receipt -> bool>, receipts: seq<Receipt>, n: nat)
    requires n <= |receipts|
    ensures ErrorCount(suite, valid, receipts, n)
         == |BadNumbers(receipts, n)| + |BadLinks(suite, receipts, n)|
            + if valid.Some? then |BadSignatures(valid.value, receipts, n)| else 0
  {
    if n > 0 {
      ErrorsCounted(suite, valid, receipts, n - 1);
      NumbersCounted(receipts, n);
      LinksCounted(suite, receipts, n);
      if valid.Some? { SignaturesCounted(valid.value, receipts, n); }
    }
  }

  lemma NumbersCounted(receipts: seq<Receipt>, n: nat)
    requires 0 < n <= |receipts|
    ensures |BadNumbers(receipts, n)| == |BadNumbers(receipts, n - 1)| + NumberErrors(receipts, n - 1)
  {
    var last: set<nat> := if n > 1 && !NumberedAfter(receipts, n - 1) then {n - 1} else {};
    assert BadNumbers(receipts, n) == BadNumbers(receipts, n - 1) + last;
  }

  lemma LinksCounted(suite: Suite, receipts: seq<Receipt>, n: nat)
    requires 0 < n <= |receipts|
    ensures |BadLinks(suite, receipts, n)| == |BadLinks(suite, receipts, n - 1)| + PrevErrors(suite, receipts, n - 1)
  {
    var last: set<nat> := if n > 1 && !LinkedBack(suite, receipts, n - 1) then {n - 1} else {};
    assert BadLinks(suite, receipts, n) == BadLinks(suite, receipts, n - 1) + last;
  }

  lemma SignaturesCounted(valid: Receipt -> bool, receipts: seq<Receipt>, n: nat)
    requires 0 < n <= |receipts|
    ensures |BadSignatures(valid, receipts, n)|
         == |BadSignatures(valid, receipts, n - 1)| + SignatureErrors(Some(valid), receipts[n - 1])
  {
    var last: set<nat> := if !valid(receipts[n - 1]) then {n - 1} else {};
    assert BadSignatures(valid, receipts, n) == BadSignatures(valid, receipts, n - 1) + last;
  }
}
