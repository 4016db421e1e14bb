/**
 Receipts chained by hash, and the offline check of an exported list of them.

 Serialisation and SHA-256 are parameters: a serialisation may fail, and nothing is assumed about the hash.
 */
module Receipts {
  import opened Results

  datatype Receipt = Receipt(
    id: string,
    number: int,       // the source's seq, a signed 64-bit integer
    prev: string,
    executionID: string,
    content: string,   // every other field that is hashed and signed
    signature: string)

  datatype Suite = Suite(marshal: Receipt -> Option<string>, sum: string -> string)

  const MAX_NUMBER := 0x7FFF_FFFF_FFFF_FFFF
  const MIN_NUMBER := -0x8000_0000_0000_0000

  /** The next number, wrapping around as the source's integers do. */
  function Succ(n: int): (r: int)
    ensures r != n
    ensures MIN_NUMBER <= n <= MAX_NUMBER ==> MIN_NUMBER <= r <= MAX_NUMBER
  {
    if n == MAX_NUMBER then MIN_NUMBER else n + 1
  }

  function InitialPrev(suite: Suite, executionID: string): string {
    "sha256:" + suite.sum(executionID)
  }

  function HashReceipt(suite: Suite, r: Receipt): Option<string> {
    match suite.marshal(r)
    case None => None
    case Some(data) => Some("sha256:" + suite.sum(data))
  }

  // Verification.

  function NumberErrors(receipts: seq<Receipt>, i: nat): nat
    requires i < |receipts|
  {
    if i > 0 && receipts[i].number != Succ(receipts[i - 1].number) then 1 else 0
  }

  function PrevErrors(suite: Suite, receipts: seq<Receipt>, i: nat): nat
    requires i < |receipts|
  {
    if i > 0 && HashReceipt(suite, receipts[i - 1]) != Some(receipts[i].prev) then 1 else 0
  }

  function SignatureErrors(valid: Option<Receipt -> bool>, r: Receipt): nat {
    if valid.Some? && !valid.value(r) then 1 else 0
  }

  /** How many failures the first n receipts show. */
  function ErrorCount(suite: Suite, valid: Option<Receipt -> bool>, receipts: seq<Receipt>, n: nat): nat
    requires n <= |receipts|
  {
    if n == 0 then 0
    else
      ErrorCount(suite, valid, receipts, n - 1)
      + NumberErrors(receipts, n - 1) + PrevErrors(suite, receipts, n - 1) + SignatureErrors(valid, receipts[n - 1])
  }

  ghost predicate Follows(suite: Suite, before: Receipt, after: Receipt) {
    after.number == Succ(before.number) && HashReceipt(suite, before) == Some(after.prev)
  }

  ghost predicate Linked(suite: Suite, receipts: seq<Receipt>) {
    forall i | 0 < i < |receipts| :: Follows(suite, receipts[i - 1], receipts[i])
  }

  ghost predicate Signed(valid: Option<Receipt -> bool>, receipts: seq<Receipt>) {
    valid.Some? ==> forall i | 0 <= i < |receipts| :: valid.value(receipts[i])
  }

  ghost predicate Verified(suite: Suite, valid: Option<Receipt -> bool>, receipts: seq<Receipt>) {
    Linked(suite, receipts) && Signed(valid, receipts)
  }

  lemma {:induction false} NoErrorsIffVerified(suite: Suite, valid: Option<Receipt -> bool>, receipts: seq<Receipt>,
      n: nat)
    requires n <= |receipts|
    ensures ErrorCount(suite, valid, receipts, n) == 0 <==> Verified(suite, valid, receipts[..n])
  {
    if n > 0 {
      NoErrorsIffVerified(suite, valid, receipts, n - 1);
      var longer, shorter := receipts[..n], receipts[..n - 1];
      assert longer == shorter + [receipts[n - 1]];
      if Verified(suite, valid, longer) {
        forall i | 0 < i < n - 1 ensures Follows(suite, shorter[i - 1], shorter[i]) {
          assert Follows(suite, longer[i - 1], longer[i]);
        }
        if n > 1 { assert Follows(suite, longer[n - 2], longer[n - 1]); }
        if valid.Some? { assert valid.value(longer[n - 1]); }
      }
    }
  }

  /** The checking loop; a receipt may fail on its number, on its link and on its signature. */
  method VerifyReceipts(suite: Suite, valid: Option<Receipt -> bool>, receipts: seq<Receipt>) returns (errors: nat)
    ensures errors == ErrorCount(suite, valid, receipts, |receipts|)
    ensures errors == 0 <==> Verified(suite, valid, receipts)
  {
    errors := 0;
    for i := 0 to |receipts|
      invariant errors == ErrorCount(suite, valid, receipts, i)
    {
      var r := receipts[i];
      if i > 0 {
        var before := receipts[i - 1];
        if r.number != Succ(before.number) {
          errors := errors + 1;
        }
        var expected := HashReceipt(suite, before);
        if expected.None? {
          errors := errors + 1;
        } else if r.prev != expected.value {
          errors := errors + 1;
        }
      }
      if valid.Some? && !valid.value(r) {
        errors := errors + 1;
      }
    }
    NoErrorsIffVerified(suite, valid, receipts, |receipts|);
    assert receipts[..|receipts|] == receipts;
  }

  // Appending.

  datatype Head = Head(hash: string, number: int)

  type Heads = map<string, Head>

  datatype Link = Link(prev: string, number: int)

  /** What the next receipt of an execution has to carry. */
  function NextLink(suite: Suite, start: int, executionID: string, head: Option<Head>): Link {
    match head
    case None => Link(InitialPrev(suite, executionID), start)
    case Some(h) => Link(h.hash, Succ(h.number))
  }

  function HeadOf(heads: Heads, executionID: string): Option<Head> {
    if executionID in heads then Some(heads[executionID]) else None
  }

  function Made(id: string, link: Link, executionID: string, content: string, sign: Receipt -> string): Receipt {
    var r := Receipt(id, link.number, link.prev, executionID, content, "");
    r.(signature := sign(r))
  }

  /** One Append between two others: what it returns and what it leaves. */
  function Appended(suite: Suite, start: int, heads: Heads, id: string, executionID: string, content: string,
      sign: Receipt -> string): Receipt
  {
    Made(id, NextLink(suite, start, executionID, HeadOf(heads, executionID)), executionID, content, sign)
  }

  class ReceiptChain {
    const suite: Suite
    const start: int
    const sign: Receipt -> string
    var heads: Heads
    var stored: map<(string, int), Receipt>

    constructor (suite: Suite, start: int, sign: Receipt -> string)
      ensures this.suite == suite && this.start == start && this.sign == sign
      ensures heads == map[] && stored == map[]
    {
      this.suite, this.start, this.sign := suite, start, sign;
      heads, stored := map[], map[];
    }

    /** The first critical section: read the head. */
    method Capture(executionID: string) returns (link: Link)
      ensures link == NextLink(suite, start, executionID, HeadOf(heads, executionID))
    {
      if executionID !in heads {
        link := Link(InitialPrev(suite, executionID), start);
      } else {
        var entry := heads[executionID];
        link := Link(entry.hash, Succ(entry.number));
      }
    }

    /** The second: replace the head by the new receipt. */
    method Publish(executionID: string, hash: string, number: int)
      modifies this`heads
      ensures heads == old(heads)[executionID := Head(hash, number)]
    {
      heads := heads[executionID := Head(hash, number)];
    }

    /** Both, with nobody in between; a serialisation or store failure leaves the head where it was. */
    method Append(id: string, executionID: string, content: string, storeFails: bool) returns (r: Option<Receipt>)
      modifies this`heads, this`stored
      ensures var made := Appended(suite, start, old(heads), id, executionID, content, sign);
        if HashReceipt(suite, made).None? || storeFails then r.None? && heads == old(heads) && stored == old(stored)
        else
          && r == Some(made)
          && heads == old(heads)[executionID := Head(HashReceipt(suite, made).value, made.number)]
          && stored == old(stored)[(executionID, made.number) := made]
    {
      var link := Capture(executionID);
      var made := Receipt(id, link.number, link.prev, executionID, content, "");
      made := made.(signature := sign(made));
      var hash := HashReceipt(suite, made);
      if hash.None? || storeFails {
        return None;
      }
      stored := stored[(executionID, link.number) := made];
      Publish(executionID, hash.value, link.number);
      return Some(made);
    }

    /** The hash and number of the last receipt, or "" and -1. */
    method GetHead(executionID: string) returns (hash: string, number: int)
      ensures executionID in heads ==> Head(hash, number) == heads[executionID]
      ensures executionID !in heads ==> hash == "" && number == -1
    {
      if executionID !in heads {
        return "", -1;
      }
      var entry := heads[executionID];
      return entry.hash, entry.number;
    }
  }
}
