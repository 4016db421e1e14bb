/**
 The string that requests are signed over. Every character stands for one byte.

 All fields but the first are length-prefixed; a decoder shows what that determines.
 */
module CanonicalString {
  import opened Results

  const SPEC_VERSION := "AIP-1/v0.1"

  datatype CanonicalRequest = CanonicalRequest(
    spec: string,
    executionID: string,
    passportID: string,
    verb: string,
    audience: string,
    path: string,
    timestamp: string,
    nonce: string,
    payloadHash: string)

  function Digit(n: nat): char
    requires n < 10
  {
    '0' + n as char
  }

  function Decimal(n: nat): string {
    if n < 10 then [Digit(n)] else Decimal(n / 10) + [Digit(n % 10)]
  }

  /** LP(s): the length in decimal, a colon, the bytes. */
  function LP(s: string): string {
    Decimal(|s|) + ":" + s
  }

  function Join(fields: seq<string>): string {
    if |fields| == 0 then ""
    else if |fields| == 1 then fields[0]
    else fields[0] + "\n" + Join(fields[1..])
  }

  function LPs(fields: seq<string>): seq<string> {
    seq(|fields|, i requires 0 <= i < |fields| => LP(fields[i]))
  }

  /** The fields that are length-prefixed, in order. */
  function Prefixed(r: CanonicalRequest): seq<string> {
    [r.executionID, r.passportID, r.verb, r.audience, r.path, r.timestamp, r.nonce, r.payloadHash]
  }

  function Canonical(r: CanonicalRequest): string {
    Join([r.spec,
          LP(r.executionID), LP(r.passportID), LP(r.verb), LP(r.audience),
          LP(r.path), LP(r.timestamp), LP(r.nonce), LP(r.payloadHash)])
  }

  /** The form the specification gives, in section 2: the first field is prefixed too. */
  function Documented(r: CanonicalRequest): string {
    Join(LPs([r.spec] + Prefixed(r)))
  }

  // Decoding.

  /** The digits up to a colon, on top of those already read. */
  function ReadNumber(s: string, n: nat): Option<(nat, string)> {
    if s == "" then None
    else if s[0] == ':' then Some((n, s[1..]))
    else if '0' <= s[0] <= '9' then ReadNumber(s[1..], 10 * n + (s[0] - '0') as nat)
    else None
  }

  function ReadField(s: string): Option<(string, string)> {
    match ReadNumber(s, 0)
    case None => None
    case Some((n, rest)) => if n <= |rest| then Some((rest[..n], rest[n..])) else None
  }

  /** k fields with a newline between each two, and nothing after the last. */
  function ReadFields(s: string, k: nat): Option<seq<string>>
    decreases k
  {
    if k == 0 then if s == "" then Some([]) else None
    else match ReadField(s)
      case None => None
      case Some((field, rest)) =>
        if k == 1 then if rest == "" then Some([field]) else None
        else if rest == "" || rest[0] != '\n' then None
        else match ReadFields(rest[1..], k - 1)
          case None => None
          case Some(fields) => Some([field] + fields)
  }

  function UpToNewline(s: string): string {
    if s == "" || s[0] == '\n' then "" else [s[0]] + UpToNewline(s[1..])
  }

  function Decode(s: string): Option<CanonicalRequest> {
    var spec := UpToNewline(s);
    if |s| <= |spec| then None
    else match ReadFields(s[|spec| + 1..], 8)
      case None => None
      case Some(f) =>
        if |f| != 8 then None else Some(CanonicalRequest(spec, f[0], f[1], f[2], f[3], f[4], f[5], f[6], f[7]))
  }

  // Round trips.

  lemma {:induction false} ReadDecimal(n: nat, t: string)
    ensures ReadNumber(Decimal(n) + t, 0) == ReadNumber(t, n)
  {
    if n < 10 {
      assert (Decimal(n) + t)[1..] == t;
    } else {
      var rest := [Digit(n % 10)] + t;
      assert Decimal(n) + t == Decimal(n / 10) + rest;
      ReadDecimal(n / 10, rest);
      assert rest[1..] == t;
    }
  }

  lemma ReadLP(x: string, t: string)
    ensures ReadField(LP(x) + t) == Some((x, t))
  {
    var rest := ":" + (x + t);
    assert LP(x) + t == Decimal(|x|) + rest;
    ReadDecimal(|x|, rest);
    assert rest[1..] == x + t;
    assert (x + t)[..|x|] == x && (x + t)[|x|..] == t;
  }

  lemma {:induction false} FieldsRoundTrip(fields: seq<string>)
    ensures ReadFields(Join(LPs(fields)), |fields|) == Some(fields)
  {
    if |fields| == 1 {
      ReadLP(fields[0], "");
      assert LPs(fields) == [LP(fields[0])] && LP(fields[0]) + "" == LP(fields[0]);
      assert fields == [fields[0]];
    } else if |fields| > 1 {
      var rest := Join(LPs(fields[1..]));
      assert LPs(fields)[1..] == LPs(fields[1..]);
      assert Join(LPs(fields)) == LP(fields[0]) + ("\n" + rest);
      ReadLP(fields[0], "\n" + rest);
      assert ("\n" + rest)[1..] == rest;
      FieldsRoundTrip(fields[1..]);
      assert [fields[0]] + fields[1..] == fields;
    }
  }

  /** The list that is joined, as its head and the prefixed rest. */
  lemma CanonicalParts(r: CanonicalRequest)
    ensures Canonical(r) == r.spec + "\n" + Join(LPs(Prefixed(r)))
  {
    var parts := [r.spec, LP(r.executionID), LP(r.passportID), LP(r.verb), LP(r.audience),
                  LP(r.path), LP(r.timestamp), LP(r.nonce), LP(r.payloadHash)];
    assert parts[1..] == LPs(Prefixed(r));
  }

  lemma {:induction false} UpToFirstNewline(spec: string, t: string)
    ensures UpToNewline(spec + "\n" + t) == spec <==> '\n' !in spec
    ensures '\n' !in UpToNewline(spec)
  {
    var s := spec + "\n" + t;
    if spec != "" {
      assert s[1..] == spec[1..] + "\n" + t;
      UpToFirstNewline(spec[1..], t);
      if spec[0] != '\n' {
        assert spec == [spec[0]] + spec[1..];
        assert UpToNewline(s) == [spec[0]] + UpToNewline(s[1..]);
        assert UpToNewline(s)[1..] == UpToNewline(s[1..]);
      }
    }
  }

  /** Decoding undoes Canonical, for arbitrary bytes in every other field, exactly when Spec has no newline. */
  lemma RoundTripIff(r: CanonicalRequest)
    ensures Decode(Canonical(r)) == Some(r) <==> '\n' !in r.spec
  {
    CanonicalParts(r);
    var body := Join(LPs(Prefixed(r)));
    UpToFirstNewline(r.spec, body);
    if '\n' !in r.spec {
      assert Canonical(r)[|r.spec| + 1..] == body;
      FieldsRoundTrip(Prefixed(r));
    }
  }

  lemma SameFields(a: CanonicalRequest, b: CanonicalRequest)
    requires Join(LPs(Prefixed(a))) == Join(LPs(Prefixed(b)))
    ensures Prefixed(a) == Prefixed(b)
  {
    FieldsRoundTrip(Prefixed(a));
    FieldsRoundTrip(Prefixed(b));
  }

  /** Two requests with one canonical string are equal exactly when their Specs have the same length. */
  lemma EqualIff(a: CanonicalRequest, b: CanonicalRequest)
    requires Canonical(a) == Canonical(b)
    ensures a == b <==> |a.spec| == |b.spec|
  {
    CanonicalParts(a);
    CanonicalParts(b);
    if |a.spec| == |b.spec| {
      var s := Canonical(a);
      assert s[..|a.spec|] == a.spec && s[..|b.spec|] == b.spec;
      assert s[|a.spec| + 1..] == Join(LPs(Prefixed(a))) && s[|b.spec| + 1..] == Join(LPs(Prefixed(b)));
      SameFields(a, b);
      assert Prefixed(a)[0] == Prefixed(b)[0] && Prefixed(a)[1] == Prefixed(b)[1] && Prefixed(a)[2] == Prefixed(b)[2]
          && Prefixed(a)[3] == Prefixed(b)[3] && Prefixed(a)[4] == Prefixed(b)[4] && Prefixed(a)[5] == Prefixed(b)[5]
          && Prefixed(a)[6] == Prefixed(b)[6] && Prefixed(a)[7] == Prefixed(b)[7];
    }
  }

  function Blank(spec: string, payloadHash: string): CanonicalRequest {
    CanonicalRequest(spec, "", "", "", "", "", "", "", payloadHash)
  }

  /** n empty fields, each on a line of its own. */
  function EmptyLines(n: nat): (s: string)
    ensures |s| == 3 * n
  {
    if n == 0 then "" else EmptyLines(n - 1) + "\n0:"
  }

  lemma {:induction false} EmptyLinesBefore(n: nat)
    ensures EmptyLines(n + 1) == "\n0:" + EmptyLines(n)
  {
    if n > 0 {
      EmptyLinesBefore(n - 1);
    }
  }

  lemma {:induction false} BlankBody(n: nat, last: string)
    ensures "\n" + Join(LPs(seq(n, _ => "") + [last])) == EmptyLines(n) + "\n" + LP(last)
  {
    var fields := seq(n, _ => "") + [last];
    if n == 0 {
      assert LPs(fields) == [LP(last)];
    } else {
      assert LPs(fields)[1..] == LPs(seq(n - 1, _ => "") + [last]);
      BlankBody(n - 1, last);
      EmptyLinesBefore(n - 1);
      assert Decimal(0) == "0";
      assert LPs(fields)[0] == LP("") == "0:";
      var rest := Join(LPs(fields)[1..]);
      assert Join(LPs(fields)) == "0:" + "\n" + rest;
      assert "\n" + Join(LPs(fields)) == "\n0:" + ("\n" + rest);
      assert "\n0:" + (EmptyLines(n - 1) + "\n" + LP(last)) == EmptyLines(n) + "\n" + LP(last);
    }
  }

  lemma BlankCanonical(spec: string, n: nat, payloadHash: string)
    requires n == 7
    ensures Canonical(Blank(spec, payloadHash)) == spec + EmptyLines(n) + "\n" + LP(payloadHash)
  {
    var blank := Blank(spec, payloadHash);
    CanonicalParts(blank);
    BlankBody(n, payloadHash);
    assert Prefixed(blank) == seq(n, _ => "") + [payloadHash];
    assert Canonical(blank) == spec + ("\n" + Join(LPs(Prefixed(blank))));
  }

  /** Without a prefix on Spec two requests can share a canonical string, whatever Spec one of them starts from. */
  lemma SharedCanonical(spec: string) returns (a: CanonicalRequest, b: CanonicalRequest)
    ensures a.spec == spec && a != b && Canonical(a) == Canonical(b)
  {
    var n: nat := 7;
    var e := EmptyLines(n);
    SharedBlanks(spec, n, e);
    a, b := Blank(spec, e + "\n0:"), Blank(spec + e + "\n24:", "");
    assert |a.spec| < |b.spec|;
  }

  lemma SharedBlanks(spec: string, n: nat, e: string)
    requires n == 7 && e == EmptyLines(n)
    ensures Canonical(Blank(spec, e + "\n0:")) == Canonical(Blank(spec + e + "\n24:", ""))
  {
    var hash := e + "\n0:";
    BlankCanonical(spec, n, hash);
    BlankCanonical(spec + e + "\n24:", n, "");
    TwentyFour();
    assert LP(hash) == "24:" + hash;
    Rebracket(spec, e);
  }

  lemma TwentyFour()
    ensures Decimal(24) == "24" && LP("") == "0:"
  {
    assert Decimal(2) == "2" && Decimal(0) == "0";
  }

  lemma Rebracket(spec: string, e: string)
    ensures spec + e + "\n" + ("24:" + (e + "\n0:")) == (spec + e + "\n24:") + e + "\n" + "0:"
  {
    var left, right := spec + e + "\n" + ("24:" + (e + "\n0:")), (spec + e + "\n24:") + e + "\n" + "0:";
    var k := |spec| + |e|;
    assert left[..k] == spec + e == right[..k];
    assert left[k..] == "\n24:" + e + "\n0:" == right[k..];
    assert left == left[..k] + left[k..] && right == right[..k] + right[k..];
  }

  /** The documented form determines every field, Spec included. */
  lemma DocumentedInjective(a: CanonicalRequest, b: CanonicalRequest)
    requires Documented(a) == Documented(b)
    ensures a == b
  {
    FieldsRoundTrip([a.spec] + Prefixed(a));
    FieldsRoundTrip([b.spec] + Prefixed(b));
    var x, y := [a.spec] + Prefixed(a), [b.spec] + Prefixed(b);
    assert x[0] == y[0] && x[1] == y[1] && x[2] == y[2] && x[3] == y[3] && x[4] == y[4]
        && x[5] == y[5] && x[6] == y[6] && x[7] == y[7] && x[8] == y[8];
  }

  // The text itself.

  predicate Digits(s: string) {
    forall i | 0 <= i < |s| :: '0' <= s[i] <= '9'
  }

  /** The number that a string of digits stands for. */
  function NumberOf(digits: string): nat
    requires Digits(digits)
  {
    if digits == "" then 0
    else 10 * NumberOf(digits[..|digits| - 1]) + (digits[|digits| - 1] - '0') as nat
  }

  /** A length is written in decimal digits and without leading zeros. */
  lemma {:induction false} DecimalIs(n: nat)
    ensures Digits(Decimal(n)) && NumberOf(Decimal(n)) == n
    ensures Decimal(n) != "" && (Decimal(n)[0] == '0' ==> Decimal(n) == "0")
  {
    var d := Decimal(n);
    if n < 10 {
      assert d[..|d| - 1] == "";
    } else {
      DecimalIs(n / 10);
      assert d[..|d| - 1] == Decimal(n / 10);
      assert NumberOf("0") == 0 by { assert "0"[..0] == ""; }
    }
  }

  /** Nine lines, the first as it is and every other one with its length and a colon in front, none at the end. */
  lemma CanonicalText(r: CanonicalRequest)
    ensures var hash := Decimal(|r.payloadHash|) + ":" + r.payloadHash;
      var nonce := Decimal(|r.nonce|) + ":" + r.nonce + "\n" + hash;
      var timestamp := Decimal(|r.timestamp|) + ":" + r.timestamp + "\n" + nonce;
      var path := Decimal(|r.path|) + ":" + r.path + "\n" + timestamp;
      var audience := Decimal(|r.audience|) + ":" + r.audience + "\n" + path;
      var verb := Decimal(|r.verb|) + ":" + r.verb + "\n" + audience;
      var passport := Decimal(|r.passportID|) + ":" + r.passportID + "\n" + verb;
      var execution := Decimal(|r.executionID|) + ":" + r.executionID + "\n" + passport;
      Canonical(r) == r.spec + "\n" + execution
  {
    var f := LPs(Prefixed(r));
    CanonicalParts(r);
    JoinTwo(f, 6);
    JoinOn(f, 5);
    JoinOn(f, 4);
    JoinOn(f, 3);
    JoinOn(f, 2);
    JoinOn(f, 1);
    JoinOn(f, 0);
    assert f[0..] == f;
  }

  lemma JoinTwo(f: seq<string>, i: nat)
    requires i + 2 == |f|
    ensures Join(f[i..]) == f[i] + "\n" + f[i + 1]
  {
    assert f[i..][1..] == [f[i + 1]];
  }

  lemma JoinOn(f: seq<string>, i: nat)
    requires i + 2 < |f|
    ensures Join(f[i..]) == f[i] + "\n" + Join(f[i + 1..])
  {
    assert f[i..][1..] == f[i + 1..];
  }
}
