/** The signer's canonical string and the firewall's reconstruction of it. */
module Signing {
  import opened Results
  import opened Text
  import opened CanonicalString
  import opened CanonicalPath
  import opened PathReadings

  /** SHA-256 in hex, a parameter. */
  type Sum = string -> string

  datatype Config = Config(executionID: string, passportID: string, audience: string)

  /** What the firewall holds of a request that has passed the header and passport stages. */
  datatype Received = Received(
    spec: string,
    executionID: string,
    passportID: string,
    verb: string,
    integration: string,
    path: string,
    query: Query,
    timestamp: string,
    nonce: string,
    body: Option<string>)

  function PayloadHash(sum: Sum, body: Option<string>): string {
    match body
    case None => sum("")
    case Some(bytes) => sum(bytes)
  }

  function UpperChar(c: char): char {
    if 'a' <= c <= 'z' then c - 'a' + 'A' else c
  }

  /** Request methods are ASCII. */
  function Upper(s: string): string {
    seq(|s|, i requires 0 <= i < |s| => UpperChar(s[i]))
  }

  /** The client's own construction of the string, from the parts it signs. */
  function BuildCanonical(sum: Sum, spec: string, executionID: string, passportID: string, verb: string,
      audience: string, path: string, timestamp: string, nonce: string, body: Option<string>): string
  {
    Join([spec, LP(executionID), LP(passportID), LP(verb), LP(audience), LP(path), LP(timestamp), LP(nonce),
          LP(PayloadHash(sum, body))])
  }

  /** What the client signs. */
  function Signed(sum: Sum, c: Config, verb: string, path: string, timestamp: string, nonce: string,
      body: Option<string>)
    : string
  {
    BuildCanonical(sum, SPEC_VERSION, c.executionID, c.passportID, verb, c.audience, path, timestamp, nonce, body)
  }

  /** What the signature stage checks the signature against; path is the canonical path it computed. */
  function Reconstructed(sum: Sum, r: Received, path: string): CanonicalRequest {
    CanonicalRequest(r.spec, r.executionID, r.passportID, Upper(r.verb), r.integration, path, r.timestamp, r.nonce,
                     PayloadHash(sum, r.body))
  }

  /** Of a method only the letters from a to z change, each to the one 32 places before it. */
  lemma UpperIs(s: string, i: nat)
    requires i < |s|
    ensures |Upper(s)| == |s|
    ensures Upper(s)[i] as int == s[i] as int - if 97 <= s[i] as int <= 122 then 32 else 0
  {
  }

  /** What the client signs begins with the version's line; a missing body is hashed as an empty one. */
  lemma SignedBegins(sum: Sum, c: Config, verb: string, path: string, timestamp: string, nonce: string,
      body: Option<string>)
    ensures "AIP-1/v0.1\n" <= Signed(sum, c, verb, path, timestamp, nonce, body)
    ensures Signed(sum, c, verb, path, timestamp, nonce, None) == Signed(sum, c, verb, path, timestamp, nonce, Some(""))
  {
    var r := CanonicalRequest(SPEC_VERSION, c.executionID, c.passportID, verb, c.audience, path, timestamp, nonce,
                              PayloadHash(sum, body));
    assert Signed(sum, c, verb, path, timestamp, nonce, body) == Canonical(r);
    CanonicalParts(r);
  }

  /**
   The firewall checks a signature against the very bytes the client signed exactly when the two agree on every part:
   the signer's method is in upper case, its path is the canonical one, and the bodies hash alike.
   */
  lemma SameBytesIff(sum: Sum, c: Config, verb: string, path: string, timestamp: string, nonce: string,
      body: Option<string>, r: Received, canonicalPath: string)
    requires r.spec == SPEC_VERSION && IsCanonical(r.path, r.query, canonicalPath)
    ensures Signed(sum, c, verb, path, timestamp, nonce, body) == Canonical(Reconstructed(sum, r, canonicalPath))
      <==>
      && c.executionID == r.executionID && c.passportID == r.passportID && verb == Upper(r.verb)
      && c.audience == r.integration && path == canonicalPath && timestamp == r.timestamp && nonce == r.nonce
      && PayloadHash(sum, body) == PayloadHash(sum, r.body)
  {
    var a := CanonicalRequest(SPEC_VERSION, c.executionID, c.passportID, verb, c.audience, path, timestamp, nonce,
                              PayloadHash(sum, body));
    var b := Reconstructed(sum, r, canonicalPath);
    assert Signed(sum, c, verb, path, timestamp, nonce, body) == Canonical(a);
    if Canonical(a) == Canonical(b) {
      EqualIff(a, b);
    }
  }

  /**
   One signature serves two received requests exactly when they agree on every part: letter case of the method and
   everything that leaves the canonical path alone do not matter, and their bodies may be a collision.
   */
  lemma OneSignatureIff(sum: Sum, q: Received, r: Received, qPath: string, rPath: string)
    requires q.spec == r.spec == SPEC_VERSION
    requires IsCanonical(q.path, q.query, qPath) && IsCanonical(r.path, r.query, rPath)
    ensures Canonical(Reconstructed(sum, q, qPath)) == Canonical(Reconstructed(sum, r, rPath))
      <==> SameApartFromPath(sum, q, r) && qPath == rPath
  {
    var a, b := Reconstructed(sum, q, qPath), Reconstructed(sum, r, rPath);
    if Canonical(a) == Canonical(b) {
      EqualIff(a, b);
    }
  }

  ghost predicate SameApartFromPath(sum: Sum, q: Received, r: Received) {
    && q.executionID == r.executionID && q.passportID == r.passportID && Upper(q.verb) == Upper(r.verb)
    && q.integration == r.integration && q.timestamp == r.timestamp && q.nonce == r.nonce
    && PayloadHash(sum, q.body) == PayloadHash(sum, r.body)
  }

  /** Nothing in the path or the query could be read as a separator. */
  ghost predicate NoSeparators(r: Received) {
    '?' !in r.path && AllPlain(r.query)
  }

  /** Between requests without separators, what leaves the canonical path alone is the order of the parameters. */
  lemma OneSignatureOneRequest(sum: Sum, q: Received, r: Received, qPath: string, rPath: string)
    requires q.spec == r.spec == SPEC_VERSION
    requires IsCanonical(q.path, q.query, qPath) && IsCanonical(r.path, r.query, rPath)
    requires NoEmptyLists(q.query) && NoEmptyLists(r.query) && NoSeparators(q) && NoSeparators(r)
    ensures Canonical(Reconstructed(sum, q, qPath)) == Canonical(Reconstructed(sum, r, rPath))
      <==> SameApartFromPath(sum, q, r) && q.path == r.path && SamePairs(q.query, r.query)
  {
    OneSignatureIff(sum, q, r, qPath, rPath);
    WholeDeterminesIff(q.path, r.path, q.query, r.query, qPath, rPath);
  }

  /** One signature serves both: they have a canonical path in common and are the same apart from it. */
  ghost predicate Share(sum: Sum, q: Received, r: Received, path: string) {
    && IsCanonical(q.path, q.query, path) && IsCanonical(r.path, r.query, path)
    && Canonical(Reconstructed(sum, q, path)) == Canonical(Reconstructed(sum, r, path))
  }

  /** It serves another request too, with a different path or other parameters. */
  ghost predicate SharesWith(sum: Sum, r: Received, o: Received, path: string) {
    && Share(sum, r, o, path) && NoEmptyLists(o.query)
    && (o.path != r.path || !SamePairs(r.query, o.query))
  }

  /** A signature serves another request exactly when there is a query, or a path that could be read as one. */
  lemma SharesWithAnotherIff(sum: Sum, r: Received, path: string)
    requires IsCanonical(r.path, r.query, path) && NoEmptyLists(r.query)
    ensures (exists o :: SharesWith(sum, r, o, path)) <==> r.query != map[] || HoldsQuery(r.path)
  {
    AnotherIff(r.path, r.query, path);
    if p, w :| Another(r.path, r.query, p, w, path) {
      assert SharesWith(sum, r, r.(path := p, query := w), path);
    }
    if o :| SharesWith(sum, r, o, path) {
      assert Another(r.path, r.query, o.path, o.query, path);
    }
  }

  /** Were question marks in paths refused, it would do so exactly when the query text holds two equals signs. */
  lemma SharesWithPlainIff(sum: Sum, r: Received, path: string)
    requires IsCanonical(r.path, r.query, path) && NoEmptyLists(r.query) && '?' !in r.path
    ensures (exists o: Received :: '?' !in o.path && SharesWith(sum, r, o, path)) <==> TwoEquals(r.path, path)
  {
    AnotherPlainIff(r.path, r.query, path);
    if p, w :| '?' !in p && Another(r.path, r.query, p, w, path) {
      assert SharesWith(sum, r, r.(path := p, query := w), path);
    }
    if o: Received :| '?' !in o.path && SharesWith(sum, r, o, path) {
      assert Another(r.path, r.query, o.path, o.query, path);
    }
  }

  /** With separators one signature serves different requests: a parameter in the path or in the query. */
  lemma ParameterInPath(sum: Sum, r: Received, k: string, v: string) returns (path: string)
    ensures Share(sum, r.(path := r.path + "?" + (k + "=" + v), query := map[]), r.(query := map[k := [v]]), path)
  {
    path := QuestionMarkClash(r.path, k, v);
  }

  /** Or two parameters and one that holds both. */
  lemma ParameterInValue(sum: Sum, r: Received, k: string, v: string, l: string, w: string) returns (path: string)
    requires Less(k, l)
    ensures Share(sum, r.(query := map[k := [v + "&" + l + "=" + w]]), r.(query := map[k := [v], l := [w]]), path)
    ensures !SamePairs(map[k := [v + "&" + l + "=" + w]], map[k := [v], l := [w]])
  {
    var q, t;
    q, t, path := SeparatorsClash(r.path, k, v, l, w);
  }
}
