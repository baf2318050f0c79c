/** The signed challenge-response exchange: verifying a request, signing a response
    over returned evidence, and verifying the response bundle. */
module ResponseExchange {
  import opened Prelude
  import opened HashChain
  import opened TextLines
  import opened PayloadManifest

  /** The names inside a response bundle. */
  datatype Layout = Layout(
    request: string, evidence: string, operatorKey: string, requestJson: string, requestSignature: string,
    report: string, sums: string)

  const LAYOUT: Layout := Layout(
    "request", "evidence", "operator-public-key.json", "request.json", "request.ed25519",
    "external-validation-report.json", "SHA256SUMS.txt")

  /** A name without separators that a manifest line can carry. */
  ghost predicate Plain(n: string) {
    n != "" && '/' !in n && '\\' !in n && n != "." && n != ".." && Printable(n)
  }

  ghost predicate LawfulLayout(l: Layout) {
    && Plain(l.request) && Plain(l.evidence) && l.request != l.evidence
    && Plain(l.operatorKey)
    && Plain(l.requestJson) && Plain(l.requestSignature) && l.requestJson != l.requestSignature
    && Plain(l.sums)
  }

  lemma DirectoryNamesPlain()
    ensures Plain("request") && Plain("evidence") && "request" != "evidence"
  {
    assert "request"[0] != "evidence"[0];
  }

  lemma RequestNamesPlain()
    ensures Plain("request.json") && Plain("request.ed25519") && "request.json" != "request.ed25519"
  {
    assert |"request.json"| != |"request.ed25519"|;
  }

  lemma OperatorKeyNamePrintable()
    ensures Printable("operator-public-key.json")
  {
  }

  lemma OperatorKeyNamePlain()
    ensures Plain("operator-public-key.json")
  {
    OperatorKeyNamePrintable();
  }

  lemma SumsNamePlain()
    ensures Plain("SHA256SUMS.txt")
  {
  }

  lemma ActualLayoutIsLawful()
    ensures LawfulLayout(LAYOUT)
  {
    DirectoryNamesPlain();
    RequestNamesPlain();
    OperatorKeyNamePlain();
    SumsNamePlain();
  }

  datatype TopEntry =
    | RequestDirectory | EvidenceDirectory | OperatorKeyFile | PayloadManifestFile
    | StatementFile | SignatureFile | StrayTopEntry(name: string)

  const EXPECTED_TOP: set<TopEntry> := {
    RequestDirectory, EvidenceDirectory, OperatorKeyFile, PayloadManifestFile, StatementFile, SignatureFile
  }

  /** Times are microseconds. */
  const SECOND: int := 1_000_000
  const CLOCK_SKEW: int := 5 * 60 * SECOND
  const MIN_LIFETIME: int := 5 * 60 * SECOND
  const MAX_LIFETIME: int := 7 * 24 * 60 * 60 * SECOND

  /** A key file: the private file holds the same pair and may also sign. */
  datatype Key = Key(id: Token, material: Token)

  datatype Party = Party(ed25519: bool, keyId: Token, fingerprint: Token)

  datatype SourceIdentity = SourceIdentity(version: string, schemaVersion: nat, manifest: Token)

  /** A source tree as the attestation sees it: None where the check raises. */
  datatype SourceTree = SourceTree(identity: Option<SourceIdentity>, attested: Option<Token>)

  datatype Request = Request(
    formatKnown: bool, requester: Party, operator: Party, id: Token, nonce: string, target: string,
    created: string, expires: string, source: SourceIdentity, checksKnown: bool,
    minimumFiles: int, soakIterations: int, details: string)

  /** Ideal Ed25519. */
  datatype RequestSignature = SignedRequest(key: Token, request: Request) | UnsignedRequest

  datatype Binding = Binding(
    requestId: Token, nonce: Token, target: string, request: Token, signature: Token,
    created: string, expires: string, source: SourceIdentity, operator: Party)

  datatype Window = Window(started: string, completed: string)

  datatype Aggregate = Aggregate(
    binding: Option<Binding>, window: Option<Window>, passed: bool, complete: bool, counts: string, details: string)

  /** A file's bytes, split by what the reader makes of them. */
  datatype File =
    | RequestFile(layout: nat, request: Request)
    | RequestSignatureFile(layout: nat, signature: RequestSignature)
    | KeyFile(layout: nat, key: Key)
    | ReportFile(layout: nat, aggregate: Aggregate)
    | ManifestFile(text: string)
    | OtherFile(bytes: string)

  datatype Mode = ExecuteRequest | DetachedSigning | UnknownMode

  datatype Attestation = Attestation(formatKnown: bool, mode: Mode, before: Token, after: Token)

  datatype Statement = Statement(
    formatKnown: bool, created: string, requestId: Token, nonce: string, target: string,
    request: Token, requestSignature: Token, requestSource: SourceIdentity, responseSource: SourceIdentity,
    authorized: Party, manifest: Token, report: Token, evidenceManifest: Token, binding: Token, window: Window,
    passed: bool, complete: bool, counts: string, attestation: Attestation, operator: Party, runner: string)

  datatype ResponseSignature = SignedResponse(key: Token, statement: Statement) | UnsignedResponse

  datatype Bundle = Bundle(
    hasLinks: bool, top: set<TopEntry>, request: map<string, File>, evidence: map<string, File>,
    operatorKey: Option<File>, manifest: File, statement: Option<Statement>, signature: ResponseSignature)

  datatype Report = Report(formatKnown: bool, passed: bool, identity: Option<Token>)

  /** What the exchange takes from elsewhere: digests, fingerprints, the time
      format, and the checks of the evidence verifier on the reports it reads. */
  datatype Tools = Tools(
    names: Layout, digest: File -> Token, nonceDigest: string -> Token, bindingDigest: Binding -> Token,
    fingerprint: Token -> Token, stamp: int -> string, time: string -> Option<int>,
    evidenceChecks: map<string, File> -> bool)

  ghost predicate Lawful(t: Tools) {
    && LawfulLayout(t.names) && ProducesSha256(t.digest)
    && (forall i :: t.time(t.stamp(i)) == Some(i))
    && (forall m :: IsFingerprint(t.fingerprint(m).text))
  }

  predicate IsAlphanumeric(c: char) {
    'a' <= c <= 'z' || 'A' <= c <= 'Z' || '0' <= c <= '9'
  }

  /** `[A-Za-z0-9][A-Za-z0-9<more>]{0,limit-1}` */
  predicate IsName(text: string, more: string, limit: nat) {
    && 1 <= |text| <= limit && IsAlphanumeric(text[0])
    && forall i :: 1 <= i < |text| ==> IsAlphanumeric(text[i]) || text[i] in more
  }

  predicate IsTarget(text: string) {
    IsName(text, "._-", 64)
  }

  predicate IsKeyId(text: string) {
    IsName(text, "._-", 64)
  }

  /** `sha256:[0-9a-f]{64}` */
  predicate IsFingerprint(text: string) {
    |text| == 71 && text[..7] == "sha256:" && IsHex(text[7..], 64)
  }

  predicate IsRunner(text: string) {
    IsName(text, " ._@/-", 128)
  }

  predicate Names(t: Tools, party: Party, key: Key) {
    party.ed25519 && party.keyId == key.id && party.fingerprint == t.fingerprint(key.material)
  }

  /** The lifetime limits, and the moment of use inside the request's window. */
  predicate InWindow(t: Tools, request: Request, moment: int) {
    && t.time(request.created).Some? && t.time(request.expires).Some?
    && var created, expires := t.time(request.created).value, t.time(request.expires).value;
    && MIN_LIFETIME <= expires - created <= MAX_LIFETIME
    && created - CLOCK_SKEW <= moment <= expires
  }

  /** The source tree, if one is given, attests and is the one the request names. */
  predicate SourceMatches(request: Request, source: Option<SourceTree>) {
    source.Some? ==> source.value.attested.Some? && source.value.identity == Some(request.source)
  }

  /** verify_request_bundle, with the moment that is compared to the expiry. */
  predicate RequestPasses(
    t: Tools, files: map<string, File>, requester: Key, source: Option<SourceTree>, moment: int)
  {
    && files.Keys == {t.names.requestJson, t.names.requestSignature}
    && files[t.names.requestJson].RequestFile? && files[t.names.requestSignature].RequestSignatureFile?
    && var request := files[t.names.requestJson].request;
    && request.formatKnown
    && Names(t, request.requester, requester)
    && request.operator.ed25519
    && IsKeyId(request.operator.keyId.text) && IsFingerprint(request.operator.fingerprint.text)
    && files[t.names.requestSignature].signature == SignedRequest(requester.material, request)
    && IsHex(request.id.text, 32) && 32 <= |request.nonce| <= 256 && IsTarget(request.target)
    && InWindow(t, request, moment)
    && request.checksKnown && request.minimumFiles >= 1 && request.soakIterations >= 2
    && SourceMatches(request, source)
  }

  /** What a requester chooses. */
  datatype Challenge = Challenge(
    id: Token, nonce: string, target: string, created: int, lifetimeSeconds: int, source: SourceIdentity,
    minimumFiles: int, soakIterations: int)

  /** create_request_bundle; the id is 32 random hexadecimal digits, and the key files
      hold well-formed key ids. */
  function CreateRequest(t: Tools, c: Challenge, requester: Key, operator: Key): Option<map<string, File>>
    requires IsHex(c.id.text, 32) && IsKeyId(operator.id.text)
  {
    if IsTarget(c.target) && MIN_LIFETIME <= c.lifetimeSeconds * SECOND <= MAX_LIFETIME
       && c.minimumFiles >= 1 && c.soakIterations >= 2 && 32 <= |c.nonce| <= 256
    then
      var request := ChallengeText(t, c, requester, operator);
      Some(map[
        t.names.requestJson := RequestFile(0, request),
        t.names.requestSignature := RequestSignatureFile(0, SignedRequest(requester.material, request))])
    else None
  }

  function ChallengeText(t: Tools, c: Challenge, requester: Key, operator: Key): Request {
    Request(
      true, Party(true, requester.id, t.fingerprint(requester.material)),
      Party(true, operator.id, t.fingerprint(operator.material)), c.id, c.nonce, c.target, t.stamp(c.created),
      t.stamp(c.created + c.lifetimeSeconds * SECOND), c.source, true, c.minimumFiles, c.soakIterations, "")
  }

  /** A created request passes for exactly the key that made it, the source tree that
      it names, and the moments of its window. */
  lemma CreatedRequestPasses(
    t: Tools, c: Challenge, requester: Key, operator: Key, pinned: Key, source: Option<SourceTree>, moment: int)
    requires Lawful(t) && IsHex(c.id.text, 32) && IsKeyId(operator.id.text)
    requires CreateRequest(t, c, requester, operator).Some?
    ensures RequestPasses(t, CreateRequest(t, c, requester, operator).value, pinned, source, moment) <==>
              && pinned == requester
              && c.created - CLOCK_SKEW <= moment <= c.created + c.lifetimeSeconds * SECOND
              && SourceMatches(ChallengeText(t, c, requester, operator), source)
  {
    var files := CreateRequest(t, c, requester, operator).value;
    assert files.Keys == {t.names.requestJson, t.names.requestSignature};
    assert InWindow(t, ChallengeText(t, c, requester, operator), moment) <==>
           c.created - CLOCK_SKEW <= moment <= c.created + c.lifetimeSeconds * SECOND;
  }

  /** Nothing in the request that its creation does not write, times printed as it
      prints them, and a lifetime of whole seconds. */
  predicate PrintedByCreation(t: Tools, request: Request) {
    && request.details == ""
    && t.time(request.created).Some? && request.created == t.stamp(t.time(request.created).value)
    && t.time(request.expires).Some? && request.expires == t.stamp(t.time(request.expires).value)
    && (t.time(request.expires).value - t.time(request.created).value) % SECOND == 0
  }

  /** Conversely, what passes under a requester's key and is printed that way is what
      this requester created from some challenge for the operator it names. */
  lemma PassingRequestWasCreated(
    t: Tools, files: map<string, File>, requester: Key, operator: Key, source: Option<SourceTree>, moment: int)
    returns (c: Challenge)
    requires Lawful(t) && RequestPasses(t, files, requester, source, moment)
    requires var request := files[t.names.requestJson].request;
             && PrintedByCreation(t, request)
             && request.operator.keyId == operator.id
             && request.operator.fingerprint == t.fingerprint(operator.material)
    ensures IsHex(c.id.text, 32) && IsKeyId(operator.id.text)
    ensures var created := CreateRequest(t, c, requester, operator);
            && created.Some?
            && files[t.names.requestJson].request == created.value[t.names.requestJson].request
            && files[t.names.requestSignature].signature == created.value[t.names.requestSignature].signature
  {
    var request := files[t.names.requestJson].request;
    var start, end := t.time(request.created).value, t.time(request.expires).value;
    c := Challenge(
      request.id, request.nonce, request.target, start, (end - start) / SECOND, request.source,
      request.minimumFiles, request.soakIterations);
    assert c.lifetimeSeconds * SECOND == end - start;
    assert ChallengeText(t, c, requester, operator) == request;
  }

  /** The requester's signature fixes the request: under one signature no other
      request passes, whatever key is pinned, and under one key a request has no
      other signature. */
  lemma SignatureFixesRequest(
    t: Tools, a: map<string, File>, b: map<string, File>, requesterA: Key, requesterB: Key,
    sourceA: Option<SourceTree>, sourceB: Option<SourceTree>, momentA: int, momentB: int)
    requires RequestPasses(t, a, requesterA, sourceA, momentA) && RequestPasses(t, b, requesterB, sourceB, momentB)
    ensures a[t.names.requestSignature].signature == b[t.names.requestSignature].signature <==>
              && a[t.names.requestJson].request == b[t.names.requestJson].request
              && requesterA.material == requesterB.material
  {
    assert a[t.names.requestSignature].signature
           == SignedRequest(requesterA.material, a[t.names.requestJson].request);
  }

  /** evidence_request_binding */
  function BindingFor(t: Tools, files: map<string, File>, request: Request): Binding
    requires t.names.requestJson in files && t.names.requestSignature in files
  {
    Binding(
      request.id, t.nonceDigest(request.nonce), request.target, t.digest(files[t.names.requestJson]),
      t.digest(files[t.names.requestSignature]), request.created, request.expires, request.source, request.operator)
  }

  /** _evidence_collection_binding: the collection window, if the evidence was
      collected for this request and inside its window. */
  function Collected(t: Tools, aggregate: Aggregate, expected: Binding, created: int): Option<(int, int)> {
    if aggregate.binding == Some(expected) && aggregate.window.Some?
       && t.time(aggregate.window.value.started).Some? && t.time(aggregate.window.value.completed).Some?
       && t.time(expected.created).Some? && t.time(expected.expires).Some?
    then
      var started := t.time(aggregate.window.value.started).value;
      var completed := t.time(aggregate.window.value.completed).value;
      if started <= completed && t.time(expected.created).value - CLOCK_SKEW <= started
         && completed <= t.time(expected.expires).value && completed <= created
      then Some((started, completed))
      else None
    else None
  }

  /** verify_evidence_directory: the evidence's own manifest lists exactly its other
      files, and the checks on the reports pass. */
  predicate EvidencePasses(t: Tools, evidence: map<string, File>) {
    && t.names.sums in evidence && evidence[t.names.sums].ManifestFile?
    && Listing(ReadLine, SplitLines(TextSplitting, evidence[t.names.sums].text))
       == Some(Digests(t.digest, evidence - {t.names.sums}))
    && t.names.report in evidence && evidence[t.names.report].ReportFile?
    && t.evidenceChecks(evidence)
  }

  function PathsBelow<F>(directory: string, files: map<string, F>): set<string> {
    set n | n in files :: directory + "/" + n
  }

  /** The files of a directory under their paths from its parent. */
  function Below<F>(directory: string, files: map<string, F>): map<string, F> {
    map p | p in PathsBelow(directory, files) :: files[p[|directory| + 1..]]
  }

  /** Everything the payload manifest covers. */
  function Payload(l: Layout, b: Bundle): map<string, File> {
    Below(l.request, b.request) + Below(l.evidence, b.evidence)
    + (if b.operatorKey.Some? then map[l.operatorKey := b.operatorKey.value] else map[])
  }

  lemma BelowFacts<F>(directory: string, files: map<string, F>, n: string)
    ensures directory + "/" + n in Below(directory, files) <==> n in files
    ensures n in files ==> Below(directory, files)[directory + "/" + n] == files[n]
  {
    var p := directory + "/" + n;
    assert p[|directory| + 1..] == n;
    if p in Below(directory, files) {
      var m :| m in files && p == directory + "/" + m;
      assert m == p[|directory| + 1..];
    }
  }

  lemma SlashesDiffer(a: string, b: string, m: string, n: string)
    requires '/' !in a && '/' !in b && a != b
    ensures a + "/" + m != b + "/" + n
  {
    SegmentsBelow(a, m);
    SegmentsBelow(b, n);
    assert ([a] + Segments(m))[0] == a && ([b] + Segments(n))[0] == b;
  }

  /** Different directories have different paths below them, and no plain name is
      such a path. */
  lemma BelowDisjoint<F>(a: string, b: string, k: string, f: map<string, F>, g: map<string, F>)
    requires '/' !in a && '/' !in b && '/' !in k && a != b
    ensures Below(a, f).Keys !! Below(b, g).Keys
    ensures k !in Below(a, f) && k !in Below(b, g)
  {
    forall p | p in Below(a, f) ensures p !in Below(b, g) && p != k {
      var m :| m in f && p == a + "/" + m;
      assert p[|a|] == '/';
      if p in Below(b, g) {
        var n :| n in g && p == b + "/" + n;
        SlashesDiffer(a, b, m, n);
      }
    }
    forall p | p in Below(b, g) ensures p != k {
      var n :| n in g && p == b + "/" + n;
      assert p[|b|] == '/';
    }
  }

  /** The three parts of a payload do not overlap. */
  lemma PayloadParts(l: Layout, b: Bundle, n: string)
    requires LawfulLayout(l)
    ensures l.request + "/" + n in Payload(l, b) <==> n in b.request
    ensures n in b.request ==> Payload(l, b)[l.request + "/" + n] == b.request[n]
    ensures l.evidence + "/" + n in Payload(l, b) <==> n in b.evidence
    ensures n in b.evidence ==> Payload(l, b)[l.evidence + "/" + n] == b.evidence[n]
    ensures l.operatorKey in Payload(l, b) <==> b.operatorKey.Some?
    ensures b.operatorKey.Some? ==> Payload(l, b)[l.operatorKey] == b.operatorKey.value
  {
    var one := map[n := OtherFile("")];
    BelowFacts(l.request, b.request, n);
    BelowFacts(l.evidence, b.evidence, n);
    BelowFacts(l.request, one, n);
    BelowFacts(l.evidence, one, n);
    BelowDisjoint(l.request, l.evidence, l.operatorKey, b.request, b.evidence);
    BelowDisjoint(l.request, l.evidence, l.operatorKey, b.request, one);
    BelowDisjoint(l.request, l.evidence, l.operatorKey, one, b.evidence);
    BelowDisjoint(l.request, l.evidence, l.operatorKey, one, one);
  }

  lemma SamePayloadSameParts(l: Layout, a: Bundle, b: Bundle)
    requires LawfulLayout(l) && Payload(l, a) == Payload(l, b)
    ensures a.request == b.request && a.evidence == b.evidence && a.operatorKey == b.operatorKey
  {
    PartsContained(l, a, b);
    PartsContained(l, b, a);
    MutuallyContained(a.request, b.request);
    MutuallyContained(a.evidence, b.evidence);
  }

  lemma MutuallyContained(a: map<string, File>, b: map<string, File>)
    requires forall n :: n in a ==> n in b && b[n] == a[n]
    requires forall n :: n in b ==> n in a && a[n] == b[n]
    ensures a == b
  {
  }

  lemma PartsContained(l: Layout, a: Bundle, b: Bundle)
    requires LawfulLayout(l) && Payload(l, a) == Payload(l, b)
    ensures forall n :: n in a.request ==> n in b.request && b.request[n] == a.request[n]
    ensures forall n :: n in a.evidence ==> n in b.evidence && b.evidence[n] == a.evidence[n]
    ensures a.operatorKey.Some? ==> b.operatorKey == a.operatorKey
  {
    PayloadParts(l, a, "");
    PayloadParts(l, b, "");
    forall n | n in a.request ensures n in b.request && b.request[n] == a.request[n] {
      PayloadParts(l, a, n);
      PayloadParts(l, b, n);
    }
    forall n | n in a.evidence ensures n in b.evidence && b.evidence[n] == a.evidence[n] {
      PayloadParts(l, a, n);
      PayloadParts(l, b, n);
    }
  }

  /** The reports that were made before and after the run, or the present one twice. */
  function Reports(source: SourceTree, given: Option<(Report, Report)>): (Report, Report) {
    if given.Some? then given.value
    else (Report(true, true, source.attested), Report(true, true, source.attested))
  }

  predicate ReportsPass(source: SourceTree, reports: (Report, Report)) {
    && reports.0.formatKnown && reports.0.passed && reports.0.identity.Some?
    && reports.1.formatKnown && reports.1.passed && reports.1.identity.Some?
    && reports.0.identity == reports.1.identity == source.attested
  }

  /** What sign_response_bundle checks before writing. */
  predicate Signable(
    t: Tools, request: map<string, File>, requester: Key, evidence: map<string, File>, operator: Key,
    runner: string, now: int, given: Option<(Report, Report)>, source: SourceTree)
  {
    && IsRunner(runner)
    && RequestPasses(t, request, requester, Some(source), now)
    && ReportsPass(source, Reports(source, given))
    && EvidencePasses(t, evidence)
    && var named := request[t.names.requestJson].request;
    && Collected(t, evidence[t.names.report].aggregate, BindingFor(t, request, named), now).Some?
    && named.operator.keyId == operator.id && named.operator.fingerprint == t.fingerprint(operator.material)
  }

  function StatementFor(
    t: Tools, b: Bundle, operator: Key, runner: string, now: int, given: Option<(Report, Report)>, source: SourceTree)
    : Statement
    requires t.names.requestJson in b.request && b.request[t.names.requestJson].RequestFile?
    requires t.names.requestSignature in b.request
    requires t.names.report in b.evidence && b.evidence[t.names.report].ReportFile? && t.names.sums in b.evidence
    requires source.identity.Some? && ReportsPass(source, Reports(source, given))
    requires Collected(
               t, b.evidence[t.names.report].aggregate,
               BindingFor(t, b.request, b.request[t.names.requestJson].request), now).Some?
  {
    var request := b.request[t.names.requestJson].request;
    var aggregate := b.evidence[t.names.report].aggregate;
    var binding := BindingFor(t, b.request, request);
    var collected := Collected(t, aggregate, binding, now).value;
    var reports := Reports(source, given);
    Statement(
      true, t.stamp(now), request.id, request.nonce, request.target,
      t.digest(b.request[t.names.requestJson]), t.digest(b.request[t.names.requestSignature]),
      request.source, source.identity.value, request.operator,
      t.digest(b.manifest), t.digest(b.evidence[t.names.report]), t.digest(b.evidence[t.names.sums]),
      t.bindingDigest(binding), Window(t.stamp(collected.0), t.stamp(collected.1)),
      aggregate.passed, aggregate.complete, aggregate.counts,
      Attestation(
        true, if given.Some? then ExecuteRequest else DetachedSigning,
        reports.0.identity.value, reports.1.identity.value),
      Party(true, operator.id, t.fingerprint(operator.material)), runner)
  }

  /** sign_response_bundle: copy request and evidence, list every file with its
      digest, and sign a statement that fixes the list. */
  function SignResponse(
    t: Tools, request: map<string, File>, requester: Key, evidence: map<string, File>, operator: Key,
    runner: string, now: int, given: Option<(Report, Report)>, source: SourceTree)
    : Option<Bundle>
  {
    if Signable(t, request, requester, evidence, operator, runner, now, given, source) then
      var copied := Bundle(
        false, EXPECTED_TOP, request, evidence, Some(KeyFile(0, operator)), OtherFile(""), None, UnsignedResponse);
      var listed := copied.(manifest := ManifestFile(ManifestText(t.digest, Payload(t.names, copied))));
      var statement := StatementFor(t, listed, operator, runner, now, given, source);
      Some(listed.(statement := Some(statement), signature := SignedResponse(operator.material, statement)))
    else None
  }

  /** The payload checks: the manifest lists exactly the files present, with their
      digests. */
  predicate PayloadMatches(t: Tools, b: Bundle) {
    && b.manifest.ManifestFile?
    && Listing(ReadLine, SplitLines(TextSplitting, b.manifest.text)) == Some(Digests(t.digest, Payload(t.names, b)))
  }

  predicate OperatorMatches(t: Tools, b: Bundle, named: Request, operator: Key)
    requires b.statement.Some?
  {
    && b.operatorKey.Some? && b.operatorKey.value.KeyFile? && b.operatorKey.value.key == operator
    && Names(t, b.statement.value.operator, operator)
    && Names(t, named.operator, operator)
    && b.statement.value.authorized == named.operator
  }

  predicate AttestationMatches(statement: Statement, source: Option<SourceTree>) {
    && statement.attestation.formatKnown
    && !statement.attestation.mode.UnknownMode?
    && statement.attestation.before == statement.attestation.after
    && (source.Some? && source.value.attested.Some? ==> Some(statement.attestation.before) == source.value.attested)
  }

  /** The statement repeats the request and the evidence it answers for. */
  predicate StatementBinds(t: Tools, b: Bundle, named: Request, created: int)
    requires b.statement.Some?
    requires t.names.requestJson in b.request && t.names.requestSignature in b.request && t.names.report in b.evidence
    requires b.evidence[t.names.report].ReportFile? && t.names.sums in b.evidence
  {
    var statement, aggregate := b.statement.value, b.evidence[t.names.report].aggregate;
    var binding := BindingFor(t, b.request, named);
    var collected := Collected(t, aggregate, binding, created);
    && collected.Some?
    && statement.window == Window(t.stamp(collected.value.0), t.stamp(collected.value.1))
    && statement.binding == t.bindingDigest(binding)
    && statement.formatKnown
    && statement.requestId == named.id && statement.nonce == named.nonce && statement.target == named.target
    && statement.request == t.digest(b.request[t.names.requestJson])
    && statement.requestSignature == t.digest(b.request[t.names.requestSignature])
    && statement.requestSource == named.source && statement.responseSource == named.source
    && statement.authorized == named.operator
    && statement.manifest == t.digest(b.manifest)
    && statement.report == t.digest(b.evidence[t.names.report])
    && statement.evidenceManifest == t.digest(b.evidence[t.names.sums])
    && statement.passed == aggregate.passed && statement.complete == aggregate.complete
    && statement.counts == aggregate.counts
  }

  /** All checks of verify_response_bundle. The embedded request is judged at the
      moment the response was created, so no clock is read. */
  predicate IntegrityPasses(
    t: Tools, b: Bundle, expected: map<string, File>, requester: Key, operator: Key, source: Option<SourceTree>)
  {
    && !b.hasLinks && b.top == EXPECTED_TOP
    && b.statement.Some? && t.time(b.statement.value.created).Some?
    && var created := t.time(b.statement.value.created).value;
    && RequestPasses(t, expected, requester, source, created)
    && RequestPasses(t, b.request, requester, source, created)
    && t.digest(expected[t.names.requestJson]) == t.digest(b.request[t.names.requestJson])
    && t.digest(expected[t.names.requestSignature]) == t.digest(b.request[t.names.requestSignature])
    && expected[t.names.requestJson].request == b.request[t.names.requestJson].request
    && PayloadMatches(t, b)
    && var named := b.request[t.names.requestJson].request;
    && OperatorMatches(t, b, named, operator)
    && b.signature == SignedResponse(operator.material, b.statement.value)
    && EvidencePasses(t, b.evidence)
    && AttestationMatches(b.statement.value, source)
    && InWindow(t, named, created)
    && StatementBinds(t, b, named, created)
  }

  datatype Verdict = Verdict(integrity: bool, sourceAttested: bool, passed: bool, complete: bool)

  /** verify_response_bundle */
  function VerifyResponse(
    t: Tools, b: Bundle, expected: map<string, File>, requester: Key, operator: Key, source: Option<SourceTree>)
    : Verdict
  {
    var integrity := IntegrityPasses(t, b, expected, requester, operator, source);
    var attested := b.statement.Some? && AttestationMatches(b.statement.value, source)
                    && b.statement.value.attestation.mode == ExecuteRequest;
    Verdict(
      integrity, attested,
      integrity && attested && b.statement.value.passed,
      integrity && attested && b.statement.value.complete)
  }

  /** A name without separators is a safe path. */
  lemma PlainNameIsSafe(n: string)
    requires Plain(n)
    ensures SafeRelative(n) && Printable(n)
  {
    OneSegment(n);
    assert Named([]) == [];
    assert Segments(n)[1..] == [] && Segments(n)[0] == n;
    assert Parts(n) == [n] + Named(Segments(n)[1..]);
  }

  lemma {:induction false} OneSegment(n: string)
    requires '/' !in n
    ensures Segments(n) == [n]
  {
    if n != "" {
      OneSegment(n[1..]);
      assert [n[0]] + n[1..] == n;
    }
  }

  /** The names in evidence that passes its own verifier can all be listed. */
  lemma EvidenceNamesListable(t: Tools, evidence: map<string, File>)
    requires EvidencePasses(t, evidence) && LawfulLayout(t.names)
    ensures AllPrintable(evidence)
  {
    var text := evidence[t.names.sums].text;
    var others := evidence - {t.names.sums};
    SplitHasNoBreak(TextSplitting, text);
    ListedPathsSafe(SplitLines(TextSplitting, text));
    PlainNameIsSafe(t.names.sums);
    forall n | n in evidence && n != t.names.sums ensures SafeRelative(n) && Printable(n) {
      assert n in Digests(t.digest, others);
    }
  }

  lemma BelowListable<F(!new)>(directory: string, files: map<string, F>)
    requires Plain(directory) && AllPrintable(files)
    ensures AllPrintable(Below(directory, files))
  {
    forall p | p in Below(directory, files) ensures SafeRelative(p) && Printable(p) {
      var n :| n in files && p == directory + "/" + n;
      SafeBelow(directory, n);
    }
  }

  lemma PayloadListable(t: Tools, b: Bundle)
    requires LawfulLayout(t.names)
    requires b.request.Keys == {t.names.requestJson, t.names.requestSignature} && EvidencePasses(t, b.evidence)
    ensures AllPrintable(Payload(t.names, b))
  {
    EvidenceNamesListable(t, b.evidence);
    PlainNameIsSafe(t.names.requestJson);
    PlainNameIsSafe(t.names.requestSignature);
    PlainNameIsSafe(t.names.operatorKey);
    BelowListable(t.names.request, b.request);
    BelowListable(t.names.evidence, b.evidence);
  }

  lemma SignedPayloadMatches(t: Tools, b: Bundle)
    requires Lawful(t)
    requires b.request.Keys == {t.names.requestJson, t.names.requestSignature} && EvidencePasses(t, b.evidence)
    requires b.operatorKey.Some? && b.manifest == ManifestFile(ManifestText(t.digest, Payload(t.names, b)))
    ensures PayloadMatches(t, b)
  {
    PayloadListable(t, b);
    PayloadParts(t.names, b, "");
    ManifestRoundTrip(t.digest, Payload(t.names, b));
  }

  lemma SignedStatementBinds(
    t: Tools, b: Bundle, operator: Key, runner: string, now: int, given: Option<(Report, Report)>, source: SourceTree)
    requires Lawful(t)
    requires t.names.requestJson in b.request && b.request[t.names.requestJson].RequestFile?
    requires t.names.requestSignature in b.request && t.names.sums in b.evidence
    requires t.names.report in b.evidence && b.evidence[t.names.report].ReportFile?
    requires ReportsPass(source, Reports(source, given))
    requires Collected(
               t, b.evidence[t.names.report].aggregate,
               BindingFor(t, b.request, b.request[t.names.requestJson].request), now).Some?
    requires source.identity == Some(b.request[t.names.requestJson].request.source)
    requires b.statement == Some(StatementFor(t, b, operator, runner, now, given, source))
    ensures StatementBinds(t, b, b.request[t.names.requestJson].request, now)
    ensures t.time(b.statement.value.created) == Some(now)
    ensures AttestationMatches(b.statement.value, None) && AttestationMatches(b.statement.value, Some(source))
    ensures b.statement.value.attestation.mode == if given.Some? then ExecuteRequest else DetachedSigning
    ensures var named := b.request[t.names.requestJson].request;
            Names(t, named.operator, operator) && b.operatorKey == Some(KeyFile(0, operator)) ==>
              OperatorMatches(t, b, named, operator)
  {
  }

  /** Completeness: whatever sign_response_bundle returns passes verification with
      the pinned keys and the unchanged source - at any later time, and also without
      a source tree - and reports the evidence's own result if the run was attested
      before and after. */
  lemma SignedResponseVerifies(
    t: Tools, request: map<string, File>, requester: Key, evidence: map<string, File>, operator: Key,
    runner: string, now: int, given: Option<(Report, Report)>, source: SourceTree, later: Option<SourceTree>)
    requires Lawful(t) && (later.Some? ==> later.value == source)
    requires SignResponse(t, request, requester, evidence, operator, runner, now, given, source).Some?
    ensures var b := SignResponse(t, request, requester, evidence, operator, runner, now, given, source).value;
            var aggregate := evidence[t.names.report].aggregate;
            VerifyResponse(t, b, request, requester, operator, later)
            == Verdict(true, given.Some?, given.Some? && aggregate.passed, given.Some? && aggregate.complete)
  {
    var b := SignResponse(t, request, requester, evidence, operator, runner, now, given, source).value;
    SignedPayloadMatches(t, b);
    var unsigned := b.(statement := None, signature := UnsignedResponse);
    assert b.statement == Some(StatementFor(t, unsigned, operator, runner, now, given, source));
    SignedStatementBinds(t, b, operator, runner, now, given, source);
  }

  /** Binding: bundles that pass with the same signed statement have the same
      request, evidence and operator key, path for path and byte for byte - or their
      two manifests collide, or two files under one path of their payloads do. */
  lemma StatementFixesPayload(
    t: Tools, a: Bundle, b: Bundle, expectedA: map<string, File>, expectedB: map<string, File>,
    requesterA: Key, requesterB: Key, operatorA: Key, operatorB: Key,
    sourceA: Option<SourceTree>, sourceB: Option<SourceTree>)
    requires VerifyResponse(t, a, expectedA, requesterA, operatorA, sourceA).integrity
    requires VerifyResponse(t, b, expectedB, requesterB, operatorB, sourceB).integrity
    requires LawfulLayout(t.names) && a.statement == b.statement
    ensures || Collide(t.digest, a.manifest, b.manifest)
            || CollisionAtPath(t.digest, Payload(t.names, a), Payload(t.names, b))
            || (a.request == b.request && a.evidence == b.evidence && a.operatorKey == b.operatorKey)
  {
    if a.manifest == b.manifest {
      SameDigestsSameFiles(t, Payload(t.names, a), Payload(t.names, b));
      if Payload(t.names, a) == Payload(t.names, b) {
        SamePayloadSameParts(t.names, a, b);
      }
    }
  }

  /** The operator's signature fixes the response: bundles that pass with one signature
      have one statement and one operator key, hence the same request, evidence and
      key file up to the collisions named above. */
  lemma SignatureFixesResponse(
    t: Tools, a: Bundle, b: Bundle, expectedA: map<string, File>, expectedB: map<string, File>,
    requesterA: Key, requesterB: Key, operatorA: Key, operatorB: Key,
    sourceA: Option<SourceTree>, sourceB: Option<SourceTree>)
    requires VerifyResponse(t, a, expectedA, requesterA, operatorA, sourceA).integrity
    requires VerifyResponse(t, b, expectedB, requesterB, operatorB, sourceB).integrity
    requires LawfulLayout(t.names) && a.signature == b.signature
    ensures a.statement == b.statement && operatorA.material == operatorB.material
    ensures || Collide(t.digest, a.manifest, b.manifest)
            || CollisionAtPath(t.digest, Payload(t.names, a), Payload(t.names, b))
            || (a.request == b.request && a.evidence == b.evidence && a.operatorKey == b.operatorKey)
  {
    StatementFixesPayload(
      t, a, b, expectedA, expectedB, requesterA, requesterB, operatorA, operatorB, sourceA, sourceB);
  }

  /** A bundle that passes no longer passes, against any request, keys and source, once
      its statement alone or its signature alone is replaced. */
  lemma AlteredResponseFails(
    t: Tools, b: Bundle, expected: map<string, File>, requester: Key, operator: Key, source: Option<SourceTree>,
    statement: Option<Statement>, signature: ResponseSignature,
    otherExpected: map<string, File>, otherRequester: Key, otherOperator: Key, otherSource: Option<SourceTree>)
    requires VerifyResponse(t, b, expected, requester, operator, source).integrity
    ensures var altered := b.(statement := statement);
            VerifyResponse(t, altered, otherExpected, otherRequester, otherOperator, otherSource).integrity ==>
              statement == b.statement
    ensures var altered := b.(signature := signature);
            VerifyResponse(t, altered, otherExpected, otherRequester, otherOperator, otherSource).integrity ==>
              signature == b.signature && otherOperator == operator
  {
    assert b.signature == SignedResponse(operator.material, b.statement.value);
  }

  /** Of a response that passes, the evidence was collected while the request was valid
      and before the response was signed, and the statement says when. */
  lemma EvidenceWithinWindow(
    t: Tools, b: Bundle, expected: map<string, File>, requester: Key, operator: Key, source: Option<SourceTree>)
    returns (started: int, completed: int)
    requires Lawful(t) && VerifyResponse(t, b, expected, requester, operator, source).integrity
    ensures t.time(b.statement.value.window.started) == Some(started)
            && t.time(b.statement.value.window.completed) == Some(completed)
    ensures var request := b.request[t.names.requestJson].request;
            && t.time(request.created).Some? && t.time(request.expires).Some?
            && t.time(b.statement.value.created).Some?
            && t.time(request.created).value - CLOCK_SKEW <= started <= completed
            && completed <= t.time(request.expires).value
            && completed <= t.time(b.statement.value.created).value
            && t.time(b.statement.value.created).value <= t.time(request.expires).value
    ensures var aggregate := b.evidence[t.names.report].aggregate;
            && aggregate.window.Some? && t.time(aggregate.window.value.started) == Some(started)
            && t.time(aggregate.window.value.completed) == Some(completed)
            && aggregate.binding == Some(BindingFor(t, b.request, b.request[t.names.requestJson].request))
  {
    var window := b.evidence[t.names.report].aggregate.window.value;
    started, completed := t.time(window.started).value, t.time(window.completed).value;
  }

  /** The evidence's own manifest fixes the evidence: two directories that pass with one
      manifest are equal, or two of their files under one name collide. */
  lemma EvidenceManifestFixesFiles(t: Tools, a: map<string, File>, b: map<string, File>)
    requires EvidencePasses(t, a) && EvidencePasses(t, b) && a[t.names.sums] == b[t.names.sums]
    ensures a == b || CollisionAtPath(t.digest, a, b)
  {
    var others, rest := a - {t.names.sums}, b - {t.names.sums};
    SameDigestsSameFiles(t, others, rest);
    if others == rest {
      assert a == others[t.names.sums := a[t.names.sums]] && b == rest[t.names.sums := b[t.names.sums]];
    } else {
      var n :| n in others && n in rest && Collide(t.digest, others[n], rest[n]);
    }
  }

  /** The reports that a statement about this source tree speaks of. */
  function ReportsOf(mode: Mode, source: SourceTree): Option<(Report, Report)> {
    var report := Report(true, true, source.attested);
    if mode == ExecuteRequest then Some((report, report)) else None
  }

  /** What the signer of this bundle must have had before it: a request that passed, an
      operator that it names, evidence collected for it, attested sources - and the
      statement made and signed for exactly these. */
  predicate SignedFor(
    t: Tools, b: Bundle, expected: map<string, File>, requester: Key, operator: Key, source: SourceTree)
  {
    && !b.hasLinks && b.top == EXPECTED_TOP
    && b.statement.Some? && t.time(b.statement.value.created).Some?
    && var statement := b.statement.value;
    && var created, given := t.time(statement.created).value, ReportsOf(statement.attestation.mode, source);
    && RequestPasses(t, b.request, requester, Some(source), created)
    && RequestPasses(t, expected, requester, Some(source), created)
    && expected[t.names.requestJson].request == b.request[t.names.requestJson].request
    && t.digest(expected[t.names.requestJson]) == t.digest(b.request[t.names.requestJson])
    && t.digest(expected[t.names.requestSignature]) == t.digest(b.request[t.names.requestSignature])
    && PayloadMatches(t, b)
    && b.operatorKey.Some? && b.operatorKey.value.KeyFile? && b.operatorKey.value.key == operator
    && ReportsPass(source, Reports(source, given)) && EvidencePasses(t, b.evidence)
    && var named := b.request[t.names.requestJson].request;
    && Collected(t, b.evidence[t.names.report].aggregate, BindingFor(t, b.request, named), created).Some?
    && named.operator.keyId == operator.id && named.operator.fingerprint == t.fingerprint(operator.material)
    && !statement.attestation.mode.UnknownMode?
    && statement
       == StatementFor(t, b, operator, statement.runner, created, given, source).(created := statement.created)
    && b.signature == SignedResponse(operator.material, statement)
  }

  /** Soundness and completeness in one: with an attested source tree, verification
      passes exactly for bundles whose statement is the one that the signer makes for
      their contents, under the operator's signature. */
  lemma PassesExactlyWhenSigned(
    t: Tools, b: Bundle, expected: map<string, File>, requester: Key, operator: Key, source: SourceTree)
    ensures IntegrityPasses(t, b, expected, requester, operator, Some(source)) <==>
              SignedFor(t, b, expected, requester, operator, source)
  {
  }

  lemma SameDigestsSameFiles(t: Tools, a: map<string, File>, b: map<string, File>)
    requires Digests(t.digest, a) == Digests(t.digest, b)
    ensures CollisionAtPath(t.digest, a, b) || a == b
  {
    assert forall p :: p in a <==> p in Digests(t.digest, a);
    assert forall p :: p in b <==> p in Digests(t.digest, b);
    if p :| p in a && a[p] != b[p] {
      assert Digests(t.digest, a)[p] == t.digest(a[p]) && Digests(t.digest, b)[p] == t.digest(b[p]);
      assert Collide(t.digest, a[p], b[p]);
    }
  }

  /** Evidence answers for one request only: the same evidence cannot pass under two
      different requests, whoever signed the responses. Each two of the four request
      directories are equal, or two of their files under one name collide. */
  lemma EvidenceFitsOneRequest(
    t: Tools, a: Bundle, b: Bundle, expectedA: map<string, File>, expectedB: map<string, File>,
    requesterA: Key, requesterB: Key, operatorA: Key, operatorB: Key,
    sourceA: Option<SourceTree>, sourceB: Option<SourceTree>)
    requires VerifyResponse(t, a, expectedA, requesterA, operatorA, sourceA).integrity
    requires VerifyResponse(t, b, expectedB, requesterB, operatorB, sourceB).integrity
    requires LawfulLayout(t.names) && a.evidence[t.names.report] == b.evidence[t.names.report]
    ensures a.request == b.request || CollisionAtPath(t.digest, a.request, b.request)
    ensures expectedA == a.request || CollisionAtPath(t.digest, expectedA, a.request)
    ensures expectedB == b.request || CollisionAtPath(t.digest, expectedB, b.request)
    ensures expectedA == expectedB || CollisionAtPath(t.digest, expectedA, expectedB)
  {
    SameRequestFiles(t, a.request, b.request);
    SameRequestFiles(t, expectedA, a.request);
    SameRequestFiles(t, expectedB, b.request);
    SameRequestFiles(t, expectedA, expectedB);
  }

  lemma SameRequestFiles(t: Tools, a: map<string, File>, b: map<string, File>)
    requires a.Keys == b.Keys == {t.names.requestJson, t.names.requestSignature}
    requires t.digest(a[t.names.requestJson]) == t.digest(b[t.names.requestJson])
    requires t.digest(a[t.names.requestSignature]) == t.digest(b[t.names.requestSignature])
    ensures a == b || CollisionAtPath(t.digest, a, b)
  {
    if n :| n in a && a[n] != b[n] {
      assert Collide(t.digest, a[n], b[n]);
    }
  }
}
