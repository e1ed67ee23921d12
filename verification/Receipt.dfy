/** Unsigned completion receipts of the control gateway: construction, verification and what a
    consistent verification binds. SHA-256 is the parameter `h`; nothing is assumed of it, and
    results that need it say which two texts would have to collide. */
module Receipt {
  import opened Text
  import opened Json
  import opened JsonCanonical
  import opened JsonWalk
  import opened JsonObject

  const MAX_VERIFICATION_BYTES: nat := 3_000_000
  const MAX_COMPLETION_BYTES: nat := 2_032_768
  const RECEIPT_SCHEMA := "szl.router-receipt/v1"
  const RECEIPT := "szl_receipt"

  predicate IsDigest(s: string) {
    |s| == 64 && forall i :: 0 <= i < |s| ==> '0' <= s[i] <= '9' || 'a' <= s[i] <= 'f'
  }

  type Digest = s: string | IsDigest(s) witness seq(64, _ => '0')
  type Hash = string -> Digest

  ghost predicate Collide(h: Hash, x: string, y: string) { x != y && h(x) == h(y) }

  /** Length of the UTF-8 encoding. */
  function ByteLength(s: string): nat {
    if s == "" then 0
    else
      var n := s[0] as int;
      (if n < 0x80 then 1 else if n < 0x800 then 2 else if n < 0x1_0000 then 3 else 4) + ByteLength(s[1..])
  }

  /** Sixty-four digits and letters from a to f, by their codes. */
  lemma DigestExact(s: string)
    ensures IsDigest(s) <==>
            |s| == 64 && forall i :: 0 <= i < |s| ==> 48 <= s[i] as int <= 57 || 97 <= s[i] as int <= 102
  {
  }

  /** One to four bytes for a character, as many as its code needs, and as many in all as the characters together. */
  lemma {:induction false} ByteLengthExact(s: string, t: string, c: char)
    ensures ByteLength(s + t) == ByteLength(s) + ByteLength(t)
    ensures ByteLength([c]) == 1 <==> c as int <= 0x7F
    ensures ByteLength([c]) == 2 <==> 0x80 <= c as int <= 0x7FF
    ensures ByteLength([c]) == 3 <==> 0x800 <= c as int <= 0xFFFF
    ensures ByteLength([c]) == 4 <==> c as int >= 0x1_0000
  {
    assert [c][1..] == "";
    if s == "" {
      assert s + t == t;
    } else {
      assert (s + t)[1..] == s[1..] + t;
      ByteLengthExact(s[1..], t, c);
    }
  }

  /** `canonical(value)`: sorted keys, no spaces, non-ASCII characters kept. */
  function CanonicalText(j: Json): string { Canonical(j, false) }

  function Sha(h: Hash, j: Json): Digest { h(CanonicalText(j)) }

  // ----- verification -----

  datatype Checks = Checks(receiptDigest: bool, responseDigest: bool, requestDigest: bool, headerDigest: Option<bool>) {
    predicate All() {
      receiptDigest && responseDigest && requestDigest && (headerDigest.Some? ==> headerDigest.value)
    }
  }

  datatype Verdict = InvalidInput | Consistent | Divergent

  function ReceiptOf(completion: seq<Member>): seq<Member> {
    match Get(completion, RECEIPT)
    case Some(Obj(ms)) => ms
    case _ => []
  }

  function Body(completion: seq<Member>): seq<Member> { Without(ReceiptOf(completion), {"digest", "algorithm"}) }

  function Upstream(completion: seq<Member>): seq<Member> { Without(completion, {RECEIPT}) }

  function Check(h: Hash, completion: seq<Member>, request: seq<Member>, header: Option<string>): Checks {
    var receipt := ReceiptOf(completion);
    Checks(
      && Get(receipt, "schema") == Some(Str(RECEIPT_SCHEMA))
      && Get(receipt, "algorithm") == Some(Str("sha256"))
      && Get(receipt, "digest") == Some(Str(Sha(h, Obj(Body(completion))))),
      Get(receipt, "response_digest") == Some(Str(Sha(h, Obj(Upstream(completion))))),
      Get(receipt, "request_digest") == Some(Str(Sha(h, Obj(request)))),
      match header
      case None => None
      case Some(value) => Some(IsDigest(value) && Get(receipt, "digest") == Some(Str(value))))
  }

  /** `verify_completion` */
  function Verify(h: Hash, completion: seq<Member>, request: seq<Member>, header: Option<string>): Verdict {
    if ByteLength(CanonicalText(Obj(completion))) > MAX_COMPLETION_BYTES then InvalidInput
    else if Check(h, completion, request, header).All() then Consistent
    else Divergent
  }

  predicate Dict(ms: seq<Member>) { Valid(Obj(ms)) }

  // ----- verification sees values, not member order -----

  lemma DictParts(ms: seq<Member>)
    requires Dict(ms)
    ensures Dict(ReceiptOf(ms)) && Dict(Body(ms)) && Dict(Upstream(ms))
  {
    match Get(ms, RECEIPT) {
      case Some(Obj(rs)) => assert Member(RECEIPT, Obj(rs)) in ms;
      case _ =>
    }
    WithoutValid(ReceiptOf(ms), {"digest", "algorithm"});
    WithoutValid(ms, {RECEIPT});
  }

  lemma SameReceipt(a: seq<Member>, b: seq<Member>)
    requires Dict(a) && Dict(b) && SameValue(Obj(a), Obj(b))
    ensures SameValue(Obj(ReceiptOf(a)), Obj(ReceiptOf(b)))
  {
    LookupOfSame(a, b, RECEIPT);
  }

  lemma SameText(a: Json, b: Json)
    requires Valid(a) && Valid(b) && SameValue(a, b)
    ensures CanonicalText(a) == CanonicalText(b)
  {
    CanonicalIff(a, b, false);
  }

  lemma SameStr(a: seq<Member>, b: seq<Member>, k: string, s: string)
    requires SameValue(Obj(a), Obj(b))
    ensures Get(a, k) == Some(Str(s)) <==> Get(b, k) == Some(Str(s))
  {
    LookupOfSame(a, b, k);
  }

  /** Reordering the members of a bundle at any level never changes the verdict. */
  lemma VerifyIgnoresOrder(h: Hash, c: seq<Member>, r: seq<Member>, c': seq<Member>, r': seq<Member>,
                           header: Option<string>)
    requires Dict(c) && Dict(r) && Dict(c') && Dict(r')
    requires SameValue(Obj(c), Obj(c')) && SameValue(Obj(r), Obj(r'))
    ensures Verify(h, c, r, header) == Verify(h, c', r', header)
  {
    hide SameValue, Canonical, Without, ByteLength, Get;
    DictParts(c);
    DictParts(c');
    SameReceipt(c, c');
    SameText(Obj(c), Obj(c'));
    SameText(Obj(r), Obj(r'));
    SameWithout(c, c', {RECEIPT});
    SameText(Obj(Upstream(c)), Obj(Upstream(c')));
    var a, b := ReceiptOf(c), ReceiptOf(c');
    SameWithout(a, b, {"digest", "algorithm"});
    SameText(Obj(Body(c)), Obj(Body(c')));
    SameStr(a, b, "schema", RECEIPT_SCHEMA);
    SameStr(a, b, "algorithm", "sha256");
    SameStr(a, b, "digest", Sha(h, Obj(Body(c))));
    SameStr(a, b, "response_digest", Sha(h, Obj(Upstream(c))));
    SameStr(a, b, "request_digest", Sha(h, Obj(r)));
    if header.Some? {
      SameStr(a, b, "digest", header.value);
    }
  }

  // ----- what a consistent verification binds -----

  lemma ReceiptField(c: seq<Member>, k: string)
    requires k != "digest" && k != "algorithm"
    ensures Get(Body(c), k) == Get(ReceiptOf(c), k)
  {
    GetWithout(ReceiptOf(c), {"digest", "algorithm"}, k);
  }

  lemma SameOrCollide(h: Hash, a: Json, b: Json)
    requires Valid(a) && Valid(b) && Sha(h, a) == Sha(h, b)
    ensures SameValue(a, b) || Collide(h, CanonicalText(a), CanonicalText(b))
  {
    CanonicalIff(a, b, false);
  }

  /** Two bundles that verify against one receipt header have equal completions and equal requests,
      unless their receipt bodies, their answers or their requests collide under the hash. */
  lemma HeaderBindsBundle(h: Hash, c1: seq<Member>, r1: seq<Member>, c2: seq<Member>, r2: seq<Member>, header: string)
    requires Dict(c1) && Dict(r1) && Dict(c2) && Dict(r2)
    requires Verify(h, c1, r1, Some(header)) == Consistent
    requires Verify(h, c2, r2, Some(header)) == Consistent
    ensures || (SameValue(Obj(c1), Obj(c2)) && SameValue(Obj(r1), Obj(r2)))
            || Collide(h, CanonicalText(Obj(Body(c1))), CanonicalText(Obj(Body(c2))))
            || Collide(h, CanonicalText(Obj(Upstream(c1))), CanonicalText(Obj(Upstream(c2))))
            || Collide(h, CanonicalText(Obj(r1)), CanonicalText(Obj(r2)))
  {
    hide SameValue, CanonicalText, Verify;
    Verified(h, c1, r1, header);
    Verified(h, c2, r2, header);
    DictParts(c1);
    DictParts(c2);
    SameOrCollide(h, Obj(Body(c1)), Obj(Body(c2)));
    if SameValue(Obj(Body(c1)), Obj(Body(c2))) {
      BodyBinds(h, c1, r1, c2, r2, header);
      SameOrCollide(h, Obj(Upstream(c1)), Obj(Upstream(c2)));
      SameOrCollide(h, Obj(r1), Obj(r2));
      if SameValue(Obj(Upstream(c1)), Obj(Upstream(c2))) {
        WholeCompletion(h, c1, r1, c2, r2, header);
      }
    }
  }

  /** The fields a consistent verification against a header pins down. */
  lemma Verified(h: Hash, c: seq<Member>, r: seq<Member>, header: string)
    requires Verify(h, c, r, Some(header)) == Consistent
    ensures var receipt := ReceiptOf(c);
            && Get(receipt, "algorithm") == Some(Str("sha256"))
            && Get(receipt, "digest") == Some(Str(header)) && header == Sha(h, Obj(Body(c)))
            && Get(Body(c), "response_digest") == Some(Str(Sha(h, Obj(Upstream(c)))))
            && Get(Body(c), "request_digest") == Some(Str(Sha(h, Obj(r))))
  {
    hide ByteLength, Canonical, Without;
    ReceiptField(c, "response_digest");
    ReceiptField(c, "request_digest");
  }

  lemma BodyBinds(h: Hash, c1: seq<Member>, r1: seq<Member>, c2: seq<Member>, r2: seq<Member>, header: string)
    requires Verify(h, c1, r1, Some(header)) == Consistent && Verify(h, c2, r2, Some(header)) == Consistent
    requires SameValue(Obj(Body(c1)), Obj(Body(c2)))
    ensures Sha(h, Obj(Upstream(c1))) == Sha(h, Obj(Upstream(c2))) && Sha(h, Obj(r1)) == Sha(h, Obj(r2))
  {
    hide Verify;
    Verified(h, c1, r1, header);
    Verified(h, c2, r2, header);
    SameStr(Body(c1), Body(c2), "response_digest", Sha(h, Obj(Upstream(c1))));
    SameStr(Body(c1), Body(c2), "request_digest", Sha(h, Obj(r1)));
  }

  lemma SealedReceipt(a: seq<Member>, b: seq<Member>)
    requires UniqueKeys(a) && UniqueKeys(b)
    requires Get(a, "digest").Some? && Get(a, "digest") == Get(b, "digest")
    requires Get(a, "algorithm").Some? && Get(a, "algorithm") == Get(b, "algorithm")
    requires Get(a, "digest").value.Str? && Get(a, "algorithm").value.Str?
    requires SameValue(Obj(Without(a, {"digest", "algorithm"})), Obj(Without(b, {"digest", "algorithm"})))
    ensures SameValue(Obj(a), Obj(b))
  {
    hide Get, Without;
    forall k | k in {"digest", "algorithm"} ensures Agree(Get(a, k), Get(b, k)) {
      assert k == "digest" || k == "algorithm";
    }
    SameRejoin(a, b, {"digest", "algorithm"});
  }

  lemma WholeCompletion(h: Hash, c1: seq<Member>, r1: seq<Member>, c2: seq<Member>, r2: seq<Member>, header: string)
    requires Dict(c1) && Dict(c2)
    requires Verify(h, c1, r1, Some(header)) == Consistent && Verify(h, c2, r2, Some(header)) == Consistent
    requires SameValue(Obj(Body(c1)), Obj(Body(c2))) && SameValue(Obj(Upstream(c1)), Obj(Upstream(c2)))
    ensures SameValue(Obj(c1), Obj(c2))
  {
    hide Verify, Without, SameValue, Dict, Get, ReceiptOf;
    DictParts(c1);
    DictParts(c2);
    DictUnique(c1);
    DictUnique(c2);
    DictUnique(ReceiptOf(c1));
    DictUnique(ReceiptOf(c2));
    Verified(h, c1, r1, header);
    Verified(h, c2, r2, header);
    SealedReceipt(ReceiptOf(c1), ReceiptOf(c2));
    HoldsReceipt(c1);
    HoldsReceipt(c2);
    SameRejoin(c1, c2, {RECEIPT});
  }

  lemma DictUnique(ms: seq<Member>)
    requires Dict(ms)
    ensures UniqueKeys(ms)
  {
  }

  lemma HoldsReceipt(c: seq<Member>)
    requires Get(ReceiptOf(c), "digest").Some?
    ensures Get(c, RECEIPT) == Some(Obj(ReceiptOf(c)))
  {
  }

  // ----- parsing a bundle -----

  datatype Bundle = Bundle(completion: seq<Member>, request: seq<Member>)

  function BundleValue(b: Bundle): Json {
    Obj([Member("completion", Obj(b.completion)), Member("request", Obj(b.request))])
  }

  /** `parse_bundle`: None is every rejection. The parser keeps duplicate keys, which `Valid` refuses. */
  function ParseBundle(raw: string): Option<Bundle> {
    if ByteLength(raw) > MAX_VERIFICATION_BYTES then None
    else
      var j :- Parse(raw);
      if !Valid(j) || !WithinLimits(j, BUNDLE_DEPTH, BUNDLE_NODES) then None
      else match j
        case Obj(ms) =>
          if KeySet(ms) != {"completion", "request"} then None
          else (match (Get(ms, "completion"), Get(ms, "request"))
                case (Some(Obj(c)), Some(Obj(r))) => Some(Bundle(c, r))
                case _ => None)
        case _ => None
  }

  /** A printed bundle is accepted exactly when it is within the limits, and then every part is read
      back as the same value. */
  lemma BundleRoundTrip(b: Bundle)
    requires Dict(b.completion) && Dict(b.request)
    ensures var text := CanonicalText(BundleValue(b));
            ParseBundle(text).Some? <==>
              ByteLength(text) <= MAX_VERIFICATION_BYTES && WithinLimits(BundleValue(b), BUNDLE_DEPTH, BUNDLE_NODES)
    ensures match ParseBundle(CanonicalText(BundleValue(b)))
            case None => true
            case Some(p) => Dict(p.completion) && Dict(p.request)
                            && SameValue(Obj(b.completion), Obj(p.completion))
                            && SameValue(Obj(b.request), Obj(p.request))
  {
    hide ByteLength, SameValue;
    var j := BundleValue(b);
    ReparseCanonical(j, false);
    CanonMeasure(j);
    CanonBundle(b);
    SameAsCanon(Obj(b.completion));
    SameAsCanon(Obj(b.request));
  }

  lemma CanonBundle(b: Bundle)
    ensures Canon(BundleValue(b)) == Obj([Member("completion", Canon(Obj(b.completion))),
                                          Member("request", Canon(Obj(b.request)))])
    ensures var ms := Canon(BundleValue(b)).members;
            KeySet(ms) == {"completion", "request"}
            && Get(ms, "completion") == Some(Canon(Obj(b.completion)))
            && Get(ms, "request") == Some(Canon(Obj(b.request)))
  {
    var c, r := Member("completion", Canon(Obj(b.completion))), Member("request", Canon(Obj(b.request)));
    var ms := BundleValue(b).members;
    assert CanonMembers(ms) == [c, r];
    assert [c, r][1..] == [r] && [r][1..] == [];
    assert LexLess("completion", "request");
    assert SortMembers([r]) == [r];
    assert SortMembers([c, r]) == [c, r];
    assert [c, r][0].key in KeySet([c, r]) && [c, r][1].key in KeySet([c, r]);
  }

  // ----- construction and emission -----

  /** The parts of one served request that the gateway writes into the receipt. */
  datatype Served = Served(
    upstream: seq<Member>, request: seq<Member>, planDigest: string, providerId: string, publicModel: string,
    upstreamModel: string, classification: string, attempts: seq<Json>, elapsed: Json, identity: Option<Json>)
  {
    predicate WellFormed() {
      && Dict(upstream) && Dict(request) && Valid(elapsed)
      && (forall i :: 0 <= i < |attempts| ==> Valid(attempts[i]))
      && (identity.Some? ==> Valid(identity.value))
    }
  }

  function ReceiptBody(h: Hash, s: Served): seq<Member> {
    [Member("schema", Str(RECEIPT_SCHEMA)),
     Member("request_digest", Str(Sha(h, Obj(s.request)))),
     Member("plan_digest", Str(s.planDigest)),
     Member("provider_id", Str(s.providerId)),
     Member("public_model", Str(s.publicModel)),
     Member("upstream_model", Str(s.upstreamModel)),
     Member("classification", Str(s.classification)),
     Member("attempts", Arr(s.attempts)),
     Member("elapsed_ms", s.elapsed),
     Member("response_digest", Str(Sha(h, Obj(s.upstream)))),
     Member("secret_material_recorded", Bool(false))]
    + (if s.identity.Some? then [Member("model_identity", s.identity.value)] else [])
  }

  /** The receipt made of a body: the body, its digest and the algorithm name. */
  function Stamp(h: Hash, body: seq<Member>): seq<Member> { body + Seal(h, body) }

  function Seal(h: Hash, body: seq<Member>): seq<Member> {
    [Member("digest", Str(Sha(h, Obj(body)))), Member("algorithm", Str("sha256"))]
  }

  function Attach(h: Hash, upstream: seq<Member>, body: seq<Member>): seq<Member> {
    upstream + [Member(RECEIPT, Obj(Stamp(h, body)))]
  }

  /** `validate_completion` */
  predicate Usable(value: seq<Member>) {
    && (Get(value, "error") == None || Get(value, "error") == Some(Null))
    && !Has(value, RECEIPT)
    && match Get(value, "choices")
       case Some(Arr(choices)) => choices != [] && forall i :: 0 <= i < |choices| ==> UsableChoice(choices[i])
       case _ => false
  }

  predicate UsableChoice(choice: Json) {
    choice.Obj? && match Get(choice.members, "message")
    case Some(Obj(m)) =>
      && Get(m, "role") == Some(Str("assistant"))
      && (Has(m, "content") || Has(m, "refusal") || Has(m, "tool_calls") || Has(m, "function_call") || Has(m, "audio"))
      && NullOrText(Get(m, "content")) && NullOrText(Get(m, "refusal"))
      && (match Get(m, "tool_calls")
          case Some(Arr(calls)) => forall i :: 0 <= i < |calls| ==> calls[i].Obj? && calls[i].members != []
          case Some(other) => other.Null?
          case None => true)
    case _ => false
  }

  predicate NullOrText(v: Option<Json>) { v.None? || v.value.Null? || v.value.Str? }

  /** A fault for which an upstream's answer is not accepted. */
  ghost predicate Unusable(value: seq<Member>) {
    || (exists e :: Get(value, "error") == Some(e) && e != Null)
    || Get(value, "szl_receipt") != None
    || (forall choices :: Get(value, "choices") == Some(Arr(choices)) ==>
          choices == [] || exists c :: c in choices && BadChoice(c))
  }

  /** A choice that holds no assistant message with some output, or one whose output is malformed. */
  ghost predicate BadChoice(choice: Json) {
    forall ms, m :: choice == Obj(ms) && Get(ms, "message") == Some(Obj(m)) ==>
      || Get(m, "role") != Some(Str("assistant"))
      || (Get(m, "content") == None && Get(m, "refusal") == None && Get(m, "tool_calls") == None
          && Get(m, "function_call") == None && Get(m, "audio") == None)
      || NotText(Get(m, "content")) || NotText(Get(m, "refusal")) || BadCalls(Get(m, "tool_calls"))
  }

  predicate NotText(v: Option<Json>) {
    match v
    case Some(Bool(_)) => true
    case Some(Int(_)) => true
    case Some(Float(_)) => true
    case Some(Arr(_)) => true
    case Some(Obj(_)) => true
    case _ => false
  }

  ghost predicate BadCalls(v: Option<Json>) {
    match v
    case Some(Arr(calls)) => exists c :: c in calls && (c == Obj([]) || !c.Obj?)
    case Some(Null) => false
    case Some(_) => true
    case None => false
  }

  /** The check accepts exactly the answers without a fault. */
  lemma UsableExact(value: seq<Member>)
    ensures Usable(value) <==> !Unusable(value)
  {
    hide Get;
    match Get(value, "choices") {
      case Some(Arr(choices)) =>
        forall c | c in choices ensures UsableChoice(c) <==> !BadChoice(c) { ChoiceExact(c); }
        hide UsableChoice, BadChoice;
        assert forall i :: 0 <= i < |choices| ==> choices[i] in choices;
      case _ =>
    }
  }

  lemma ChoiceExact(choice: Json)
    ensures UsableChoice(choice) <==> !BadChoice(choice)
  {
    hide Get;
    if choice.Obj? {
      match Get(choice.members, "message") {
        case Some(Obj(m)) =>
          CallsExact(m);
          assert BadChoice(choice) <==>
              || Get(m, "role") != Some(Str("assistant"))
              || (Get(m, "content") == None && Get(m, "refusal") == None && Get(m, "tool_calls") == None
                  && Get(m, "function_call") == None && Get(m, "audio") == None)
              || NotText(Get(m, "content")) || NotText(Get(m, "refusal")) || BadCalls(Get(m, "tool_calls"));
        case _ =>
      }
    }
  }

  lemma CallsExact(m: seq<Member>)
    ensures !BadCalls(Get(m, "tool_calls")) <==>
            match Get(m, "tool_calls")
            case Some(Arr(calls)) => forall i :: 0 <= i < |calls| ==> calls[i].Obj? && calls[i].members != []
            case Some(other) => other.Null?
            case None => true
  {
    hide Get;
    match Get(m, "tool_calls") {
      case Some(Arr(calls)) =>
        assert forall i :: 0 <= i < |calls| ==> calls[i] in calls;
      case _ =>
    }
  }

  /** The part of `chat` after a provider answered: the emitted completion and its header value. */
  function Respond(h: Hash, s: Served): Option<(seq<Member>, string)> {
    EmitWith(h, s.upstream, s.request, ReceiptBody(h, s))
  }

  function EmitWith(h: Hash, upstream: seq<Member>, request: seq<Member>,
                    body: seq<Member>): Option<(seq<Member>, string)> {
    if !Usable(upstream) then None
    else
      var result := Attach(h, upstream, body);
      var parsed :- ParseBundle(CanonicalText(BundleValue(Bundle(result, request))));
      if Verify(h, parsed.completion, parsed.request, None) != Consistent then None
      else Some((result, Sha(h, Obj(body))))
  }

  lemma {:induction false} GetAppended(ms: seq<Member>, more: seq<Member>, k: string)
    ensures Get(ms + more, k) == if Has(ms, k) then Get(ms, k) else Get(more, k)
  {
    if ms == [] {
      assert ms + more == more;
    } else {
      assert (ms + more)[1..] == ms[1..] + more;
      GetAppended(ms[1..], more, k);
    }
  }

  /** What the proofs below use of a receipt body. */
  predicate BodyFor(h: Hash, upstream: seq<Member>, request: seq<Member>, body: seq<Member>) {
    && Dict(body) && (forall m :: m in body ==> m.key != "digest" && m.key != "algorithm")
    && Get(body, "schema") == Some(Str(RECEIPT_SCHEMA))
    && Get(body, "request_digest") == Some(Str(Sha(h, Obj(request))))
    && Get(body, "response_digest") == Some(Str(Sha(h, Obj(upstream))))
  }

  /** Which of the receipt's fields a key names, told from its length and first letters. */
  function Place(key: string): int
    requires |key| >= 2
  {
    if |key| == 14 then (if key[0] == 'r' then 1 else if key[0] == 'u' then 5 else if key[0] == 'c' then 6 else 11)
    else if |key| == 11 then (if key[1] == 'l' then 2 else 3)
    else if |key| <= 8 then (if |key| == 6 then 0 else 7)
    else if |key| <= 12 then (if |key| == 10 then 8 else 4)
    else if |key| == 15 then 9 else 10
  }

  lemma BodyPlaces(h: Hash, s: Served)
    ensures var b := ReceiptBody(h, s);
            forall i :: 0 <= i < |b| ==> |b[i].key| >= 2 && Place(b[i].key) == i
  {
    hide Sha;
  }

  lemma BodyNotSealed(h: Hash, s: Served)
    ensures forall m :: m in ReceiptBody(h, s) ==> m.key != "digest" && m.key != "algorithm"
  {
    hide Sha;
    var b := ReceiptBody(h, s);
    assert forall i :: 0 <= i < |b| ==> (|b[i].key| != 6 || b[i].key[0] == 's') && |b[i].key| != 9;
  }

  lemma BodyValues(h: Hash, s: Served)
    requires s.WellFormed()
    ensures var b := ReceiptBody(h, s); forall i :: 0 <= i < |b| ==> Valid(b[i].value)
  {
    hide Sha;
  }

  lemma BodyFields(h: Hash, s: Served, b: seq<Member>)
    requires b == ReceiptBody(h, s) && UniqueKeys(b)
    ensures Get(b, "schema") == Some(Str(RECEIPT_SCHEMA))
    ensures Get(b, "request_digest") == Some(Str(Sha(h, Obj(s.request))))
    ensures Get(b, "response_digest") == Some(Str(Sha(h, Obj(s.upstream))))
  {
    hide Sha, Get, UniqueKeys;
    assert b[0] == Member("schema", Str(RECEIPT_SCHEMA));
    assert b[1] == Member("request_digest", Str(Sha(h, Obj(s.request))));
    assert b[9] == Member("response_digest", Str(Sha(h, Obj(s.upstream))));
    hide ReceiptBody;
    GetAt(b, 0);
    GetAt(b, 1);
    GetAt(b, 9);
  }

  lemma BodyIsReceiptBody(h: Hash, s: Served)
    requires s.WellFormed()
    ensures BodyFor(h, s.upstream, s.request, ReceiptBody(h, s))
  {
    hide ReceiptBody, Sha, Get;
    BodyPlaces(h, s);
    BodyNotSealed(h, s);
    BodyValues(h, s);
    BodyFields(h, s, ReceiptBody(h, s));
  }

  lemma StampedDict(h: Hash, body: seq<Member>)
    requires Dict(body) && forall m :: m in body ==> m.key != "digest" && m.key != "algorithm"
    ensures Dict(Stamp(h, body)) && Without(Stamp(h, body), {"digest", "algorithm"}) == body
  {
    StampIsDict(h, body);
    hide Valid, Dict, Sha, Without;
    WithoutAppended(body, Seal(h, body), {"digest", "algorithm"});
  }

  lemma StampIsDict(h: Hash, body: seq<Member>)
    requires Dict(body) && forall m :: m in body ==> m.key != "digest" && m.key != "algorithm"
    ensures Dict(Stamp(h, body))
  {
    var all, n := Stamp(h, body), |body|;
    assert all[n].key == "digest" && all[n + 1].key == "algorithm" && "digest"[0] != "algorithm"[0];
    assert Valid(all[n].value) && Valid(all[n + 1].value);
    assert forall i :: 0 <= i < n ==> all[i] == body[i] && body[i] in body;
    assert UniqueKeys(all);
  }

  lemma AttachedDict(h: Hash, upstream: seq<Member>, body: seq<Member>)
    requires Dict(upstream) && !Has(upstream, RECEIPT) && Dict(Stamp(h, body))
    ensures var c := Attach(h, upstream, body);
            Dict(c) && ReceiptOf(c) == Stamp(h, body) && Upstream(c) == upstream
  {
    hide Stamp;
    var more := [Member(RECEIPT, Obj(Stamp(h, body)))];
    GetAppended(upstream, more, RECEIPT);
    WithoutAppended(upstream, more, {RECEIPT});
    assert forall i :: 0 <= i < |upstream| ==> upstream[i] in upstream;
  }

  /** A built completion passes every digest check, with and without its header. */
  lemma BuiltChecks(h: Hash, upstream: seq<Member>, request: seq<Member>, body: seq<Member>, header: Option<string>)
    requires Dict(upstream) && !Has(upstream, RECEIPT) && BodyFor(h, upstream, request, body)
    requires header == None || header == Some(Sha(h, Obj(body)))
    ensures Dict(Attach(h, upstream, body)) && Check(h, Attach(h, upstream, body), request, header).All()
  {
    StampedDict(h, body);
    AttachedDict(h, upstream, body);
    GetAppended(body, Seal(h, body), "schema");
    GetAppended(body, Seal(h, body), "request_digest");
    GetAppended(body, Seal(h, body), "response_digest");
    GetAppended(body, Seal(h, body), "digest");
    GetAppended(body, Seal(h, body), "algorithm");
  }

  predicate WithinEmissionLimits(completion: seq<Member>, request: seq<Member>) {
    var bundle := BundleValue(Bundle(completion, request));
    && ByteLength(CanonicalText(bundle)) <= MAX_VERIFICATION_BYTES
    && WithinLimits(bundle, BUNDLE_DEPTH, BUNDLE_NODES)
    && ByteLength(CanonicalText(Obj(completion))) <= MAX_COMPLETION_BYTES
  }

  /** Re-verifying the parsed bundle gives the verdict on the original. */
  lemma ReverifyParsed(h: Hash, c: seq<Member>, r: seq<Member>)
    requires Dict(c) && Dict(r)
    ensures match ParseBundle(CanonicalText(BundleValue(Bundle(c, r))))
            case None => true
            case Some(p) => Verify(h, p.completion, p.request, None) == Verify(h, c, r, None)
  {
    BundleRoundTrip(Bundle(c, r));
    match ParseBundle(CanonicalText(BundleValue(Bundle(c, r)))) {
      case None =>
      case Some(p) => VerifyIgnoresOrder(h, c, r, p.completion, p.request, None);
    }
  }

  lemma EmitWithIff(h: Hash, upstream: seq<Member>, request: seq<Member>, body: seq<Member>)
    requires Dict(upstream) && Dict(request) && BodyFor(h, upstream, request, body)
    ensures EmitWith(h, upstream, request, body).Some?
       <==> Usable(upstream) && WithinEmissionLimits(Attach(h, upstream, body), request)
  {
    hide ByteLength, Canonical, WithinLimits, Check, BodyFor, SameValue, Valid;
    if Usable(upstream) {
      BuiltChecks(h, upstream, request, body, None);
      BundleRoundTrip(Bundle(Attach(h, upstream, body), request));
      ReverifyParsed(h, Attach(h, upstream, body), request);
    }
  }

  /** Only unusable answers and the size limits stop an emission: the final self-check never finds a
      digest that does not match. */
  lemma EmittedIff(h: Hash, s: Served)
    requires s.WellFormed()
    ensures Respond(h, s).Some?
       <==> Usable(s.upstream) && WithinEmissionLimits(Attach(h, s.upstream, ReceiptBody(h, s)), s.request)
  {
    BodyIsReceiptBody(h, s);
    EmitWithIff(h, s.upstream, s.request, ReceiptBody(h, s));
  }

  lemma EmitWithVerifies(h: Hash, upstream: seq<Member>, request: seq<Member>, body: seq<Member>,
                         header: Option<string>)
    requires Dict(upstream) && Dict(request) && BodyFor(h, upstream, request, body)
    requires EmitWith(h, upstream, request, body).Some?
    requires header == None || header == Some(EmitWith(h, upstream, request, body).value.1)
    ensures var c := EmitWith(h, upstream, request, body).value.0;
            Dict(c) && Verify(h, c, request, header) == Consistent
  {
    hide Canonical, ByteLength, Check, BodyFor, Valid;
    EmitWithIff(h, upstream, request, body);
    BuiltChecks(h, upstream, request, body, header);
  }

  /** Whatever a client parses from any printed form of an emitted completion and its request verifies
      as consistent, with the emitted header and without one. */
  lemma EmittedVerifies(h: Hash, s: Served, c': seq<Member>, r': seq<Member>, header: Option<string>)
    requires s.WellFormed() && Respond(h, s).Some?
    requires header == None || header == Some(Respond(h, s).value.1)
    requires Dict(c') && Dict(r')
    requires SameValue(Obj(Respond(h, s).value.0), Obj(c')) && SameValue(Obj(s.request), Obj(r'))
    ensures Verify(h, c', r', header) == Consistent
  {
    BodyIsReceiptBody(h, s);
    EmitWithVerifies(h, s.upstream, s.request, ReceiptBody(h, s), header);
    VerifyIgnoresOrder(h, Respond(h, s).value.0, s.request, c', r', header);
  }

  // ----- what an emitted receipt says -----

  lemma FieldAt(h: Hash, s: Served, i: nat, k: string)
    requires i < |ReceiptBody(h, s)| && UniqueKeys(ReceiptBody(h, s)) && ReceiptBody(h, s)[i].key == k
    ensures Get(ReceiptBody(h, s), k) == Some(ReceiptBody(h, s)[i].value)
  {
    hide ReceiptBody, Get;
    GetAt(ReceiptBody(h, s), i);
  }

  /** Where the answer came from, read from a receipt. */
  predicate Origin(s: Served, ms: seq<Member>) {
    && Get(ms, "plan_digest") == Some(Str(s.planDigest))
    && Get(ms, "provider_id") == Some(Str(s.providerId))
    && Get(ms, "public_model") == Some(Str(s.publicModel))
    && Get(ms, "upstream_model") == Some(Str(s.upstreamModel))
    && Get(ms, "classification") == Some(Str(s.classification))
  }

  lemma BodyOrigin(h: Hash, s: Served)
    requires UniqueKeys(ReceiptBody(h, s))
    ensures Origin(s, ReceiptBody(h, s))
  {
    hide Get, Sha, UniqueKeys;
    var b := ReceiptBody(h, s);
    assert b[2].key == "plan_digest" && b[3].key == "provider_id" && b[4].key == "public_model";
    assert b[5].key == "upstream_model" && b[6].key == "classification";
    FieldAt(h, s, 2, "plan_digest");
    FieldAt(h, s, 3, "provider_id");
    FieldAt(h, s, 4, "public_model");
    FieldAt(h, s, 5, "upstream_model");
    FieldAt(h, s, 6, "classification");
  }

  /** What happened on the way, read from a receipt. */
  predicate Course(s: Served, ms: seq<Member>) {
    && Get(ms, "attempts") == Some(Arr(s.attempts))
    && Get(ms, "elapsed_ms") == Some(s.elapsed)
    && Get(ms, "secret_material_recorded") == Some(Bool(false))
    && Get(ms, "model_identity") == s.identity
  }

  lemma BodyCourse(h: Hash, s: Served)
    requires UniqueKeys(ReceiptBody(h, s))
    ensures Course(s, ReceiptBody(h, s))
  {
    BodyIdentity(h, s);
    hide Get, Sha, UniqueKeys;
    var b := ReceiptBody(h, s);
    assert b[7].key == "attempts" && b[8].key == "elapsed_ms" && b[10].key == "secret_material_recorded";
    FieldAt(h, s, 7, "attempts");
    FieldAt(h, s, 8, "elapsed_ms");
    FieldAt(h, s, 10, "secret_material_recorded");
  }

  /** A key that every receipt holds before it is sealed. */
  predicate FixedKey(k: string) {
    || k == "schema" || k == "request_digest" || k == "plan_digest" || k == "provider_id" || k == "public_model"
    || k == "upstream_model" || k == "classification" || k == "attempts" || k == "elapsed_ms"
    || k == "response_digest" || k == "secret_material_recorded"
  }

  lemma FixedKeyShape(k: string)
    requires FixedKey(k)
    ensures k != "model_identity"
  {
    assert |k| == 14 ==> k[0] != 'm';
  }

  lemma BodyKeys(h: Hash, s: Served, i: nat)
    requires i < |ReceiptBody(h, s)|
    ensures FixedKey(ReceiptBody(h, s)[i].key) || s.identity == Some(ReceiptBody(h, s)[i].value)
    ensures !FixedKey(ReceiptBody(h, s)[i].key) ==> ReceiptBody(h, s)[i].key == "model_identity"
  {
    hide Sha;
    var b := ReceiptBody(h, s);
  }

  /** A local model's identity is in the receipt body exactly when there is one. */
  lemma BodyIdentity(h: Hash, s: Served)
    requires UniqueKeys(ReceiptBody(h, s))
    ensures Get(ReceiptBody(h, s), "model_identity") == s.identity
  {
    var b := ReceiptBody(h, s);
    if s.identity.Some? {
      assert b[11] == Member("model_identity", s.identity.value);
      hide *;
      FieldAt(h, s, 11, "model_identity");
    } else {
      hide ReceiptBody, Get, FixedKey, Sha, UniqueKeys;
      if Get(b, "model_identity").Some? {
        var i :| 0 <= i < |b| && b[i].key == "model_identity";
        BodyKeys(h, s, i);
        FixedKeyShape(b[i].key);
      }
    }
  }

  lemma StampOrigin(h: Hash, s: Served, body: seq<Member>)
    requires Origin(s, body)
    ensures Origin(s, Stamp(h, body))
  {
    hide Get, Seal;
    GetAppended(body, Seal(h, body), "plan_digest");
    GetAppended(body, Seal(h, body), "provider_id");
    GetAppended(body, Seal(h, body), "public_model");
    GetAppended(body, Seal(h, body), "upstream_model");
    GetAppended(body, Seal(h, body), "classification");
  }

  lemma StampCourse(h: Hash, s: Served, body: seq<Member>)
    requires Course(s, body)
    ensures Course(s, Stamp(h, body))
  {
    var seal := Seal(h, body);
    assert Get(seal, "model_identity") == None by {
      assert seal[0].key == "digest" && seal[1].key == "algorithm" && |"model_identity"| == 14;
    }
    hide Get, Seal;
    GetAppended(body, seal, "attempts");
    GetAppended(body, seal, "elapsed_ms");
    GetAppended(body, seal, "secret_material_recorded");
    GetAppended(body, seal, "model_identity");
  }

  /** The digests of a receipt, over the request, the upstream's answer and the receipt's own body. */
  predicate Sealed(h: Hash, s: Served, ms: seq<Member>, header: string) {
    && Get(ms, "schema") == Some(Str("szl.router-receipt/v1"))
    && Get(ms, "request_digest") == Some(Str(h(CanonicalText(Obj(s.request)))))
    && Get(ms, "response_digest") == Some(Str(h(CanonicalText(Obj(s.upstream)))))
    && Get(ms, "algorithm") == Some(Str("sha256"))
    && Get(ms, "digest") == Some(Str(header))
    && header == h(CanonicalText(Obj(Without(ms, {"digest", "algorithm"}))))
  }

  lemma SealLookup(h: Hash, body: seq<Member>)
    ensures Get(Seal(h, body), "digest") == Some(Str(Sha(h, Obj(body))))
    ensures Get(Seal(h, body), "algorithm") == Some(Str("sha256"))
  {
    hide Sha;
    var seal := Seal(h, body);
    assert seal[0].key == "digest" && seal[1].key == "algorithm" && "digest"[0] != "algorithm"[0];
    assert seal[1..] == [seal[1]];
  }

  lemma StampSealed(h: Hash, s: Served, body: seq<Member>)
    requires BodyFor(h, s.upstream, s.request, body)
    ensures Sealed(h, s, Stamp(h, body), Sha(h, Obj(body)))
  {
    hide Get, Without, CanonicalText, Seal, Valid;
    StampedDict(h, body);
    SealLookup(h, body);
    var seal := Seal(h, body);
    GetAppended(body, seal, "schema");
    GetAppended(body, seal, "request_digest");
    GetAppended(body, seal, "response_digest");
    GetAppended(body, seal, "digest");
    GetAppended(body, seal, "algorithm");
  }

  predicate ReceiptKey(k: string) { FixedKey(k) || k == "model_identity" || k == "digest" || k == "algorithm" }

  lemma StampKeys(h: Hash, s: Served)
    ensures forall m :: m in Stamp(h, ReceiptBody(h, s)) ==> ReceiptKey(m.key)
  {
    var b := ReceiptBody(h, s);
    forall m | m in Stamp(h, b) ensures ReceiptKey(m.key) {
      if m in b {
        hide *;
        var i :| 0 <= i < |b| && b[i] == m;
        BodyKeys(h, s, i);
      } else {
        assert m in Seal(h, b);
      }
    }
  }

  /** What the receipt of one served answer says, field by field, and that it says nothing more. */
  ghost predicate Records(h: Hash, s: Served, receipt: seq<Member>, header: string) {
    && Dict(receipt) && Sealed(h, s, receipt, header) && Origin(s, receipt) && Course(s, receipt)
    && (forall m :: m in receipt ==> ReceiptKey(m.key))
  }

  lemma StampRecords(h: Hash, s: Served)
    requires s.WellFormed()
    ensures Records(h, s, Stamp(h, ReceiptBody(h, s)), Sha(h, Obj(ReceiptBody(h, s))))
  {
    hide ReceiptBody, Stamp, Get, Sealed, Origin, Course, Sha, ReceiptKey, Valid;
    var b := ReceiptBody(h, s);
    BodyIsReceiptBody(h, s);
    DictUnique(b);
    BodyOrigin(h, s);
    BodyCourse(h, s);
    StampedDict(h, b);
    StampOrigin(h, s, b);
    StampCourse(h, s, b);
    StampSealed(h, s, b);
    StampKeys(h, s);
  }

  /** An emitted completion is the upstream's answer with one member added: the receipt that says exactly
      where the answer came from. */
  lemma EmittedFields(h: Hash, s: Served)
    requires s.WellFormed() && Respond(h, s).Some?
    ensures var (c, header) := Respond(h, s).value;
            && c == s.upstream + [Member("szl_receipt", Obj(ReceiptOf(c)))]
            && Get(s.upstream, "szl_receipt") == None && Records(h, s, ReceiptOf(c), header)
  {
    hide ReceiptBody, Records, Sha, Valid, ParseBundle, Verify, Canonical, Stamp, BundleValue;
    StampRecords(h, s);
    GetAppended(s.upstream, [Member(RECEIPT, Obj(Stamp(h, ReceiptBody(h, s))))], RECEIPT);
  }
}
