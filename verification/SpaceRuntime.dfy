/** What the publisher reads off the provider's runtime answer and the three endpoints of the running Space. */
module SpaceRuntime {
  import opened Json
  import opened JsonObject

  const TRANSIENT: set<string> :=
    {"BUILDING", "APP_STARTING", "STARTING", "QUEUED", "PENDING", "RESTARTING", "RUNNING_BUILDING",
     "RUNNING_APP_STARTING"}
  const TERMINAL: set<string> := {"BUILD_ERROR", "RUNTIME_ERROR", "CONFIG_ERROR", "ERROR", "STOPPED"}

  /** How one `_request_json` ends: an object, a refusal with its code, or another exception. */
  datatype Fetched = Object(members: seq<Member>) | Failed(code: string) | Raised

  /** What the four requests of one pass of the poll would answer. */
  datatype Look = Look(runtime: Fetched, deployment: Fetched, ready: Fetched, inference: Fetched)

  datatype Verdict = Yes | Later | Refuse(code: string) | Raise

  predicate IsSha(s: string) {
    |s| == 40 && forall i :: 0 <= i < 40 ==> '0' <= s[i] <= '9' || 'a' <= s[i] <= 'f'
  }

  /** Forty digits and letters from a to f, by their codes. */
  lemma ShaExact(s: string)
    ensures IsSha(s) <==>
            |s| == 40 && forall i :: 0 <= i < |s| ==> 48 <= s[i] as int <= 57 || 97 <= s[i] as int <= 102
  {
  }

  /** A failed request is tried again on the next pass if nothing but the answer itself was wrong. */
  function FailedVerdict(f: Fetched): Verdict
    requires !f.Object?
  {
    match f
    case Failed(code) => if code in {"HTTP_WITNESS_REJECTED", "HTTP_WITNESS_UNAVAILABLE"} then Later else Refuse(code)
    case Raised => Raise
  }

  /** Python's `d.get(key)`: JSON null and a missing key are the same. */
  function Field(ms: seq<Member>, key: string): Json { match Get(ms, key) case Some(v) => v case None => Null }

  function StageVerdict(stage: Json): Verdict {
    match stage
    case Null => Later
    case Str(s) =>
      if s in TERMINAL || s == "NO_APP_FILE" then Refuse("SPACE_RUNTIME_TERMINAL")
      else if s in TRANSIENT || s == "PAUSED" then Later
      else if s == "RUNNING" then Yes
      else Refuse("SPACE_RUNTIME_UNKNOWN")
    case Arr(_) => Raise
    case Obj(_) => Raise
    case _ => Refuse("SPACE_RUNTIME_UNKNOWN")
  }

  /** `_runtime_aligned` */
  function Aligned(f: Fetched, revision: string): Verdict {
    match f
    case Object(ms) =>
      (match Field(ms, "sha")
       case Null => Later
       case Str(s) =>
         if !IsSha(s) then Refuse("SPACE_RUNTIME_SHA_INVALID")
         else if s != revision then Later
         else StageVerdict(Field(ms, "stage"))
       case _ => Refuse("SPACE_RUNTIME_SHA_INVALID"))
    case _ => FailedVerdict(f)
  }

  /** The provider says that exactly this revision is running. */
  predicate Running(f: Fetched, revision: string) {
    f.Object? && Field(f.members, "sha") == Str(revision) && Field(f.members, "stage") == Str("RUNNING")
  }

  /** The ordered checks pass exactly on an answer that names this revision and says it is running. */
  lemma AlignedExact(f: Fetched, revision: string)
    requires IsSha(revision)
    ensures Aligned(f, revision) == Yes <==> Running(f, revision)
  {
    hide Get, IsSha;
  }

  /** The fields that `_witness` compares, in its order. */
  function Mismatch(l: Look, source: string): bool
    requires l.deployment.Object? && l.ready.Object? && l.inference.Object?
  {
    var (d, r, i) := (l.deployment.members, l.ready.members, l.inference.members);
    || Field(d, "schema") != Str("szl.router-deployment/v1")
    || Field(d, "source_revision") != Str(source)
    || Field(d, "egress_enabled") != Bool(false)
    || Field(d, "registry_state") != Str("UNAVAILABLE_NOT_CONFIGURED")
    || Field(r, "status") != Str("ready")
    || Field(r, "scope") != Str("CONTROL_PLANE")
    || Field(r, "egress_enabled") != Bool(false)
    || Field(i, "ready_for_requests") != Bool(false)
    || Field(i, "inference_witness") != Str("UNAVAILABLE")
  }

  /** `_witness`: the three requests in order, then the comparison. */
  function Witness(l: Look, source: string): Verdict {
    if !l.deployment.Object? then FailedVerdict(l.deployment)
    else if !l.ready.Object? then FailedVerdict(l.ready)
    else if !l.inference.Object? then FailedVerdict(l.inference)
    else if Mismatch(l, source) then Refuse("SPACE_RUNTIME_CONTRACT_MISMATCH")
    else Yes
  }

  predicate Says(f: Fetched, key: string, value: Json) { f.Object? && Field(f.members, key) == value }

  /** All three endpoints answered: this source revision is deployed and ready as a control plane, with no
      egress and no inference. */
  predicate Attests(l: Look, source: string) {
    && Says(l.deployment, "schema", Str("szl.router-deployment/v1"))
    && Says(l.deployment, "source_revision", Str(source))
    && Says(l.deployment, "registry_state", Str("UNAVAILABLE_NOT_CONFIGURED"))
    && Says(l.ready, "status", Str("ready")) && Says(l.ready, "scope", Str("CONTROL_PLANE"))
    && Says(l.inference, "inference_witness", Str("UNAVAILABLE"))
    && Says(l.inference, "ready_for_requests", Bool(false))
    && Says(l.deployment, "egress_enabled", Bool(false)) && Says(l.ready, "egress_enabled", Bool(false))
  }

  lemma WitnessExact(l: Look, source: string)
    ensures Witness(l, source) == Yes <==> Attests(l, source)
  {
    hide Field;
  }

  // ----- one whole pass -----

  /** `_runtime_aligned` and then, if it says yes, `_witness`. */
  function PassVerdict(l: Look, revision: string, source: string): Verdict {
    var aligned := Aligned(l.runtime, revision);
    if aligned == Yes then Witness(l, source) else aligned
  }

  /** What each stage of the published revision means for the poll. */
  lemma StageExact(stage: Json)
    ensures StageVerdict(stage) == Yes <==> stage == Str("RUNNING")
    ensures StageVerdict(stage) == Later <==> Building(stage)
    ensures StageVerdict(stage) == Raise <==> stage.Arr? || stage.Obj?
    ensures StageVerdict(stage) == Refuse("SPACE_RUNTIME_TERMINAL") <==> Ended(stage)
    ensures StageVerdict(stage) == Refuse("SPACE_RUNTIME_UNKNOWN") <==>
            !stage.Arr? && !stage.Obj? && stage != Str("RUNNING") && !Building(stage) && !Ended(stage)
  {
    StageNames(if stage.Str? then stage.s else "");
    assert "SPACE_RUNTIME_TERMINAL"[14] != "SPACE_RUNTIME_UNKNOWN"[14];
  }

  /** The Space is on its way, or paused, or the provider does not say. */
  predicate Building(stage: Json) {
    || stage == Null || stage == Str("BUILDING") || stage == Str("APP_STARTING") || stage == Str("STARTING")
    || stage == Str("QUEUED") || stage == Str("PENDING") || stage == Str("RESTARTING")
    || stage == Str("RUNNING_BUILDING") || stage == Str("RUNNING_APP_STARTING") || stage == Str("PAUSED")
  }

  /** The Space will not run without a new build. */
  predicate Ended(stage: Json) {
    || stage == Str("BUILD_ERROR") || stage == Str("RUNTIME_ERROR") || stage == Str("CONFIG_ERROR")
    || stage == Str("ERROR") || stage == Str("STOPPED") || stage == Str("NO_APP_FILE")
  }

  lemma StageNames(s: string)
    ensures Ended(Str(s)) ==> !Building(Str(s)) && s != "RUNNING"
    ensures Building(Str(s)) ==> s != "RUNNING"
  {
    if Ended(Str(s)) {
      assert |s| in {5, 7, 11, 12, 13};
      assert |s| == 5 ==> s[0] == 'E';
      assert |s| == 7 ==> s[0] == 'S' && s[2] == 'O';
      assert |s| == 11 ==> s[0] == 'B' || s[0] == 'N';
      assert |s| == 12 ==> s[0] == 'C';
      assert |s| == 13 ==> s[0] == 'R';
    }
    if Building(Str(s)) {
      assert |s| == 7 ==> s[0] == 'P';
    }
  }

  /** No usable answer, for a reason that another pass may cure. */
  predicate Unanswered(f: Fetched) { f == Failed("HTTP_WITNESS_REJECTED") || f == Failed("HTTP_WITNESS_UNAVAILABLE") }

  /** The provider does not yet name this revision, or names it as not yet running. */
  predicate NotYet(f: Fetched, revision: string) {
    || Unanswered(f)
    || (f.Object? && match Field(f.members, "sha")
       case Null => true
       case Str(s) => IsSha(s) && (s != revision || Building(Field(f.members, "stage")))
       case _ => false)
  }

  /** The first endpoint, in the order they are asked, that gave no object may still give one. */
  predicate Unwitnessed(l: Look) {
    || Unanswered(l.deployment)
    || (l.deployment.Object? && Unanswered(l.ready))
    || (l.deployment.Object? && l.ready.Object? && Unanswered(l.inference))
  }

  /** The poll goes on after exactly these passes and succeeds on exactly those. */
  lemma PassExact(l: Look, revision: string, source: string)
    requires IsSha(revision)
    ensures PassVerdict(l, revision, source) == Later <==>
            NotYet(l.runtime, revision) || (Running(l.runtime, revision) && Unwitnessed(l))
    ensures PassVerdict(l, revision, source) == Yes <==> Running(l.runtime, revision) && Attests(l, source)
  {
    AlignedExact(l.runtime, revision);
    AlignedLater(l.runtime, revision);
    WitnessExact(l, source);
    WitnessLater(l, source);
    hide Aligned, Running, NotYet, Attests, Witness, Unwitnessed, IsSha;
    assert Running(l.runtime, revision) ==> Aligned(l.runtime, revision) == Yes;
  }

  lemma AlignedLater(f: Fetched, revision: string)
    requires IsSha(revision)
    ensures Aligned(f, revision) == Later <==> NotYet(f, revision)
  {
    hide Get, IsSha, Building;
    if f.Object? {
      StageExact(Field(f.members, "stage"));
    }
    hide StageVerdict;
  }

  lemma WitnessLater(l: Look, source: string)
    ensures Witness(l, source) == Later <==> Unwitnessed(l)
  {
    hide Mismatch;
  }
}
