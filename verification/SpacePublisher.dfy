/** Publishing the control Space: a receipt written ahead of every remote effect. */
module SpacePublisher {
  import opened SpaceRuntime
  import opened Text

  type Bytes = seq<Byte>

  const METADATA := ".gitattributes"
  const MAX_FILE_BYTES: nat := 131072

  datatype Status = Blocked | Unsure | Measured

  /** How a remote call is recorded; `Unknown` from before it is sent until its answer is in. */
  datatype CallOutcome = NotAttempted | Unknown | Returned

  datatype Phase = Preflight | CreateRequested | Created | UploadRequested | Uploaded | FilesVerified | RuntimeVerified

  datatype Receipt = Receipt(
    status: Status, phase: Phase, creation: CallOutcome, write: CallOutcome, cardValidated: bool, spaceCreated: bool,
    parent: Option<string>, published: Option<string>, fileReadback: bool, failure: Option<string>)

  /** The groups of remote checks that change nothing. */
  datatype Gate =
    | Admissible         // token, source files, protected main, image and card, before anything else
    | Found              // the Space was found, or looked up again after its creation
    | Identified         // the Space found is the target, at a revision
    | Writable           // visibility, permission, metadata and protected main, before the upload
    | Landed             // after the upload the Space is at the published revision
    | StillAt(pass: nat) // the same at the start of a pass of the poll
    | Unmoved            // protected main is where it was, after the poll

  /** What really happened to the remote side so far. `readBack` holds the revision whose files were all read
      back equal; `aligned` and `witnessed` the passes of the poll whose answers showed the revision running
      and the endpoints in order; `passed` the checks that passed. */
  datatype Effects = Effects(
    createRequested: bool, createReturned: bool, uploadRequested: bool, uploadReturned: Option<string>,
    readBack: Option<string>, aligned: Option<nat>, witnessed: Option<nat>, passed: set<Gate>)

  const NO_EFFECTS := Effects(false, false, false, None, None, None, None, {})

  /** Nothing is done before the checks that guard it. */
  predicate Guarded(e: Effects) {
    && (e.createRequested ==> Admissible in e.passed)
    && (e.uploadRequested ==> Admissible in e.passed && Found in e.passed && Identified in e.passed
                              && Writable in e.passed)
    && (e.readBack.Some? ==> Landed in e.passed)
    && (e.aligned.Some? ==> StillAt(e.aligned.value) in e.passed)
    && (Unmoved in e.passed ==> e.witnessed.Some?)
  }

  /** The source revision being published, and what the provider and the Space will answer on each pass of
      the poll. */
  datatype World = World(source: string, looks: nat -> Look)

  /** On pass `n` the provider named this revision as running and all endpoints attested the source. */
  predicate Shown(w: World, n: nat, revision: string) {
    Running(w.looks(n).runtime, revision) && Attests(w.looks(n), w.source)
  }

  /** The phase a receipt is in before the last one, told from what it says was done. */
  function PhaseOf(r: Receipt): Phase {
    if r.fileReadback then FilesVerified
    else match r.write
      case Returned => Uploaded
      case Unknown => UploadRequested
      case NotAttempted =>
        match r.creation
        case Returned => Created
        case Unknown => CreateRequested
        case NotAttempted => Preflight
  }

  /** The receipt neither hides nor invents a remote effect. */
  predicate Honest(r: Receipt, e: Effects, w: World) {
    && Guarded(e) && (r.phase == RuntimeVerified || r.phase == PhaseOf(r))
    && (r.cardValidated ==> Admissible in e.passed)
    && (r.parent.Some? ==> IsSha(r.parent.value) && Identified in e.passed)
    && (r.write != NotAttempted ==> r.cardValidated && r.parent.Some?)
    && (r.creation == NotAttempted ==> !e.createRequested)
    && (r.creation == Returned || r.spaceCreated ==> e.createReturned)
    && (r.write == NotAttempted ==> !e.uploadRequested)
    && (r.write == Returned ==> r.published.Some? && IsSha(r.published.value) && e.uploadReturned == r.published)
    && (r.fileReadback ==> r.write == Returned && e.readBack == r.published)
    && (r.status == Measured ==> r.phase == RuntimeVerified)
    && (r.phase == RuntimeVerified ==>
          && r.fileReadback && e.witnessed.Some? && e.aligned == e.witnessed && Unmoved in e.passed
          && Shown(w, e.witnessed.value, r.published.value))
  }

  /** Nothing on disk means nothing was done. */
  predicate DiskHonest(disk: Option<Receipt>, e: Effects, w: World) {
    match disk
    case None => e == NO_EFFECTS
    case Some(r) => Honest(r, e, w)
  }

  /** One moment of a run. */
  datatype Moment = Moment(disk: Option<Receipt>, effects: Effects)

  ghost predicate AllHonest(history: seq<Moment>, w: World) {
    forall k :: 0 <= k < |history| ==> DiskHonest(history[k].disk, history[k].effects, w)
  }

  /** A revision's files, which never change. */
  type Remote = string -> map<string, Bytes>

  /** Exactly the expected files and the frozen metadata, byte for byte, none of them too large to read back. */
  ghost predicate SameFiles(files: map<string, Bytes>, expected: map<string, Bytes>, metadata: Bytes) {
    && files.Keys == expected.Keys + {METADATA}
    && (forall f :: f in expected ==> files[f] == expected[f])
    && files[METADATA] == metadata
    && (forall f :: f in files ==> |files[f]| <= 131072)
  }

  /** How a read-back of files that are not the expected ones is refused: the names first, then each file. */
  ghost predicate FilesWrong(files: map<string, Bytes>, expected: map<string, Bytes>, metadata: Bytes, o: Outcome) {
    || (o == Refused("SPACE_FILE_SET_MISMATCH") && files.Keys != expected.Keys + {METADATA})
    || (files.Keys == expected.Keys + {METADATA}
        && (|| (o == Refused("SPACE_FILE_TOO_LARGE") && exists f :: f in files && |files[f]| > 131072)
            || (o == Refused("SPACE_FILE_BYTE_MISMATCH") && exists f :: f in expected && files[f] != expected[f])
            || (o == Refused("SPACE_PROVIDER_METADATA_DRIFT") && files[METADATA] != metadata)))
  }

  lemma AllSame(files: map<string, Bytes>, expected: map<string, Bytes>, metadata: Bytes)
    requires files.Keys == expected.Keys + {METADATA} && files[METADATA] == metadata
    requires forall f :: f in expected ==> files[f] == expected[f] && |files[f]| <= 131072
    requires |metadata| <= 131072
    ensures SameFiles(files, expected, metadata)
  {
  }

  /** The last pass of the poll ended it: a refusal or an exception of its own, or nothing final and no time. */
  predicate PollEnded(w: World, polls: nat, revision: string, o: Outcome, waited: real, timeoutSeconds: int) {
    polls > 0 && match PassVerdict(w.looks(polls - 1), revision, w.source)
    case Refuse(code) => o == Refused(code)
    case Raise => o == Crashed
    case Later => o == Refused("SPACE_RUNTIME_TIMEOUT") && waited >= timeoutSeconds as real
    case Yes => false
  }

  function Earlier(a: real, b: real): real { if a <= b then a else b }

  /** The clock after `passes` passes of a poll, slept after each or not after the last. */
  predicate Slept(start: real, timeoutSeconds: int, passes: nat, now: real) {
    || now == start
    || (passes > 0 && timeoutSeconds > 0
        && (|| now == Earlier(start + timeoutSeconds as real, start + 10.0 * passes as real)
            || now == Earlier(start + timeoutSeconds as real, start + 10.0 * (passes - 1) as real)))
  }

  lemma PassShown(w: World, n: nat, revision: string)
    requires IsSha(revision) && PassVerdict(w.looks(n), revision, w.source) == Yes
    ensures Shown(w, n, revision)
  {
    hide IsSha, PassVerdict;
    PassExact(w.looks(n), revision, w.source);
  }

  /** How a step ends: `Refused` is ControlSpaceError, `Crashed` any other exception. */
  datatype Outcome = Done | Refused(code: string) | Crashed

  class Publisher {
    const world: World
    const expected: map<string, Bytes>
    const remote: Remote
    var receipt: Receipt
    var disk: Option<Receipt>
    var now: real
    /** How many passes of the poll were made. */
    var polls: nat
    /** Bookkeeping of the model: the remote effects, the metadata read back, every moment so far, what went
        wrong outside, and whether the last write of the receipt reached the disk. */
    ghost var faults: seq<Outcome>
    ghost var written: bool
    ghost var effects: Effects
    ghost var frozen: Bytes
    ghost var history: seq<Moment>

    constructor (world: World, expected: map<string, Bytes>, remote: Remote, now: real)
      requires METADATA !in expected
      ensures Valid() && disk == None && effects == NO_EFFECTS && this.world == world && this.expected == expected
      ensures faults == []
    {
      this.world, this.expected, this.remote, this.now, polls := world, expected, remote, now, 0;
      receipt := Receipt(Blocked, Preflight, NotAttempted, NotAttempted, false, false, None, None, false, None);
      disk, effects, frozen, faults, written := None, NO_EFFECTS, [], [], false;
      history := [Moment(None, NO_EFFECTS)];
    }

    /** Both receipts are honest now, and the one on disk was at every moment. */
    ghost predicate Valid()
      reads this
    {
      && METADATA !in expected
      && Honest(receipt, effects, world) && DiskHonest(disk, effects, world)
      && AllHonest(history, world) && history != [] && history[|history| - 1] == Moment(disk, effects)
      && (effects.readBack.Some? ==> SameFiles(remote(effects.readBack.value), expected, frozen))
    }

    /** `record`: change the receipt, then replace the file; false when writing raises. */
    method Record(r: Receipt) returns (ok: bool)
      requires Valid() && Honest(r, effects, world)
      modifies this`receipt, this`disk, this`history, this`faults, this`written
      ensures Valid() && receipt == r && written == ok
      ensures disk == if ok then Some(r) else old(disk)
      ensures faults == old(faults) + if ok then [] else [Crashed]
      ensures history == old(history) + if ok then [Moment(disk, effects)] else []
    {
      receipt := r;
      ok := *;
      written := ok;
      faults := faults + if ok then [] else [Crashed];
      if ok {
        disk := Some(r);
        history := history + [Moment(disk, effects)];
      }
    }

    /** A remote effect takes place. */
    ghost method Happen(e: Effects)
      requires Valid() && Honest(receipt, e, world) && DiskHonest(disk, e, world)
      requires e.readBack == effects.readBack
      modifies this`effects, this`history
      ensures Valid() && effects == e && history == old(history) + [Moment(disk, e)]
    {
      hide Honest, DiskHonest, SameFiles;
      effects := e;
      history := history + [Moment(disk, e)];
    }

    /** A group of remote checks that change nothing: they pass, or one of them refuses or raises. */
    method Check(gate: Gate) returns (o: Outcome)
      requires Valid() && disk.Some? && (gate == Unmoved ==> effects.witnessed.Some?)
      modifies this`effects, this`history, this`faults
      ensures Valid() && faults == old(faults) + if o.Done? then [] else [o]
      ensures effects == if o.Done? then old(effects).(passed := old(effects).passed + {gate}) else old(effects)
    {
      hide AllHonest, SameFiles, Shown, IsSha;
      o := *;
      if o.Done? {
        Happen(effects.(passed := effects.passed + {gate}));
      }
      faults := faults + if o.Done? then [] else [o];
    }

    /** The receipt on disk is the one in memory, still BLOCKED. */
    ghost predicate Saved()
      reads this
    {
      Valid() && disk == Some(receipt) && receipt.status == Blocked && receipt.phase != RuntimeVerified
    }

    /** `api.repo_info`: the Space is there, or certainly not, or the call fails. */
    method LookUp() returns (o: Outcome, absent: bool)
      requires Saved()
      modifies this`effects, this`history, this`faults
      ensures Saved() && !(o.Done? && absent)
      ensures faults == old(faults) + if o.Done? || absent then [] else [o]
      ensures effects == if o.Done? then old(effects).(passed := old(effects).passed + {Found}) else old(effects)
    {
      absent := *;
      if absent {
        return Crashed, true;
      }
      o := Check(Found);
    }

    /** `_repo_identity`: the Space is the target, at a revision. */
    method Identity() returns (revision: string, o: Outcome)
      requires Saved()
      modifies this`effects, this`history, this`faults
      ensures Saved() && faults == old(faults) + if o.Done? then [] else [o]
      ensures o.Done? ==> IsSha(revision) && effects == old(effects).(passed := old(effects).passed + {Identified})
      ensures !o.Done? ==> effects == old(effects)
      ensures !IsSha(revision) ==> o == Refused("SPACE_REVISION_INVALID")
    {
      hide AllHonest, SameFiles, Shown, IsSha;
      revision := *;
      if !IsSha(revision) {
        o := Refused("SPACE_REVISION_INVALID");
        faults := faults + [o];
        return;
      }
      o := Check(Identified);
    }

    /** `api.create_repo`, only ever called with the request on disk. */
    method CreateRepo() returns (ok: bool)
      requires Saved() && receipt.creation == Unknown && receipt.write == NotAttempted && !receipt.spaceCreated
      requires Admissible in effects.passed
      modifies this`effects, this`history, this`faults
      ensures Saved() && (ok ==> effects.createReturned) && faults == old(faults) + if ok then [] else [Crashed]
      ensures effects == old(effects).(createRequested := true, createReturned := effects.createReturned)
    {
      hide AllHonest, SameFiles, Shown, IsSha;
      Happen(effects.(createRequested := true));
      ok := *;
      if ok {
        Happen(effects.(createReturned := true));
      }
      faults := faults + if ok then [] else [Crashed];
    }

    /** `api.upload_folder`, only ever called with the request on disk; `oid` is the revision of the commit. */
    method UploadFolder() returns (ok: bool, oid: Option<string>)
      requires Saved() && receipt.write == Unknown && !receipt.fileReadback && MayWrite()
      modifies this`effects, this`history, this`faults
      ensures Saved() && (ok ==> effects.uploadReturned == oid) && faults == old(faults) + if ok then [] else [Crashed]
      ensures effects == old(effects).(uploadRequested := true, uploadReturned := effects.uploadReturned)
    {
      hide AllHonest, SameFiles, Shown, IsSha;
      Happen(effects.(uploadRequested := true, uploadReturned := None));
      ok := *;
      oid := None;
      if ok {
        oid := *;
        Happen(effects.(uploadReturned := oid));
      }
      faults := faults + if ok then [] else [Crashed];
    }

    /** Every check that guards the upload has passed. */
    ghost predicate MayWrite()
      reads this
    {
      && receipt.cardValidated && receipt.parent.Some?
      && Admissible in effects.passed && Found in effects.passed && Identified in effects.passed
      && Writable in effects.passed
    }

    /** One listing or download, which may refuse or raise. */
    method Fetch() returns (o: Outcome)
      modifies this`faults
      ensures faults == old(faults) + if o.Done? then [] else [o]
    {
      o := *;
      faults := faults + if o.Done? then [] else [o];
    }

    /** `_download_bytes` */
    method Download(revision: string, name: string) returns (data: Bytes, o: Outcome)
      requires name in remote(revision)
      modifies this`faults
      ensures o.Done? ==> data == remote(revision)[name] && |data| <= 131072 && faults == old(faults)
      ensures !o.Done? ==>
                || (o == Refused("SPACE_FILE_TOO_LARGE") && |remote(revision)[name]| > 131072)
                || faults == old(faults) + [o]
    {
      o := Fetch();
      if !o.Done? {
        return [], o;
      }
      if |remote(revision)[name]| > MAX_FILE_BYTES {
        return [], Refused("SPACE_FILE_TOO_LARGE");
      }
      return remote(revision)[name], Done;
    }

    /** One file of the revision is the expected one. */
    method VerifyFile(revision: string, f: string, body: Bytes, code: string) returns (o: Outcome)
      requires f in remote(revision)
      modifies this`faults
      ensures o.Done? ==> remote(revision)[f] == body && |body| <= 131072 && faults == old(faults)
      ensures !o.Done? ==>
                || (o == Refused("SPACE_FILE_TOO_LARGE") && |remote(revision)[f]| > 131072)
                || (o == Refused(code) && remote(revision)[f] != body)
                || faults == old(faults) + [o]
    {
      var data;
      data, o := Download(revision, f);
      if o.Done? && data != body {
        return Refused(code);
      }
    }

    /** `_verify_files` */
    method VerifyFiles(revision: string, metadata: Bytes) returns (o: Outcome)
      requires METADATA !in expected
      modifies this`faults
      ensures o.Done? ==> SameFiles(remote(revision), expected, metadata) && faults == old(faults)
      ensures !o.Done? ==>
                FilesWrong(remote(revision), expected, metadata, o) || faults == old(faults) + [o]
    {
      o := Fetch();
      if !o.Done? {
        return;
      }
      if remote(revision).Keys != expected.Keys + {METADATA} {
        return Refused("SPACE_FILE_SET_MISMATCH");
      }
      hide SameFiles;
      var names := expected.Keys;
      while names != {}
        invariant names <= expected.Keys && faults == old(faults)
        invariant forall f :: f in expected && f !in names ==>
                  f in remote(revision) && remote(revision)[f] == expected[f] && |expected[f]| <= 131072
        decreases |names|
      {
        var f :| f in names;
        o := VerifyFile(revision, f, expected[f], "SPACE_FILE_BYTE_MISMATCH");
        if !o.Done? {
          return;
        }
        names := names - {f};
      }
      o := VerifyFile(revision, METADATA, metadata, "SPACE_PROVIDER_METADATA_DRIFT");
      if o.Done? {
        AllSame(remote(revision), expected, metadata);
      }
    }

    /** Find the Space or create it; `created` says which. */
    method FindOrCreate() returns (created: bool, o: Outcome)
      requires Saved() && receipt.creation == NotAttempted && receipt.write == NotAttempted && !receipt.spaceCreated
      requires Admissible in effects.passed && receipt.cardValidated && faults == []
      modifies this`receipt, this`disk, this`effects, this`history, this`faults, this`written
      ensures Valid() && faults == if o.Done? then [] else [o]
      ensures o.Done? ==> Saved() && !receipt.fileReadback && (created ==> receipt.creation == Returned)
      ensures o.Done? ==> effects.passed == old(effects).passed + {Found} && created == (old(receipt) != receipt)
      ensures !effects.uploadRequested && effects.readBack == old(effects.readBack)
      ensures receipt.status == Blocked && receipt.write == NotAttempted && receipt.published == old(receipt.published)
      ensures receipt.cardValidated
    {
      hide AllHonest, SameFiles, Shown, IsSha;
      created := false;
      var absent;
      o, absent := LookUp();
      if !absent {
        return false, o;
      }
      var ok := Record(receipt.(phase := CreateRequested, creation := Unknown));
      if !ok {
        return false, Crashed;
      }
      ok := CreateRepo();
      if !ok {
        return false, Crashed;
      }
      created := true;
      ok := Record(receipt.(phase := Created, spaceCreated := true, creation := Returned));
      if !ok {
        return created, Crashed;
      }
      o := Check(Found);
    }

    /** The parent revision and the checks between finding the Space and writing to it. */
    method Settle(created: bool) returns (o: Outcome)
      requires Saved() && receipt.write == NotAttempted && !receipt.fileReadback && receipt.cardValidated
      requires (created ==> receipt.creation == Returned) && faults == [] && !effects.uploadRequested
      requires Admissible in effects.passed && Found in effects.passed
      modifies this`receipt, this`disk, this`effects, this`history, this`faults, this`written
      ensures Valid() && receipt.status == Blocked && faults == if o.Done? then [] else [o]
      ensures o.Done? ==> Saved() && receipt.write == NotAttempted && !receipt.fileReadback && MayWrite()
      ensures o.Done? ==> receipt.spaceCreated == created && !effects.uploadRequested
      ensures effects.readBack == old(effects.readBack)
    {
      hide AllHonest, SameFiles, Shown, IsSha;
      var parent;
      parent, o := Identity();
      if !o.Done? {
        return;
      }
      var ok := Record(receipt.(parent := Some(parent), spaceCreated := created));
      if !ok {
        return Crashed;
      }
      o := Check(Writable);
    }

    /** From the write-ahead record to the verified files. */
    method Upload(metadata: Bytes) returns (published: string, o: Outcome)
      requires Saved() && receipt.write == NotAttempted && !receipt.fileReadback && effects.readBack.None?
      requires MayWrite() && faults == []
      modifies this`receipt, this`disk, this`effects, this`history, this`frozen, this`faults, this`written
      ensures Valid() && receipt.status == Blocked && frozen == metadata
      ensures o.Done? ==>
                Saved() && receipt.published == Some(published) && receipt.fileReadback && receipt.write == Returned
      ensures o.Done? ==> faults == []
      ensures !o.Done? ==> faults == [o] || NoRevision(o) || BadFiles(o)
    {
      hide AllHonest, Honest, DiskHonest, SameFiles, Shown, IsSha, FilesWrong, NoRevision, BadFiles;
      frozen := metadata;
      published, o := Send();
      if !o.Done? {
        return;
      }
      o := ReadFiles(published, metadata);
    }

    /** The upload and its revision, both recorded. */
    method Send() returns (published: string, o: Outcome)
      requires Saved() && receipt.write == NotAttempted && !receipt.fileReadback && effects.readBack.None?
      requires MayWrite() && faults == []
      modifies this`receipt, this`disk, this`effects, this`history, this`faults, this`written
      ensures Valid() && receipt.status == Blocked && effects.readBack.None?
      ensures o.Done? ==>
                Saved() && receipt.published == Some(published) && !receipt.fileReadback && receipt.write == Returned
      ensures o.Done? ==> faults == []
      ensures !o.Done? ==> faults == [o] || NoRevision(o)
    {
      hide AllHonest, SameFiles, Shown, IsSha;
      published := "";
      var ok := Record(receipt.(phase := UploadRequested, write := Unknown));
      if !ok {
        return published, Crashed;
      }
      var oid;
      ok, oid := UploadFolder();
      if !ok {
        return published, Crashed;
      }
      if oid.None? || !IsSha(oid.value) {
        return published, Refused("SPACE_PUBLISH_SHA_INVALID");
      }
      published := oid.value;
      ok := Record(receipt.(phase := Uploaded, published := Some(published), write := Returned));
      return published, if ok then Done else Crashed;
    }

    /** The Space is at the published revision, and its files are read back equal. */
    method ReadFiles(published: string, metadata: Bytes) returns (o: Outcome)
      requires Saved() && receipt.published == Some(published) && !receipt.fileReadback && receipt.write == Returned
      requires effects.readBack.None? && faults == [] && frozen == metadata
      modifies this`receipt, this`disk, this`effects, this`history, this`faults, this`written
      ensures Valid() && receipt.status == Blocked
      ensures o.Done? ==>
                Saved() && receipt.published == Some(published) && receipt.fileReadback && receipt.write == Returned
      ensures o.Done? ==> faults == []
      ensures !o.Done? ==> faults == [o] || BadFiles(o)
    {
      hide AllHonest, SameFiles, Shown, IsSha, FilesWrong;
      o := Check(Landed);
      if !o.Done? {
        return;
      }
      o := VerifyFiles(published, metadata);
      if !o.Done? {
        return;
      }
      ReadBack(published);
      var ok := Record(receipt.(phase := FilesVerified, fileReadback := true));
      return if ok then Done else Crashed;
    }

    /** The upload came back without a revision. */
    ghost predicate NoRevision(o: Outcome)
      reads this
    {
      && o == Refused("SPACE_PUBLISH_SHA_INVALID") && effects.uploadRequested
      && (effects.uploadReturned.None? || !IsSha(effects.uploadReturned.value))
    }

    /** The published files are not the expected ones, in the way the refusal says. */
    ghost predicate BadFiles(o: Outcome)
      reads this
    {
      receipt.published.Some? && FilesWrong(remote(receipt.published.value), expected, frozen, o)
    }

    /** Note that every file was read back equal. */
    ghost method ReadBack(revision: string)
      requires Saved() && !receipt.fileReadback && SameFiles(remote(revision), expected, frozen)
      requires Landed in effects.passed
      modifies this`effects, this`history
      ensures Saved() && effects == old(effects).(readBack := Some(revision))
    {
      effects := effects.(readBack := Some(revision));
      history := history + [Moment(disk, effects)];
    }

    /** One pass of the poll: the Space's revision, its runtime and, if that is aligned, its endpoints. A pass
        whose first check fails reads nothing. */
    method Look(published: string) returns (done: bool, o: Outcome)
      requires Saved() && receipt.published == Some(published) && receipt.fileReadback
      modifies this`effects, this`history, this`polls, this`faults
      ensures Saved()
      ensures done ==> effects.aligned == Some(polls - 1) && effects.witnessed == Some(polls - 1)
      ensures if polls == old(polls) then !o.Done? && !done && faults == old(faults) + [o]
              else && polls == old(polls) + 1 && faults == old(faults)
                   && var v := PassVerdict(world.looks(polls - 1), published, world.source);
                   (done <==> v == Yes) && o == Ending(v)
    {
      hide AllHonest, SameFiles, Aligned, Witness, Attests, Running, NotYet, Unwitnessed, IsSha;
      var n := polls;
      o := Check(StillAt(n));
      if !o.Done? {
        return false, o;
      }
      var seen := world.looks(n);
      polls := n + 1;
      PublishedSha();
      PassExact(seen, published, world.source);
      AlignedExact(seen.runtime, published);
      WitnessExact(seen, world.source);
      var aligned := Aligned(seen.runtime, published);
      if aligned != Yes {
        return false, Ending(aligned);
      }
      Happen(effects.(aligned := Some(n)));
      var attested := Witness(seen, world.source);
      if attested != Yes {
        return false, Ending(attested);
      }
      Happen(effects.(witnessed := Some(n)));
      return true, Done;
    }

    lemma PublishedSha()
      requires Saved() && receipt.published.Some? && receipt.fileReadback
      ensures IsSha(receipt.published.value)
    {
      hide AllHonest, SameFiles, IsSha;
    }

    /** How the poll ends after a verdict that ends it; done otherwise. */
    static function Ending(v: Verdict): Outcome {
      match v
      case Refuse(code) => Refused(code)
      case Raise => Crashed
      case _ => Done
    }

    /** The bounded wait for a runtime that is aligned with the revision and answers the witness: a pass every
        ten seconds and one at the deadline, until one ends it. */
    method AwaitRuntime(published: string, timeoutSeconds: int) returns (o: Outcome)
      requires Saved() && receipt.published == Some(published) && receipt.fileReadback
      modifies this`effects, this`history, this`now, this`polls, this`faults
      ensures Saved()
      ensures o.Done? ==>
                && effects.witnessed.Some? && effects.aligned == effects.witnessed && faults == old(faults)
                && Shown(world, effects.witnessed.value, published)
      ensures !o.Done? ==>
                || faults == old(faults) + [o]
                || PollEnded(world, polls, published, o, now - old(now), timeoutSeconds)
      ensures forall n :: old(polls) <= n < polls - 1 ==>
                PassVerdict(world.looks(n), published, world.source) == Later
      ensures polls >= old(polls) && Slept(old(now), timeoutSeconds, polls - old(polls), now)
    {
      hide AllHonest, SameFiles, Honest, DiskHonest, Shown, PassVerdict;
      var deadline := now + timeoutSeconds as real;
      ghost var slept := 0;
      while true
        invariant Saved() && faults == old(faults) && polls == old(polls) + slept
        invariant slept > 0 ==> deadline > old(now)
        invariant now == if slept == 0 then old(now) else Earlier(deadline, old(now) + 10.0 * slept as real)
        invariant forall n :: old(polls) <= n < polls ==> PassVerdict(world.looks(n), published, world.source) == Later
        decreases if now >= deadline then 0 else (deadline - now).Floor + 1
      {
        var done;
        ghost var n := polls;
        done, o := Look(published);
        if done || !o.Done? {
          if done {
            PublishedSha();
            PassShown(world, n, published);
          }
          return;
        }
        if now >= deadline {
          return Refused("SPACE_RUNTIME_TIMEOUT");
        }
        now := now + if deadline - now <= 10.0 then deadline - now else 10.0;
        slept := slept + 1;
      }
    }

    /** `publish`: done means MEASURED is on disk, and any other end has its reason. */
    method Publish(metadata: Bytes, timeoutSeconds: int) returns (o: Outcome)
      requires Valid() && effects == NO_EFFECTS && disk.Some? && faults == []
      modifies this
      ensures Valid()
      ensures o.Done? ==> disk == Some(receipt) && receipt.status == Measured && faults == []
      ensures !o.Done? ==> Excused(o, now - old(now), timeoutSeconds)
    {
      hide AllHonest, Honest, DiskHonest, SameFiles, FilesWrong, IsSha, Shown, PassVerdict;
      o := Begin();
      if !o.Done? {
        return;
      }
      var created;
      created, o := FindOrCreate();
      if !o.Done? {
        return;
      }
      o := Settle(created);
      if !o.Done? {
        return;
      }
      var published;
      published, o := Upload(metadata);
      if !o.Done? {
        return;
      }
      o := AwaitRuntime(published, timeoutSeconds);
      if !o.Done? {
        return;
      }
      o := Finish(published);
    }

    /** Before anything is done: the checks that need no Space. */
    method Begin() returns (o: Outcome)
      requires Valid() && effects == NO_EFFECTS && disk.Some? && faults == []
      modifies this`receipt, this`disk, this`effects, this`history, this`faults, this`written
      ensures Valid() && faults == if o.Done? then [] else [o]
      ensures o.Done? ==>
                && Saved() && receipt.creation == NotAttempted && receipt.write == NotAttempted
                && !receipt.spaceCreated && !receipt.fileReadback && receipt.cardValidated
                && effects == NO_EFFECTS.(passed := {Admissible})
    {
      hide AllHonest, SameFiles, IsSha, Shown;
      var ok := Record(Receipt(Blocked, Preflight, NotAttempted, NotAttempted, false, false, None, None, false, None));
      if !ok {
        return Crashed;
      }
      o := Check(Admissible);
      if !o.Done? {
        return;
      }
      ok := Record(receipt.(cardValidated := true));
      if !ok {
        return Crashed;
      }
    }

    /** After the poll: protected main once more, then MEASURED. */
    method Finish(published: string) returns (o: Outcome)
      requires Saved() && receipt.published == Some(published) && receipt.fileReadback && faults == []
      requires effects.witnessed.Some? && effects.aligned == effects.witnessed
      requires Shown(world, effects.witnessed.value, published)
      modifies this`receipt, this`disk, this`effects, this`history, this`faults, this`written
      ensures Valid() && faults == if o.Done? then [] else [o]
      ensures o.Done? ==> disk == Some(receipt) && receipt.status == Measured && Unmoved in effects.passed
    {
      hide AllHonest, SameFiles, IsSha, Shown;
      o := Check(Unmoved);
      if !o.Done? {
        return;
      }
      var ok := Record(receipt.(status := Measured, phase := RuntimeVerified));
      return if ok then Done else Crashed;
    }

    /** A run that does not succeed met a failure outside, was given no revision, found other files, or saw the
        poll end on its last pass. */
    ghost predicate Excused(o: Outcome, waited: real, timeoutSeconds: int)
      reads this
    {
      || o in faults || NoRevision(o) || BadFiles(o)
      || (receipt.published.Some? && PollEnded(world, polls, receipt.published.value, o, waited, timeoutSeconds))
    }

    /** The receipt names this revision, the upload returned it, its files are the expected ones byte for byte,
        and a pass of the poll saw it running and attested. */
    ghost predicate Measures(revision: string)
      reads this
    {
      && receipt.published == Some(revision) && IsSha(revision) && effects.uploadReturned == Some(revision)
      && SameFiles(remote(revision), expected, frozen)
      && effects.witnessed.Some? && Shown(world, effects.witnessed.value, revision)
    }

    lemma MeasuredMeans()
      requires Valid() && receipt.status == Measured
      ensures exists revision :: Measures(revision)
    {
      hide AllHonest, IsSha, SameFiles, Shown;
      assert Measures(receipt.published.value);
    }

    /** `main`: whatever fails or stops, at every moment the receipt on disk neither hides nor invents a
        remote effect; exit code zero means every file was read back equal at the published revision and
        that revision was seen running and witnessed. It is the exit code exactly when publishing succeeded and
        the receipt was written; otherwise there was a reason, and the receipt, if written, names it. */
    method RunAll(metadata: Bytes, timeoutSeconds: int) returns (exit: int, ghost o: Outcome)
      requires Valid() && effects == NO_EFFECTS && disk.None? && receipt.status == Blocked && faults == []
      modifies this
      ensures AllHonest(history, world) && history != [] && history[|history| - 1] == Moment(disk, effects)
      ensures exit == 0 ==>
                disk == Some(receipt) && receipt.status == Measured && exists revision :: Measures(revision)
      ensures exit in {0, 1} && (exit == 0 <==> o.Done? && written)
      ensures exit == 0 ==> faults == []
      ensures !o.Done? ==> Excused(o, now - old(now), timeoutSeconds)
      ensures written && o.Refused? ==>
                disk == Some(receipt) && receipt.status == Blocked && receipt.failure == Some(o.code)
      ensures written && o.Crashed? ==> disk == Some(receipt) && receipt.status == Unsure && receipt.failure.Some?
    {
      hide Honest, DiskHonest, AllHonest, FilesWrong, Measures, PollEnded;
      o := Crashed;
      var ok := RecordFirst();
      if !ok {
        return 1, o;
      }
      var result := Publish(metadata, timeoutSeconds);
      o := result;
      ok := Report(result);
      if !ok || receipt.status != Measured {
        return 1, o;
      }
      MeasuredMeans();
      return 0, o;
    }

    /** The first write, before anything is tried. */
    method RecordFirst() returns (ok: bool)
      requires Valid() && effects == NO_EFFECTS && faults == []
      modifies this`receipt, this`disk, this`history, this`faults, this`written
      ensures Valid() && written == ok && (ok ==> disk.Some? && faults == []) && (!ok ==> faults == [Crashed])
      ensures AllHonest(history, world) && history[|history| - 1] == Moment(disk, effects)
    {
      hide Honest, DiskHonest, AllHonest;
      ok := Record(receipt);
    }

    /** The last write: how publishing ended. */
    method Report(result: Outcome) returns (ok: bool)
      requires Valid() && (result.Done? ==> receipt.status == Measured && disk == Some(receipt))
      modifies this`receipt, this`disk, this`history, this`faults, this`written
      ensures Valid() && written == ok && (ok ==> disk == Some(receipt) && faults == old(faults))
      ensures old(faults) <= faults && receipt.published == old(receipt.published)
      ensures match result
              case Done => receipt == old(receipt)
              case Refused(code) => receipt.status == Blocked && receipt.failure == Some(code)
              case Crashed => receipt.status == Unsure && receipt.failure.Some?
      ensures AllHonest(history, world) && history[|history| - 1] == Moment(disk, effects)
    {
      hide IsSha, SameFiles, Shown, Guarded, AllHonest, DiskHonest;
      if result.Refused? {
        ok := Record(receipt.(status := Blocked, failure := Some(result.code)));
      } else if result.Crashed? {
        var name: string := *;
        ok := Record(receipt.(status := Unsure, failure := Some(name)));
      } else {
        ok := Record(receipt);
      }
    }
  }
}
