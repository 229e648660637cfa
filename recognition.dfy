/** The embedding-based commands: the reference store (`save_tensor`,
    `load_tensor`), non-interactive verification (`cmd_auth`), two-camera
    enrollment (`cmd_add`) and the interactive check (`cmd_test`).

    A run's camera reads are counted and returned beside its result, so that
    the contracts can say how many frames a run consumed. */
module Recognition {
  import opened Configuration
  import opened Environment
  import opened Preview

  const IrTensor: string := "ir.bin"
  const RgbTensor: string := "rgb.bin"

  /** The files under the storage root, as far as the commands see them. */
  type Store = map<Path, Embedding>

  /** The parameters `cmd_auth` and `cmd_test` derive from the active mode. */
  function ModeParams(cfg: Config): Params {
    Select(cfg, IrTensor, RgbTensor)
  }

  // ---------------------------------------------------------------------
  // Reference store
  // ---------------------------------------------------------------------

  /** data_dir/users/<user> */
  function UserDir(user: string): Path {
    DataDir + ["users", user]
  }

  /** data_dir/users/<user>/<file>, as `save_tensor` and `load_tensor` both
      build it. */
  function TensorPath(user: string, file: string): Path {
    UserDir(user) + [file]
  }

  /** Distinct (user, file) pairs have distinct files. */
  lemma TensorPathInjective(u1: string, f1: string, u2: string, f2: string)
    ensures TensorPath(u1, f1) == TensorPath(u2, f2) <==> u1 == u2 && f1 == f2
  {
    if TensorPath(u1, f1) == TensorPath(u2, f2) {
      assert TensorPath(u1, f1)[|DataDir| + 1] == u1;
      assert TensorPath(u2, f2)[|DataDir| + 1] == u2;
      assert TensorPath(u1, f1)[|DataDir| + 2] == f1;
      assert TensorPath(u2, f2)[|DataDir| + 2] == f2;
    }
  }

  /** `save_tensor`: writes (or overwrites) one file, and only that one. */
  function SaveTensor(store: Store, user: string, file: string, e: Embedding): (r: Store)
    ensures TensorPath(user, file) in r && r[TensorPath(user, file)] == e
    ensures forall p :: p != TensorPath(user, file) ==> (p in r <==> p in store)
    ensures forall p :: p != TensorPath(user, file) && p in store ==> r[p] == store[p]
  {
    store[TensorPath(user, file) := e]
  }

  /** `load_tensor`: the stored embedding, or an error naming the missing file. */
  function LoadTensor(store: Store, user: string, file: string): (r: Result<Embedding>)
    ensures r.Ok? <==> TensorPath(user, file) in store
    ensures r.Ok? ==> r.value == store[TensorPath(user, file)]
    ensures r.Err? ==> r.error == ReferenceMissing(TensorPath(user, file))
  {
    var path := TensorPath(user, file);
    if path in store then Ok(store[path]) else Err(ReferenceMissing(path))
  }

  /** A load after a save of the same (user, file) gives the saved embedding;
      a save under one (user, file) leaves every other load unchanged. */
  lemma LoadAfterSave(store: Store, user: string, file: string, e: Embedding, u: string, f: string)
    ensures LoadTensor(SaveTensor(store, user, file, e), u, f)
      == if u == user && f == file then Ok(e) else LoadTensor(store, u, f)
  {
    TensorPathInjective(user, file, u, f);
  }

  /** Whether a directory exists: some stored file lies below it. */
  predicate DirExists(store: Store, dir: Path) {
    exists p :: p in store && |dir| < |p| && p[..|dir|] == dir
  }

  /** `create_dir_all` in `save_tensor`: after a save the user's directory
      exists. */
  lemma SaveCreatesUserDir(store: Store, user: string, file: string, e: Embedding)
    ensures DirExists(SaveTensor(store, user, file, e), UserDir(user))
  {
    var p := TensorPath(user, file);
    assert p[..|UserDir(user)|] == UserDir(user);
  }

  // ---------------------------------------------------------------------
  // Setup shared by cmd_auth and cmd_test
  // ---------------------------------------------------------------------

  /** Load the model, open the active camera, load the reference, in that
      order; the first failure is the result. Opening the camera cannot
      fail: a device that does not open only makes every read come back
      without a frame. */
  function Prepare(cfg: Config, host: Host, store: Store, user: string, cosine: Cosine): (r: Result<Session>)
    ensures !host.modelLoads ==> r == Err(ModelLoadFailed)
    ensures r.Ok? <==> host.modelLoads && LoadTensor(store, user, ModeParams(cfg).file).Ok?
    ensures r.Ok? ==>
      r.value == Session(Camera(host, ModeParams(cfg).device),
                         LoadTensor(store, user, ModeParams(cfg).file).value, ModeParams(cfg), cosine)
    ensures host.modelLoads && LoadTensor(store, user, ModeParams(cfg).file).Err? ==>
      r == Err(ReferenceMissing(TensorPath(user, ModeParams(cfg).file)))
  {
    var p := ModeParams(cfg);
    if !host.modelLoads then Err(ModelLoadFailed)
    else
      var cam := Camera(host, p.device);
      match LoadTensor(store, user, p.file)
      case Err(e) => Err(e)
      case Ok(reference) => Ok(Session(cam, reference, p, cosine))
  }

  // ---------------------------------------------------------------------
  // cmd_auth
  // ---------------------------------------------------------------------

  /** The decision on one attempt. */
  datatype Judgment = Abort(error: Error) | Reject | Accept

  /** One attempt of `cmd_auth`: a failed read or extraction aborts the run;
      otherwise the frame is rejected when its similarity is below the
      threshold, else when it is too dark, and accepted otherwise. */
  function Judge(s: Session, c: Capture): (j: Judgment)
    ensures j == Abort(ReadFailed) <==> c.Unreadable?
    ensures j == Abort(ExtractFailed) <==> c.Grabbed? && c.frame.extraction.ExtractError?
    ensures j == Accept <==>
      Usable(c) && c.frame.brightness >= s.params.minBrightness
      && (Similarity(s, c.frame).NaN? || Similarity(s, c.frame).value >= s.params.minSimilarity)
    ensures j == Reject <==>
      Usable(c) && !(c.frame.brightness >= s.params.minBrightness
                     && (Similarity(s, c.frame).NaN? || Similarity(s, c.frame).value >= s.params.minSimilarity))
  {
    match c
    case Unreadable => Abort(ReadFailed)
    case Grabbed(f) =>
      match f.extraction
      case ExtractError => Abort(ExtractFailed)
      case Extracted(e) =>
        if s.cosine(s.reference, e).Below(s.params.minSimilarity) then Reject
        else if f.brightness < s.params.minBrightness then Reject
        else Accept
  }

  /** The judgment on the i-th frame of the session's camera. */
  function Attempt(s: Session, i: nat): Judgment {
    Judge(s, FrameAt(s.frames, i))
  }

  /** What a decisive attempt makes the run return. */
  function Decision(j: Judgment): Result<bool> {
    match j
    case Abort(e) => Err(e)
    case Accept => Ok(true)
    case Reject => Ok(false)
  }

  /** A run's result and the number of frames it read. */
  datatype AuthRun = AuthRun(result: Result<bool>, framesRead: nat)

  /** The attempt loop from attempt i on. */
  function AuthFrom(s: Session, retries: nat, i: nat): (r: AuthRun)
    ensures i <= retries ==> i <= r.framesRead <= retries
    ensures r.result.Ok? && !r.result.value ==> r.framesRead == if i <= retries then retries else i
    decreases retries - i
  {
    if i >= retries then AuthRun(Ok(false), i)
    else match Attempt(s, i)
      case Abort(e) => AuthRun(Err(e), i + 1)
      case Accept => AuthRun(Ok(true), i + 1)
      case Reject => AuthFrom(s, retries, i + 1)
  }

  /** The loop reads at most `retries` frames. Every frame read before the
      last one was rejected; the last one decides the run, and the run ends
      early only on an accepted or an aborting frame. */
  lemma {:induction false} AuthStopsAtFirstDecisive(s: Session, retries: nat, i: nat)
    requires i <= retries
    ensures var r := AuthFrom(s, retries, i);
      && i <= r.framesRead <= retries
      && (r.framesRead == i ==> i == retries && r.result == Ok(false))
      && (r.framesRead > i ==> r.result == Decision(Attempt(s, r.framesRead - 1)))
      && (r.framesRead < retries ==> Attempt(s, r.framesRead - 1) != Reject)
      && (forall j :: i <= j < r.framesRead - 1 ==> Attempt(s, j) == Reject)
    decreases retries - i
  {
    if i < retries && Attempt(s, i) == Reject {
      AuthStopsAtFirstDecisive(s, retries, i + 1);
    }
  }

  /** The run returns false, and not an error, exactly when every one of its
      attempts was rejected; it then read all `retries` frames. */
  lemma {:induction false} AuthFalseIffAllRejected(s: Session, retries: nat, i: nat)
    requires i <= retries
    ensures AuthFrom(s, retries, i).result == Ok(false) <==>
      forall j :: i <= j < retries ==> Attempt(s, j) == Reject
    ensures AuthFrom(s, retries, i).result == Ok(false) ==> AuthFrom(s, retries, i).framesRead == retries
    decreases retries - i
  {
    if i < retries {
      if Attempt(s, i) == Reject {
        AuthFalseIffAllRejected(s, retries, i + 1);
      }
    }
  }

  /** The run accepts at the first attempt whose frame passes both tests when
      every earlier one was rejected, having read exactly up to it. */
  lemma {:induction false} AuthAcceptsFirstMatch(s: Session, retries: nat, i: nat, k: nat)
    requires i <= k < retries
    requires forall j :: i <= j < k ==> Attempt(s, j) == Reject
    requires Attempt(s, k) == Accept
    ensures AuthFrom(s, retries, i) == AuthRun(Ok(true), k + 1)
    decreases k - i
  {
    if i < k {
      AuthAcceptsFirstMatch(s, retries, i + 1, k);
    }
  }

  /** Frames after the last one read play no part: the run reads no frame
      after its decision. */
  lemma {:induction false} AuthIgnoresUnreadFrames(s: Session, frames: seq<Capture>, retries: nat, i: nat)
    requires i <= retries
    requires forall j :: i <= j < AuthFrom(s, retries, i).framesRead ==> FrameAt(frames, j) == FrameAt(s.frames, j)
    ensures AuthFrom(s.(frames := frames), retries, i) == AuthFrom(s, retries, i)
    decreases retries - i
  {
    if i < retries {
      AuthStopsAtFirstDecisive(s, retries, i);
      assert FrameAt(frames, i) == FrameAt(s.frames, i);
      if Attempt(s, i) == Reject {
        AuthIgnoresUnreadFrames(s, frames, retries, i + 1);
      }
    }
  }

  /** `cmd_auth`: setup, then at most `retries` attempts. A setup failure
      returns before any frame is read. */
  function Auth(cfg: Config, retries: nat, host: Host, store: Store, user: string, cosine: Cosine): (r: AuthRun)
    ensures r.framesRead <= retries
    ensures Prepare(cfg, host, store, user, cosine).Err? ==>
      r == AuthRun(Err(Prepare(cfg, host, store, user, cosine).error), 0)
    ensures Prepare(cfg, host, store, user, cosine).Ok? && retries == 0 ==> r == AuthRun(Ok(false), 0)
  {
    match Prepare(cfg, host, store, user, cosine)
    case Err(e) => AuthRun(Err(e), 0)
    case Ok(s) =>
      AuthStopsAtFirstDecisive(s, retries, 0);
      AuthFrom(s, retries, 0)
  }

  /** Re-enrolling replaces the reference wholesale: after a save of the
      active mode's file, verification depends on the saved embedding only,
      not on what the store held before. */
  lemma AuthUsesNewestReference(cfg: Config, retries: nat, host: Host, s1: Store, s2: Store,
                                user: string, e: Embedding, cosine: Cosine)
    ensures Auth(cfg, retries, host, SaveTensor(s1, user, ModeParams(cfg).file, e), user, cosine)
         == Auth(cfg, retries, host, SaveTensor(s2, user, ModeParams(cfg).file, e), user, cosine)
  {
    var f := ModeParams(cfg).file;
    LoadAfterSave(s1, user, f, e, user, f);
    LoadAfterSave(s2, user, f, e, user, f);
  }

  /** `cmd_auth` as the source runs it. */
  method CmdAuth(cfg: Config, retries: nat, host: Host, store: Store, user: string, cosine: Cosine)
    returns (result: Result<bool>, framesRead: nat)
    ensures AuthRun(result, framesRead) == Auth(cfg, retries, host, store, user, cosine)
  {
    var setup := Prepare(cfg, host, store, user, cosine);
    if setup.Err? {
      return Err(setup.error), 0;
    }
    var s := setup.value;
    for i := 0 to retries
      invariant AuthFrom(s, retries, i) == AuthFrom(s, retries, 0)
    {
      var capture := FrameAt(s.frames, i);
      if capture.Unreadable? {
        return Err(ReadFailed), i + 1;
      }
      var frame := capture.frame;
      if frame.extraction.ExtractError? {
        return Err(ExtractFailed), i + 1;
      }
      var similarity := cosine(s.reference, frame.extraction.embedding);
      if similarity.Below(s.params.minSimilarity) {
        // no match: next attempt
      } else if frame.brightness < s.params.minBrightness {
        // too dark: next attempt
      } else {
        return Ok(true), i + 1;
      }
    }
    return Ok(false), retries;
  }

  /** A camera that did not open makes no open error: with the reference
      present, the first read brings an empty frame, which cannot be
      embedded, so the run ends with that error; with no attempts at all it
      returns false; and a missing reference is reported as missing. */
  lemma AuthWithoutCamera(cfg: Config, retries: nat, host: Host, store: Store, user: string, cosine: Cosine)
    requires host.modelLoads && ModeParams(cfg).device !in host.cameras
    ensures LoadTensor(store, user, ModeParams(cfg).file).Err? ==>
      Auth(cfg, retries, host, store, user, cosine)
      == AuthRun(Err(ReferenceMissing(TensorPath(user, ModeParams(cfg).file))), 0)
    ensures LoadTensor(store, user, ModeParams(cfg).file).Ok? && retries == 0 ==>
      Auth(cfg, retries, host, store, user, cosine) == AuthRun(Ok(false), 0)
    ensures LoadTensor(store, user, ModeParams(cfg).file).Ok? && retries > 0 ==>
      Auth(cfg, retries, host, store, user, cosine) == AuthRun(Err(ExtractFailed), 1)
  {
    var setup := Prepare(cfg, host, store, user, cosine);
    if setup.Ok? && retries > 0 {
      assert FrameAt(setup.value.frames, 0) == Blank;
    }
  }

  /** At a similarity equal to the threshold, `cmd_auth` accepts a bright
      enough frame while `cmd_test` reports it as no match. */
  lemma ThresholdTieSplitsAuthAndTest(s: Session, c: Capture)
    requires Usable(c) && c.frame.brightness >= s.params.minBrightness
    requires Similarity(s, c.frame) == Finite(s.params.minSimilarity)
    ensures Judge(s, c) == Accept
    ensures Look(s, c) == NoMatch
  {
  }

  /** A NaN similarity passes `cmd_auth`'s similarity test, so a bright enough
      frame is accepted; `cmd_test` reports it as no match. */
  lemma NaNSimilarityAccepted(s: Session, c: Capture)
    requires Usable(c) && c.frame.brightness >= s.params.minBrightness
    requires Similarity(s, c.frame) == NaN
    ensures Judge(s, c) == Accept
    ensures Look(s, c) == NoMatch
  {
  }

  /** Scripted similarity for the two scenarios below: a probe embedding's
      first entry is its similarity to any reference. */
  function ScriptedCosine(): Cosine {
    (a: Embedding, b: Embedding) => if |b| > 0 then Finite(b[0]) else NaN
  }

  /** Threshold 0.9, minimum brightness 10, three attempts; frames of
      brightness 5, 15, 15 and similarity 0.95, 0.95, 0.80. The dark first
      frame is rejected despite its similarity, the second is accepted, and
      the third is never read. */
  lemma AuthScenarioDarkThenMatch(reference: Embedding, device: int)
    ensures AuthFrom(Session([Grabbed(Frame(5.0, Extracted([0.95]))),
                              Grabbed(Frame(15.0, Extracted([0.95]))),
                              Grabbed(Frame(15.0, Extracted([0.80])))],
                             reference, Params(IrTensor, device, 0.9, 10.0), ScriptedCosine()), 3, 0)
         == AuthRun(Ok(true), 2)
  {
    var s := Session([Grabbed(Frame(5.0, Extracted([0.95]))),
                      Grabbed(Frame(15.0, Extracted([0.95]))),
                      Grabbed(Frame(15.0, Extracted([0.80])))],
                     reference, Params(IrTensor, device, 0.9, 10.0), ScriptedCosine());
    assert Attempt(s, 0) == Reject;
    assert Attempt(s, 1) == Accept;
  }

  /** Same thresholds; three bright frames of similarity 0.5, 0.6, 0.7: the run
      returns false, not an error, after reading all three. */
  lemma AuthScenarioNoMatch(reference: Embedding, device: int)
    ensures AuthFrom(Session([Grabbed(Frame(15.0, Extracted([0.5]))),
                              Grabbed(Frame(15.0, Extracted([0.6]))),
                              Grabbed(Frame(15.0, Extracted([0.7])))],
                             reference, Params(IrTensor, device, 0.9, 10.0), ScriptedCosine()), 3, 0)
         == AuthRun(Ok(false), 3)
  {
    var s := Session([Grabbed(Frame(15.0, Extracted([0.5]))),
                      Grabbed(Frame(15.0, Extracted([0.6]))),
                      Grabbed(Frame(15.0, Extracted([0.7])))],
                     reference, Params(IrTensor, device, 0.9, 10.0), ScriptedCosine());
    assert Attempt(s, 0) == Reject;
    assert Attempt(s, 1) == Reject;
    assert Attempt(s, 2) == Reject;
  }

  // ---------------------------------------------------------------------
  // cmd_add
  // ---------------------------------------------------------------------

  /** One mode's enrollment loop: the camera, the file it writes, and the
      minimum brightness. */
  datatype Enrolling = Enrolling(frames: seq<Capture>, key: Path, minBrightness: real)

  /** The loop's variables (`found`, `brightness`, the store), the frames it
      read, and the error that ended it early, if any. */
  datatype Scan = Scan(found: bool, brightness: real, store: Store, framesRead: nat, failure: Option<Error>)

  /** A frame at or above the minimum brightness. */
  predicate Bright(c: Capture, minBrightness: real) {
    c.Grabbed? && c.frame.brightness >= minBrightness
  }

  /** A frame the loop gets past: readable, and either too dark (skipped
      without extraction) or with an embedding. */
  predicate Enrollable(c: Capture, minBrightness: real) {
    c.Grabbed? && (c.frame.brightness < minBrightness || c.frame.extraction.Extracted?)
  }

  /** One pass of the loop body. */
  function EnrollStep(e: Enrolling, c: Capture, st: Scan): (r: Scan)
    ensures r.framesRead == st.framesRead + 1
    ensures r.failure.Some? <==> st.failure.Some? || !Enrollable(c, e.minBrightness)
    ensures r.found <==> st.found || (Bright(c, e.minBrightness) && Enrollable(c, e.minBrightness))
    ensures c.Grabbed? ==> r.brightness == c.frame.brightness
    ensures r.store == if Bright(c, e.minBrightness) && Enrollable(c, e.minBrightness)
                       then st.store[e.key := c.frame.extraction.embedding] else st.store
  {
    match c
    case Unreadable => st.(framesRead := st.framesRead + 1, failure := Some(ReadFailed))
    case Grabbed(f) =>
      if f.brightness < e.minBrightness then st.(framesRead := st.framesRead + 1, brightness := f.brightness)
      else match f.extraction
        case ExtractError =>
          st.(framesRead := st.framesRead + 1, brightness := f.brightness, failure := Some(ExtractFailed))
        case Extracted(emb) =>
          st.(framesRead := st.framesRead + 1, brightness := f.brightness, store := st.store[e.key := emb], found := true)
  }

  /** The loop from pass i on; it never breaks, and stops early only on an
      error. */
  function EnrollFrom(e: Enrolling, retries: nat, i: nat, st: Scan): (r: Scan)
    ensures i <= retries ==> st.framesRead <= r.framesRead <= st.framesRead + (retries - i)
    ensures st.failure.Some? ==> r == st
    ensures r.failure.None? && i <= retries ==> r.framesRead == st.framesRead + (retries - i)
    decreases retries - i
  {
    if i >= retries || st.failure.Some? then st
    else EnrollFrom(e, retries, i + 1, EnrollStep(e, FrameAt(e.frames, i), st))
  }

  /** The last bright frame among passes lo..hi-1. */
  function LastBright(e: Enrolling, lo: nat, hi: nat): (k: Option<nat>)
    decreases hi - lo
    ensures k.Some? ==>
      lo <= k.value < hi && Bright(FrameAt(e.frames, k.value), e.minBrightness)
      && forall j :: k.value < j < hi ==> !Bright(FrameAt(e.frames, j), e.minBrightness)
    ensures k.None? ==> forall j :: lo <= j < hi ==> !Bright(FrameAt(e.frames, j), e.minBrightness)
  {
    if hi <= lo then None
    else match LastBright(e, lo + 1, hi)
      case Some(k) => Some(k)
      case None => if Bright(FrameAt(e.frames, lo), e.minBrightness) then Some(lo) else None
  }

  /** The embedding of an enrollable bright frame. */
  function EmbeddingAt(e: Enrolling, k: nat): Embedding
    requires Bright(FrameAt(e.frames, k), e.minBrightness) && Enrollable(FrameAt(e.frames, k), e.minBrightness)
  {
    FrameAt(e.frames, k).frame.extraction.embedding
  }

  /** When every frame of the loop can be got past, the loop reads exactly
      `retries` frames; it finds a frame iff one was bright; the stored file
      holds the embedding of the LAST bright frame (every bright frame
      overwrote it); and `brightness` is the last frame's. */
  lemma {:induction false} EnrollCompletes(e: Enrolling, retries: nat, i: nat, st: Scan)
    requires i <= retries && st.failure.None?
    requires forall j :: i <= j < retries ==> Enrollable(FrameAt(e.frames, j), e.minBrightness)
    ensures var r := EnrollFrom(e, retries, i, st);
      && r.failure.None?
      && r.framesRead == st.framesRead + (retries - i)
      && r.found == (st.found || LastBright(e, i, retries).Some?)
      && (i < retries ==>
            FrameAt(e.frames, retries - 1).Grabbed?
            && r.brightness == FrameAt(e.frames, retries - 1).frame.brightness)
      && (i == retries ==> r.brightness == st.brightness)
      && r.store == match LastBright(e, i, retries)
                    case None => st.store
                    case Some(k) => st.store[e.key := EmbeddingAt(e, k)]
    decreases retries - i
  {
    if i < retries {
      var st' := EnrollStep(e, FrameAt(e.frames, i), st);
      EnrollCompletes(e, retries, i + 1, st');
      match LastBright(e, i + 1, retries)
      case Some(k) =>
        assert st'.store[e.key := EmbeddingAt(e, k)] == st.store[e.key := EmbeddingAt(e, k)];
      case None =>
    }
  }

  /** The loop writes no file but its own: every file outside any set of
      paths that holds its own is as it was, whatever happens. */
  lemma {:induction false} EnrollTouchesOnlyKey(e: Enrolling, retries: nat, i: nat, st: Scan, ks: set<Path>)
    requires e.key in ks
    ensures EnrollFrom(e, retries, i, st).store - ks == st.store - ks
    decreases retries - i
  {
    if i < retries && st.failure.None? {
      var st' := EnrollStep(e, FrameAt(e.frames, i), st);
      EnrollTouchesOnlyKey(e, retries, i + 1, st', ks);
      assert st'.store - ks == st.store - ks;
    }
  }

  /** The loop fails exactly when some frame cannot be got past, and then at
      the first such frame: a read failure, or an extraction failure on a
      bright frame. */
  lemma {:induction false} EnrollFailsAtFirstBadFrame(e: Enrolling, retries: nat, i: nat, st: Scan)
    requires i <= retries && st.failure.None? && st.framesRead == i
    ensures var r := EnrollFrom(e, retries, i, st);
      && (r.failure.Some? <==> exists j :: i <= j < retries && !Enrollable(FrameAt(e.frames, j), e.minBrightness))
      && (r.failure.Some? ==>
            i < r.framesRead <= retries
            && !Enrollable(FrameAt(e.frames, r.framesRead - 1), e.minBrightness)
            && (forall j :: i <= j < r.framesRead - 1 ==> Enrollable(FrameAt(e.frames, j), e.minBrightness))
            && r.failure == Some(if FrameAt(e.frames, r.framesRead - 1).Unreadable? then ReadFailed else ExtractFailed))
    decreases retries - i
  {
    if i < retries {
      var st' := EnrollStep(e, FrameAt(e.frames, i), st);
      if Enrollable(FrameAt(e.frames, i), e.minBrightness) {
        EnrollFailsAtFirstBadFrame(e, retries, i + 1, st');
      }
    }
  }

  /** One mode's loop as the source runs it (lines 88-101 and 112-125 are
      the same loop over different cameras). `brightness` is the variable
      shared by the two loops. */
  method EnrollLoop(e: Enrolling, retries: nat, brightness0: real, store0: Store) returns (scan: Scan)
    ensures scan == EnrollFrom(e, retries, 0, Scan(false, brightness0, store0, 0, None))
  {
    var found := false;
    var brightness := brightness0;
    var store := store0;
    for i := 0 to retries
      invariant EnrollFrom(e, retries, 0, Scan(false, brightness0, store0, 0, None))
             == EnrollFrom(e, retries, i, Scan(found, brightness, store, i, None))
    {
      var capture := FrameAt(e.frames, i);
      if capture.Unreadable? {
        return Scan(found, brightness, store, i + 1, Some(ReadFailed));
      }
      var frame := capture.frame;
      brightness := frame.brightness;
      if brightness < e.minBrightness {
        // too dark: next frame
      } else {
        if frame.extraction.ExtractError? {
          return Scan(found, brightness, store, i + 1, Some(ExtractFailed));
        }
        store := store[e.key := frame.extraction.embedding];
        found := true;
      }
    }
    return Scan(found, brightness, store, retries, None);
  }

  /** A run of `cmd_add`: its result, the store it leaves, and the frames each
      loop read. */
  datatype AddRun = AddRun(result: Result<()>, store: Store, irReads: nat, rgbReads: nat)

  /** The IR loop: the IR camera, into `ir.bin`. */
  function IrLoop(cfg: Config, host: Host, user: string): Enrolling {
    Enrolling(Camera(host, cfg.video.deviceIr), TensorPath(user, IrTensor), cfg.detection.minBrightnessIr)
  }

  /** The RGB loop: the RGB camera, into `rgb.bin`. */
  function RgbLoop(cfg: Config, host: Host, user: string): Enrolling {
    Enrolling(Camera(host, cfg.video.deviceRgb), TensorPath(user, RgbTensor), cfg.detection.minBrightnessRgb)
  }

  /** `cmd_add`: open the RGB then the IR camera (which cannot fail), load
      the model, then the IR loop and, only if it found a frame, the RGB
      loop. It touches no file but the user's two embeddings, and a model
      that does not load touches none. */
  function Add(cfg: Config, retries: nat, host: Host, store: Store, user: string): (r: AddRun)
    ensures r.store - {TensorPath(user, IrTensor), TensorPath(user, RgbTensor)}
         == store - {TensorPath(user, IrTensor), TensorPath(user, RgbTensor)}
    ensures !host.modelLoads ==>
      r.result == Err(ModelLoadFailed) && r.store == store && r.irReads == 0 && r.rgbReads == 0
  {
    if !host.modelLoads then AddRun(Err(ModelLoadFailed), store, 0, 0)
    else
      var userFiles := {TensorPath(user, IrTensor), TensorPath(user, RgbTensor)};
      var irLoop := IrLoop(cfg, host, user);
      var ir := EnrollFrom(irLoop, retries, 0, Scan(false, 0.0, store, 0, None));
      EnrollTouchesOnlyKey(irLoop, retries, 0, Scan(false, 0.0, store, 0, None), userFiles);
      if ir.failure.Some? then AddRun(Err(ir.failure.value), ir.store, ir.framesRead, 0)
      else if !ir.found then AddRun(Err(BrightnessTooLow(IR, ir.brightness, cfg.detection.minBrightnessIr)), ir.store, ir.framesRead, 0)
      else
        var rgbLoop := RgbLoop(cfg, host, user);
        var rgb := EnrollFrom(rgbLoop, retries, 0, Scan(false, ir.brightness, ir.store, 0, None));
        EnrollTouchesOnlyKey(rgbLoop, retries, 0, Scan(false, ir.brightness, ir.store, 0, None), userFiles);
        if rgb.failure.Some? then AddRun(Err(rgb.failure.value), rgb.store, ir.framesRead, rgb.framesRead)
        else if !rgb.found then
          AddRun(Err(BrightnessTooLow(RGB, rgb.brightness, cfg.detection.minBrightnessRgb)), rgb.store, ir.framesRead, rgb.framesRead)
        else AddRun(Ok(()), rgb.store, ir.framesRead, rgb.framesRead)
  }

  /** No bright IR frame: the IR loop read all `retries` frames, the error
      carries the last frame's brightness (0.0 when there was none), the RGB
      loop never ran and the store is unchanged. */
  lemma AddIrTooDark(cfg: Config, retries: nat, host: Host, store: Store, user: string)
    requires host.modelLoads
    requires forall j :: 0 <= j < retries ==>
      FrameAt(IrLoop(cfg, host, user).frames, j).Grabbed?
      && FrameAt(IrLoop(cfg, host, user).frames, j).frame.brightness < cfg.detection.minBrightnessIr
    ensures var r := Add(cfg, retries, host, store, user);
      && r.result == Err(BrightnessTooLow(IR,
           if retries == 0 then 0.0 else FrameAt(IrLoop(cfg, host, user).frames, retries - 1).frame.brightness,
           cfg.detection.minBrightnessIr))
      && r.irReads == retries && r.rgbReads == 0 && r.store == store
  {
    var e := IrLoop(cfg, host, user);
    EnrollCompletes(e, retries, 0, Scan(false, 0.0, store, 0, None));
  }

  /** A bright IR frame but no bright RGB frame: both loops read all their
      frames, the run fails on RGB brightness, and the IR embedding written
      by the first loop (its last bright frame) stays stored. */
  lemma AddRgbTooDarkKeepsIr(cfg: Config, retries: nat, host: Host, store: Store, user: string)
    requires host.modelLoads
    requires forall j :: 0 <= j < retries ==>
      Enrollable(FrameAt(IrLoop(cfg, host, user).frames, j), cfg.detection.minBrightnessIr)
    requires LastBright(IrLoop(cfg, host, user), 0, retries).Some?
    requires forall j :: 0 <= j < retries ==>
      FrameAt(RgbLoop(cfg, host, user).frames, j).Grabbed?
      && FrameAt(RgbLoop(cfg, host, user).frames, j).frame.brightness < cfg.detection.minBrightnessRgb
    ensures var r := Add(cfg, retries, host, store, user);
      && r.result == Err(BrightnessTooLow(RGB,
           FrameAt(RgbLoop(cfg, host, user).frames, retries - 1).frame.brightness,
           cfg.detection.minBrightnessRgb))
      && r.irReads == retries && r.rgbReads == retries
      && TensorPath(user, IrTensor) in r.store
      && r.store[TensorPath(user, IrTensor)]
         == EmbeddingAt(IrLoop(cfg, host, user), LastBright(IrLoop(cfg, host, user), 0, retries).value)
  {
    var irLoop := IrLoop(cfg, host, user);
    var ir0 := Scan(false, 0.0, store, 0, None);
    EnrollCompletes(irLoop, retries, 0, ir0);
    var ir := EnrollFrom(irLoop, retries, 0, ir0);
    var rgbLoop := RgbLoop(cfg, host, user);
    var rgb0 := Scan(false, ir.brightness, ir.store, 0, None);
    EnrollCompletes(rgbLoop, retries, 0, rgb0);
    TensorPathInjective(user, IrTensor, user, RgbTensor);
  }

  /** Every frame can be got past and both cameras delivered a bright frame:
      the run succeeds after reading `retries` frames per camera, and each
      file holds the embedding of its camera's last bright frame. */
  lemma AddStoresLastBright(cfg: Config, retries: nat, host: Host, store: Store, user: string)
    requires host.modelLoads
    requires forall j :: 0 <= j < retries ==>
      Enrollable(FrameAt(IrLoop(cfg, host, user).frames, j), cfg.detection.minBrightnessIr)
    requires forall j :: 0 <= j < retries ==>
      Enrollable(FrameAt(RgbLoop(cfg, host, user).frames, j), cfg.detection.minBrightnessRgb)
    requires LastBright(IrLoop(cfg, host, user), 0, retries).Some?
    requires LastBright(RgbLoop(cfg, host, user), 0, retries).Some?
    ensures var r := Add(cfg, retries, host, store, user);
      && r.result == Ok(())
      && r.irReads == retries && r.rgbReads == retries
      && r.store == store[TensorPath(user, IrTensor) :=
                          EmbeddingAt(IrLoop(cfg, host, user), LastBright(IrLoop(cfg, host, user), 0, retries).value)]
                         [TensorPath(user, RgbTensor) :=
                          EmbeddingAt(RgbLoop(cfg, host, user), LastBright(RgbLoop(cfg, host, user), 0, retries).value)]
  {
    var irLoop := IrLoop(cfg, host, user);
    var ir0 := Scan(false, 0.0, store, 0, None);
    EnrollCompletes(irLoop, retries, 0, ir0);
    var ir := EnrollFrom(irLoop, retries, 0, ir0);
    var rgbLoop := RgbLoop(cfg, host, user);
    EnrollCompletes(rgbLoop, retries, 0, Scan(false, ir.brightness, ir.store, 0, None));
  }

  /** An IR camera that did not open delivers only empty frames, whose
      brightness is 0 and which cannot be embedded. Against a positive minimum
      (or with no passes at all) every read is too dark, so enrollment fails
      on IR brightness 0.0; otherwise the first empty frame counts as bright
      and its extraction fails. Either way nothing is stored. */
  lemma AddWithoutIrCamera(cfg: Config, retries: nat, host: Host, store: Store, user: string)
    requires host.modelLoads && cfg.video.deviceIr !in host.cameras
    ensures cfg.detection.minBrightnessIr > 0.0 || retries == 0 ==>
      Add(cfg, retries, host, store, user)
      == AddRun(Err(BrightnessTooLow(IR, 0.0, cfg.detection.minBrightnessIr)), store, retries, 0)
    ensures cfg.detection.minBrightnessIr <= 0.0 && retries > 0 ==>
      Add(cfg, retries, host, store, user) == AddRun(Err(ExtractFailed), store, 1, 0)
  {
    if cfg.detection.minBrightnessIr > 0.0 || retries == 0 {
      AddIrTooDark(cfg, retries, host, store, user);
    } else {
      assert FrameAt(IrLoop(cfg, host, user).frames, 0) == Blank;
    }
  }

  /** `cmd_add` as the source runs it. */
  method CmdAdd(cfg: Config, retries: nat, host: Host, store: Store, user: string)
    returns (result: Result<()>, stored: Store, irReads: nat, rgbReads: nat)
    ensures AddRun(result, stored, irReads, rgbReads) == Add(cfg, retries, host, store, user)
  {
    if !host.modelLoads {
      return Err(ModelLoadFailed), store, 0, 0;
    }
    var ir := EnrollLoop(IrLoop(cfg, host, user), retries, 0.0, store);
    if ir.failure.Some? {
      return Err(ir.failure.value), ir.store, ir.framesRead, 0;
    }
    if !ir.found {
      return Err(BrightnessTooLow(IR, ir.brightness, cfg.detection.minBrightnessIr)), ir.store, ir.framesRead, 0;
    }
    var rgb := EnrollLoop(RgbLoop(cfg, host, user), retries, ir.brightness, ir.store);
    if rgb.failure.Some? {
      return Err(rgb.failure.value), rgb.store, ir.framesRead, rgb.framesRead;
    }
    if !rgb.found {
      return Err(BrightnessTooLow(RGB, rgb.brightness, cfg.detection.minBrightnessRgb)), rgb.store, ir.framesRead, rgb.framesRead;
    }
    return Ok(()), rgb.store, ir.framesRead, rgb.framesRead;
  }

  // ---------------------------------------------------------------------
  // cmd_test
  // ---------------------------------------------------------------------

  /** `cmd_test`: the user's directory must exist, then the same setup as
      `cmd_auth`, then the interactive loop until ESC. */
  method CmdTest(cfg: Config, host: Host, store: Store, user: string, keys: seq<int>, cosine: Cosine)
    returns (result: Result<()>, verdicts: seq<Verdict>)
    ensures !DirExists(store, UserDir(user)) ==> result == Err(UserNotFound) && verdicts == []
    ensures DirExists(store, UserDir(user)) && Prepare(cfg, host, store, user, cosine).Err? ==>
      result == Err(Prepare(cfg, host, store, user, cosine).error) && verdicts == []
    ensures DirExists(store, UserDir(user)) && Prepare(cfg, host, store, user, cosine).Ok? ==>
      PreviewRun(result, verdicts) == PreviewFrom(Prepare(cfg, host, store, user, cosine).value, keys, 0)
  {
    if !DirExists(store, UserDir(user)) {
      return Err(UserNotFound), [];
    }
    var setup := Prepare(cfg, host, store, user, cosine);
    if setup.Err? {
      return Err(setup.error), [];
    }
    result, verdicts := PreviewLoop(setup.value, keys);
  }

  /** An RGB-mode check after an enrollment whose RGB loop failed: the
      user's directory exists (the IR file was written), so the existence
      check passes and the run fails later, on the missing RGB file. */
  lemma TestAfterPartialEnrollment(cfg: Config, host: Host, store: Store, user: string, e: Embedding, cosine: Cosine)
    requires cfg.video.mode == RGB && host.modelLoads
    requires TensorPath(user, RgbTensor) !in store
    ensures DirExists(SaveTensor(store, user, IrTensor, e), UserDir(user))
    ensures Prepare(cfg, host, SaveTensor(store, user, IrTensor, e), user, cosine)
         == Err(ReferenceMissing(TensorPath(user, RgbTensor)))
  {
    SaveCreatesUserDir(store, user, IrTensor, e);
    LoadAfterSave(store, user, IrTensor, e, user, RgbTensor);
  }
}
