// The command layer: the image-extension filter, model preloading with its
// file-name scale fallback, the registry of running jobs and their
// cancellation flags, the per-file loop of a batch job with its report,
// and the edits of the per-model override file.  What the engine does for
// one file, what saving a result gives and what writing the override file
// gives are inputs; event emission and the async runtime are not modelled.

module Commands {
  import opened Errors
  import opened Text
  import opened Paths
  import opened Inference
  import opened State
  import opened Models

  // ---------------------------------------------------------------------
  // Extension filter

  const SUPPORTED_EXTENSIONS: set<string> := {"png", "jpg", "jpeg", "webp"}

  /** An image the batch commands accept: its lower-cased extension is png, jpg, jpeg or webp. */
  function IsSupportedImage(path: Path): (r: bool)
    ensures r <==> Extension(path).Some? && ToLower(Extension(path).value) in SUPPORTED_EXTENSIONS
    ensures Extension(path).None? ==> !r
  {
    match Extension(path)
    case None => false
    case Some(ext) => ToLower(ext) in SUPPORTED_EXTENSIONS
  }

  /**
   * A file "stem.ext" is supported exactly when its extension, in any case,
   * is one of the four image extensions; the stem plays no part.
   */
  lemma SupportedByExtension(dir: Path, stem: string, ext: string)
    requires stem != [] && ext != [] && '.' !in ext
    ensures IsSupportedImage(dir + [stem + "." + ext]) <==> ToLower(ext) in SUPPORTED_EXTENSIONS
  {
    StemAndExtension(dir, stem, ext);
  }

  // ---------------------------------------------------------------------
  // Preloading a model

  datatype PreloadResponse = PreloadResponse(scale: nat, batchSize: Option<nat>)

  const PRELOAD_NOT_FOUND: AppError := Unknown("Model file not found")

  /** A detected scale, or the scale read off the file name when detection fails. */
  function ScaleOrGuess(detected: AppResult<nat>, filename: string): (s: nat)
    ensures detected.Ok? ==> s == detected.value
    ensures detected.Err? ==> s in {2, 3, 4} && s == FilenameScale(filename)
  {
    if detected.Ok? then detected.value else FilenameScale(filename)
  }

  /**
   * Loads (or takes from the cache) the session of models/<filename> and
   * reports its scale: the detected scale, or on a failed detection the
   * file-name guess; the batch size is left to the manifest.  `fileExists`
   * says whether the file is there, `lowMemory` is the free-memory probe,
   * `load` loads a session and `probeOf` runs a session on a test input.
   */
  method PreloadModel<S>(state: AppState<S>, modelsDir: Path, filename: string, preferNpu: bool, fileExists: bool,
                         lowMemory: bool, load: (Path, bool) -> AppResult<S>, probeOf: S -> Probe)
    returns (r: AppResult<PreloadResponse>)
    modifies state
    ensures var path := Paths.Join(modelsDir, filename);
            var q := RequestModel(old(state.modelSlot), path, lowMemory, load(path, preferNpu));
            (!fileExists ==> r == Err(PRELOAD_NOT_FOUND) && state.modelSlot == old(state.modelSlot)
                             && state.scaleCache == old(state.scaleCache))
            && (fileExists && q.result.Err? ==> r == Err(q.result.error) && state.modelSlot == q.slot
                                                && state.scaleCache == old(state.scaleCache))
            && (fileExists && q.result.Ok? ==>
                  var s := QueryScale(old(state.scaleCache), path, DetectScaleSpec(probeOf(q.result.value)));
                  r == Ok(PreloadResponse(ScaleOrGuess(s.result, filename), None))
                  && state.modelSlot == q.slot && state.scaleCache == s.scales)
    ensures state.jobs == old(state.jobs) && state.runningJobs == old(state.runningJobs)
  {
    var path := Paths.Join(modelsDir, filename);
    if !fileExists {
      return Err(PRELOAD_NOT_FOUND);
    }
    var session := state.GetOrLoadModel(path, preferNpu, lowMemory, load);
    if session.Err? {
      return Err(session.error);
    }
    var detected := state.GetModelScale(path, probeOf(session.value));
    var scale := if detected.Ok? then detected.value else FilenameScale(filename);
    return Ok(PreloadResponse(scale, None));
  }

  /**
   * A model whose scale detection failed once is never probed again: a
   * second preload reports the file-name guess from the negative cache.
   */
  lemma PreloadAfterFailedDetection(scales: map<Path, nat>, path: Path, filename: string,
                                    detection: AppResult<nat>, again: AppResult<nat>)
    requires path !in scales && detection.Err?
    ensures var first := QueryScale(scales, path, detection);
            var second := QueryScale(first.scales, path, again);
            !second.detected && ScaleOrGuess(second.result, filename) == FilenameScale(filename)
            && ScaleOrGuess(first.result, filename) == FilenameScale(filename)
  {
  }

  // ---------------------------------------------------------------------
  // Job registry

  /** The id a job runs under: the one given, else a fresh one. */
  function JobId(id: Option<string>, generated: string): (r: string)
    ensures id.Some? ==> r == id.value
    ensures id.None? ==> r == generated
  {
    if id.Some? then id.value else generated
  }

  /**
   * Sets the cancellation flag of a running job; an unknown id changes
   * nothing.  Either way the command succeeds.
   */
  method CancelJob<S>(state: AppState<S>, jobId: string) returns (r: AppResult<()>)
    modifies if jobId in state.runningJobs then {state.runningJobs[jobId]} else {}
    ensures r == Ok(())
    ensures jobId in state.runningJobs ==> state.runningJobs[jobId].cancelled
  {
    if jobId in state.runningJobs {
      var flag := state.runningJobs[jobId];
      flag.Cancel();
    }
    return Ok(());
  }

  /**
   * Runs one upscale job: a fresh, unset flag is registered under the job
   * id before the engine runs, and the entry is removed only when the run
   * succeeds; a failed run leaves its flag registered.  `outcome` is what
   * the engine run gives (the saved file's path, or an error).
   */
  method UpscaleImage<S>(state: AppState<S>, id: Option<string>, generated: string, outcome: AppResult<string>)
    returns (r: AppResult<string>, flag: CancelFlag)
    modifies state
    ensures r == outcome
    ensures fresh(flag) && !flag.cancelled
    ensures var jobId := JobId(id, generated);
            (outcome.Ok? ==> state.runningJobs == old(state.runningJobs) - {jobId})
            && (outcome.Err? ==> state.runningJobs == old(state.runningJobs)[jobId := flag])
    ensures state.jobs == old(state.jobs) && state.modelSlot == old(state.modelSlot)
    ensures state.scaleCache == old(state.scaleCache)
  {
    var jobId := JobId(id, generated);
    flag := new CancelFlag();
    state.runningJobs := state.runningJobs[jobId := flag];
    r := outcome;
    if r.Err? {
      return;
    }
    state.runningJobs := state.runningJobs - {jobId};
  }

  // ---------------------------------------------------------------------
  // Batch job

  /** What a batch job reports: the output paths saved and the (source, error text) pairs that failed. */
  datatype BatchReport = BatchReport(successful: seq<Path>, failed: seq<(Path, string)>)

  /** Each file's results go to an "upscaled" directory beside it; a path without a parent keeps the configured one. */
  function FileOutputDir(path: Path, configured: Option<Path>): Option<Path>
  {
    match Parent(path)
    case None => configured
    case Some(parent) => Some(Paths.Join(parent, "upscaled"))
  }

  /**
   * dir/name is written to dir/upscaled whatever the configured directory,
   * so files of different folders never share an output folder; the
   * configured directory is used only for a path with no parent.
   */
  lemma OutputBesideSource(dir: Path, name: string, configured: Option<Path>)
    ensures FileOutputDir(dir + [name], configured) == Some(dir + ["upscaled"])
    ensures FileOutputDir([], configured) == configured
  {
    assert (dir + [name])[..|dir|] == dir;
  }

  /** How many files the loop looks at when the flag is first seen set before file `cancelAt`. */
  function ProcessedCount(total: nat, cancelAt: Option<nat>): (n: nat)
    ensures n <= total
    ensures cancelAt.None? ==> n == total
    ensures cancelAt.Some? ==> n == (if cancelAt.value < total then cancelAt.value else total)
  {
    if cancelAt.Some? && cancelAt.value < total then cancelAt.value else total
  }

  /**
   * The text a command reports an error with, its `to_string`.  Reports
   * are stated in terms of this name so that proofs about which files
   * failed never look inside the message text.
   */
  function ErrorText(e: AppError): string
  {
    Display(e)
  }

  /** Outcome of running inference on file k with the given output directory. */
  type InferOutcome = (nat, Option<Path>) -> AppResult<()>
  /** Outcome of saving file k's result with the given output directory: the written path. */
  type SaveOutcome = (nat, Option<Path>) -> AppResult<Path>

  /** Indices among the first n files whose inference succeeded, in order: the saves waited for. */
  function Pending(paths: seq<Path>, n: nat, configured: Option<Path>, infer: InferOutcome): (r: seq<nat>)
    requires n <= |paths|
    ensures |r| <= n
  {
    if n == 0 then []
    else
      var k := n - 1;
      var init := Pending(paths, k, configured, infer);
      if infer(k, FileOutputDir(paths[k], configured)).Ok? then init + [k] else init
  }

  /** Only processed files wait for a save, each as an index into the file list. */
  lemma {:induction false} PendingBelow(paths: seq<Path>, n: nat, configured: Option<Path>, infer: InferOutcome)
    requires n <= |paths|
    ensures AllBelow(Pending(paths, n, configured, infer), n)
    ensures AllBelow(Pending(paths, n, configured, infer), |paths|)
  {
    if n > 0 {
      PendingBelow(paths, n - 1, configured, infer);
    }
  }

  /** The files among the first n whose inference failed, with the error text, in order. */
  function InferFailures(paths: seq<Path>, n: nat, configured: Option<Path>, infer: InferOutcome): (r: seq<(Path, string)>)
    requires n <= |paths|
  {
    if n == 0 then []
    else
      var k := n - 1;
      var init := InferFailures(paths, k, configured, infer);
      var o := infer(k, FileOutputDir(paths[k], configured));
      if o.Ok? then init else init + [(paths[k], ErrorText(o.error))]
  }

  /** Looking at file n - 1 either queues it for saving or reports its failure, and leaves the rest as it was. */
  lemma InferStep(paths: seq<Path>, n: nat, configured: Option<Path>, infer: InferOutcome)
    requires 0 < n <= |paths|
    ensures var k := n - 1;
            var o := infer(k, FileOutputDir(paths[k], configured));
            if o.Ok? then
              Pending(paths, n, configured, infer) == Pending(paths, k, configured, infer) + [k]
              && InferFailures(paths, n, configured, infer) == InferFailures(paths, k, configured, infer)
            else
              Pending(paths, n, configured, infer) == Pending(paths, k, configured, infer)
              && InferFailures(paths, n, configured, infer)
                 == InferFailures(paths, k, configured, infer) + [(paths[k], ErrorText(o.error))]
  {
  }

  /** Looking at one more file adds exactly one entry to the two lists together. */
  lemma InferCountStep(paths: seq<Path>, n: nat, configured: Option<Path>, infer: InferOutcome)
    requires 0 < n <= |paths|
    ensures |Pending(paths, n, configured, infer)| + |InferFailures(paths, n, configured, infer)|
            == |Pending(paths, n - 1, configured, infer)| + |InferFailures(paths, n - 1, configured, infer)| + 1
  {
    InferStep(paths, n, configured, infer);
  }

  /** Every index listed is below n. */
  predicate AllBelow(indices: seq<nat>, n: nat)
  {
    forall j | 0 <= j < |indices| :: indices[j] < n
  }

  /** The written paths of the pending saves that succeeded, in order. */
  function Saved(paths: seq<Path>, pending: seq<nat>, configured: Option<Path>, save: SaveOutcome): (r: seq<Path>)
    requires AllBelow(pending, |paths|)
  {
    if pending == [] then []
    else
      var k := pending[|pending| - 1];
      var init := Saved(paths, pending[..|pending| - 1], configured, save);
      var o := save(k, FileOutputDir(paths[k], configured));
      if o.Ok? then init + [o.value] else init
  }

  /** The pending saves that failed, with the error text, in order. */
  function SaveFailures(paths: seq<Path>, pending: seq<nat>, configured: Option<Path>, save: SaveOutcome)
    : (r: seq<(Path, string)>)
    requires AllBelow(pending, |paths|)
  {
    if pending == [] then []
    else
      var k := pending[|pending| - 1];
      var init := SaveFailures(paths, pending[..|pending| - 1], configured, save);
      var o := save(k, FileOutputDir(paths[k], configured));
      if o.Ok? then init else init + [(paths[k], ErrorText(o.error))]
  }

  /** Waiting for pending save j either collects its written path or reports its failure. */
  lemma SaveStep(paths: seq<Path>, pending: seq<nat>, j: nat, configured: Option<Path>, save: SaveOutcome)
    requires AllBelow(pending, |paths|) && j < |pending|
    ensures AllBelow(pending[..j], |paths|) && AllBelow(pending[..j + 1], |paths|)
    ensures var k := pending[j];
            var o := save(k, FileOutputDir(paths[k], configured));
            if o.Ok? then
              Saved(paths, pending[..j + 1], configured, save) == Saved(paths, pending[..j], configured, save) + [o.value]
              && SaveFailures(paths, pending[..j + 1], configured, save) == SaveFailures(paths, pending[..j], configured, save)
            else
              Saved(paths, pending[..j + 1], configured, save) == Saved(paths, pending[..j], configured, save)
              && SaveFailures(paths, pending[..j + 1], configured, save)
                 == SaveFailures(paths, pending[..j], configured, save) + [(paths[k], ErrorText(o.error))]
  {
    assert pending[..j + 1][..j] == pending[..j];
  }

  /**
   * The report of a batch job whose loop stops before file `cancelAt`:
   * the saved paths, then the inference failures followed by the save
   * failures.
   */
  function BatchSpec(paths: seq<Path>, configured: Option<Path>, cancelAt: Option<nat>,
                     infer: InferOutcome, save: SaveOutcome): BatchReport
  {
    var n := ProcessedCount(|paths|, cancelAt);
    var pending := Pending(paths, n, configured, infer);
    PendingBelow(paths, n, configured, infer);
    BatchReport(Saved(paths, pending, configured, save),
                InferFailures(paths, n, configured, infer) + SaveFailures(paths, pending, configured, save))
  }

  /** Inference splits the processed files: each either waits for its save or is reported failed. */
  lemma {:induction false} InferencePartition(paths: seq<Path>, n: nat, configured: Option<Path>, infer: InferOutcome)
    requires n <= |paths|
    ensures |Pending(paths, n, configured, infer)| + |InferFailures(paths, n, configured, infer)| == n
  {
    if n > 0 {
      InferencePartition(paths, n - 1, configured, infer);
      InferCountStep(paths, n, configured, infer);
    }
  }

  /** Each pending save is either saved or reported failed. */
  lemma {:induction false} SavePartition(paths: seq<Path>, pending: seq<nat>, configured: Option<Path>, save: SaveOutcome)
    requires AllBelow(pending, |paths|)
    ensures |Saved(paths, pending, configured, save)| + |SaveFailures(paths, pending, configured, save)| == |pending|
  {
    if pending != [] {
      SavePartition(paths, pending[..|pending| - 1], configured, save);
    }
  }

  /**
   * Every processed file ends up in exactly one of the two lists: the
   * report has as many entries as files looked at, which is every file
   * unless the job was cancelled.  Files after the cancellation point
   * appear in neither list.
   */
  lemma BatchAccountsForEveryFile(paths: seq<Path>, configured: Option<Path>, cancelAt: Option<nat>,
                                  infer: InferOutcome, save: SaveOutcome)
    ensures var report := BatchSpec(paths, configured, cancelAt, infer, save);
            |report.successful| + |report.failed| == ProcessedCount(|paths|, cancelAt)
    ensures cancelAt.None? ==>
              var report := BatchSpec(paths, configured, None, infer, save);
              |report.successful| + |report.failed| == |paths|
  {
    var n := ProcessedCount(|paths|, cancelAt);
    InferencePartition(paths, n, configured, infer);
    PendingBelow(paths, n, configured, infer);
    SavePartition(paths, Pending(paths, n, configured, infer), configured, save);
    InferencePartition(paths, |paths|, configured, infer);
    PendingBelow(paths, |paths|, configured, infer);
    SavePartition(paths, Pending(paths, |paths|, configured, infer), configured, save);
  }

  /** Every failure names one of the processed files. */
  lemma InferFailuresNameProcessed(paths: seq<Path>, n: nat, configured: Option<Path>, infer: InferOutcome)
    requires n <= |paths|
    ensures forall f | f in InferFailures(paths, n, configured, infer) :: f.0 in paths[..n]
  {
    forall f | f in InferFailures(paths, n, configured, infer)
      ensures f.0 in paths[..n]
    {
      FailureNamesProcessed(paths, n, configured, infer, f);
    }
  }

  /** The file one failure names is among the processed ones. */
  lemma {:induction false} FailureNamesProcessed(paths: seq<Path>, n: nat, configured: Option<Path>, infer: InferOutcome,
                                                 f: (Path, string))
    requires n <= |paths| && f in InferFailures(paths, n, configured, infer)
    ensures f.0 in paths[..n]
  {
    var k := n - 1;
    InferStep(paths, n, configured, infer);
    if f in InferFailures(paths, k, configured, infer) {
      FailureNamesProcessed(paths, k, configured, infer, f);
      var i :| 0 <= i < k && paths[..k][i] == f.0;
      assert paths[..n][i] == f.0;
    } else {
      assert f.0 == paths[..n][k];
    }
  }

  /**
   * The per-file loop of a batch job: before each file the flag is read
   * and the loop stops once it is set; a failed inference is reported at
   * once and a successful one queued for saving.  Another command sets the
   * flag just before file `cancelAt` is looked at.
   */
  method InferEach(paths: seq<Path>, configured: Option<Path>, cancelAt: Option<nat>, infer: InferOutcome,
                   flag: CancelFlag)
    returns (pending: seq<nat>, failed: seq<(Path, string)>)
    requires !flag.cancelled
    modifies flag
    ensures var n := ProcessedCount(|paths|, cancelAt);
            pending == Pending(paths, n, configured, infer) && failed == InferFailures(paths, n, configured, infer)
  {
    ghost var n := ProcessedCount(|paths|, cancelAt);
    pending := [];
    failed := [];
    var i := 0;
    while i < |paths|
      invariant i <= n
      invariant flag.cancelled <==> cancelAt.Some? && cancelAt.value < i
      invariant pending == Pending(paths, i, configured, infer)
      invariant failed == InferFailures(paths, i, configured, infer)
    {
      var stop := PollCancel(i, cancelAt, flag);
      if stop {
        assert i == n;
        break;
      }
      assert i < n;
      pending, failed := InferOne(paths, i, configured, infer, pending, failed);
      i := i + 1;
    }
    assert i == n;
  }

  /** The cancel check before file i: the flag is raised once the job is cancelled at i. */
  method PollCancel(i: nat, cancelAt: Option<nat>, flag: CancelFlag) returns (stop: bool)
    requires flag.cancelled <==> cancelAt.Some? && cancelAt.value < i
    modifies flag
    ensures stop == flag.cancelled
    ensures flag.cancelled <==> cancelAt.Some? && cancelAt.value <= i
  {
    if cancelAt == Some(i) {
      flag.Cancel();
    }
    stop := flag.cancelled;
  }

  /** One pass of the per-file loop: file i is run and either queued for saving or reported failed. */
  method InferOne(paths: seq<Path>, i: nat, configured: Option<Path>, infer: InferOutcome,
                  pending: seq<nat>, failed: seq<(Path, string)>)
    returns (pending': seq<nat>, failed': seq<(Path, string)>)
    requires i < |paths|
    requires pending == Pending(paths, i, configured, infer) && failed == InferFailures(paths, i, configured, infer)
    ensures pending' == Pending(paths, i + 1, configured, infer)
    ensures failed' == InferFailures(paths, i + 1, configured, infer)
  {
    var outDir := FileOutputDir(paths[i], configured);
    var result := infer(i, outDir);
    InferStep(paths, i + 1, configured, infer);
    if result.Ok? {
      pending', failed' := pending + [i], failed;
    } else {
      pending', failed' := pending, failed + [(paths[i], ErrorText(result.error))];
    }
  }

  /** Waits for the queued saves in order, collecting written paths and failures. */
  method AwaitSaves(paths: seq<Path>, pending: seq<nat>, configured: Option<Path>, save: SaveOutcome)
    returns (successful: seq<Path>, failed: seq<(Path, string)>)
    requires AllBelow(pending, |paths|)
    ensures successful == Saved(paths, pending, configured, save)
    ensures failed == SaveFailures(paths, pending, configured, save)
  {
    successful := [];
    failed := [];
    var j := 0;
    assert pending[..0] == [];
    while j < |pending|
      invariant 0 <= j <= |pending| && AllBelow(pending[..j], |paths|)
      invariant successful == Saved(paths, pending[..j], configured, save)
      invariant failed == SaveFailures(paths, pending[..j], configured, save)
    {
      var k := pending[j];
      var saved := save(k, FileOutputDir(paths[k], configured));
      SaveStep(paths, pending, j, configured, save);
      if saved.Ok? {
        successful := successful + [saved.value];
      } else {
        failed := failed + [(paths[k], ErrorText(saved.error))];
      }
      j := j + 1;
    }
    assert pending[..j] == pending;
  }

  /**
   * Runs a batch job.  A fresh, unset flag is registered under the job
   * id first.  If loading the model fails the job ends with that error's
   * text and its flag stays registered.  Otherwise the files are run in
   * order until the flag is seen set, the saves are waited for, and the
   * flag is removed.  `modelLoad` is the outcome of loading the model.
   */
  method UpscaleMultiple<S>(state: AppState<S>, id: Option<string>, generated: string, paths: seq<Path>,
                            configured: Option<Path>, modelLoad: AppResult<()>, cancelAt: Option<nat>,
                            infer: InferOutcome, save: SaveOutcome)
    returns (r: AppResult<BatchReport>, flag: CancelFlag)
    modifies state
    ensures fresh(flag)
    ensures var jobId := JobId(id, generated);
            (modelLoad.Err? ==> r == Err(Unknown(ErrorText(modelLoad.error)))
                                && state.runningJobs == old(state.runningJobs)[jobId := flag] && !flag.cancelled)
            && (modelLoad.Ok? ==> r == Ok(BatchSpec(paths, configured, cancelAt, infer, save))
                                  && state.runningJobs == old(state.runningJobs) - {jobId})
    ensures state.jobs == old(state.jobs) && state.modelSlot == old(state.modelSlot)
    ensures state.scaleCache == old(state.scaleCache)
  {
    var jobId := JobId(id, generated);
    flag := new CancelFlag();
    state.runningJobs := state.runningJobs[jobId := flag];
    if modelLoad.Err? {
      return Err(Unknown(ErrorText(modelLoad.error))), flag;
    }
    var pending, inferFailed := InferEach(paths, configured, cancelAt, infer, flag);
    PendingBelow(paths, ProcessedCount(|paths|, cancelAt), configured, infer);
    var successful, saveFailed := AwaitSaves(paths, pending, configured, save);
    assert state.runningJobs - {jobId} == old(state.runningJobs) - {jobId};
    state.runningJobs := state.runningJobs - {jobId};
    r := Ok(BatchReport(successful, inferFailed + saveFailed));
  }

  // ---------------------------------------------------------------------
  // Model override edits

  const NOT_FOUND_AFTER_UPDATE: string := "Model file not found after update"

  /**
   * Sets the override of model `id` to exactly the given name, description
   * and batch size, writes the override file, and returns the model's
   * manifest rescanned with the edited overrides.  `stored` is the override
   * map read from disk, `written` what is written back, `writeOutcome` the
   * outcome of writing it and `modelExists` whether models/<id> exists.
   */
  method UpdateModelInfo(modelsDir: Path, stored: map<string, UserModelInfo>, id: string, name: string,
                         description: string, batchSize: Option<nat>, writeOutcome: Result<(), string>,
                         modelExists: bool)
    returns (r: Result<ModelManifest, string>, written: map<string, UserModelInfo>)
    ensures written == stored[id := UserModelInfo(name, description, batchSize)]
    ensures writeOutcome.Err? ==> r == Err(writeOutcome.error)
    ensures writeOutcome.Ok? && !modelExists ==> r == Err(NOT_FOUND_AFTER_UPDATE)
    ensures writeOutcome.Ok? && modelExists ==>
              var scanned := ScanFile(Paths.Join(modelsDir, id), written);
              (scanned.Err? ==> r == Err(ErrorText(scanned.error)))
              && (scanned.Ok? ==> r == Ok(scanned.value) && r.value.id == id && r.value.name == name
                                  && r.value.description == description && r.value.batchSize == batchSize)
  {
    var config := new ModelUserConfig(stored);
    config.SetOverride(id, name, description, batchSize);
    written := config.overrides;
    if writeOutcome.Err? {
      return Err(writeOutcome.error), written;
    }
    if !modelExists {
      return Err(NOT_FOUND_AFTER_UPDATE), written;
    }
    var scanned := ScanFile(Paths.Join(modelsDir, id), config.overrides);
    if scanned.Err? {
      return Err(ErrorText(scanned.error)), written;
    }
    r := Ok(scanned.value);
  }

  /**
   * Removes the override of model `id`.  The file is written only when
   * there was one; `written` is what is written, if anything.  Without an
   * override the command succeeds without writing.
   */
  method ResetModelInfo(stored: map<string, UserModelInfo>, id: string, writeOutcome: Result<(), string>)
    returns (r: Result<(), string>, written: Option<map<string, UserModelInfo>>)
    ensures written.Some? <==> id in stored
    ensures written.Some? ==> written.value == stored - {id} && id !in written.value
    ensures r.Err? <==> id in stored && writeOutcome.Err?
    ensures r.Err? ==> r == Err(writeOutcome.error)
  {
    var config := new ModelUserConfig(stored);
    var existed := config.RemoveOverride(id);
    written := None;
    r := Ok(());
    if existed {
      written := Some(config.overrides);
      if writeOutcome.Err? {
        r := Err(writeOutcome.error);
      }
    }
  }
}
