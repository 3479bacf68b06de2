// Application state shared by every command: the in-memory job list, the
// registry of cancellation flags of running jobs, the single-slot cache of
// the loaded model session, and the per-model cache of detected scales, in
// which 0 records a failed detection.  Loading a session and the memory
// probe are inputs; writing the job list to disk is reduced to its outcome.

module State {
  import opened Errors
  import opened Paths
  import opened Inference

  /** A job of the persistent job list. */
  datatype Job = Job(id: string, path: string, status: string, model: string)

  /** A cancellation flag shared between a running job and the command that cancels it. */
  class CancelFlag {
    var cancelled: bool

    constructor ()
      ensures !cancelled
    {
      cancelled := false;
    }

    method Cancel()
      modifies this
      ensures cancelled
    {
      cancelled := true;
    }
  }

  // ---------------------------------------------------------------------
  // Job list.

  /** Index of the first job with the given id. */
  function FirstWithId(jobs: seq<Job>, id: string): (r: Option<nat>)
    ensures r.None? <==> forall k | 0 <= k < |jobs| :: jobs[k].id != id
    ensures r.Some? ==> r.value < |jobs| && jobs[r.value].id == id
                        && forall k | 0 <= k < r.value :: jobs[k].id != id
  {
    if jobs == [] then None
    else if jobs[0].id == id then Some(0)
    else
      match FirstWithId(jobs[1..], id)
      case None => None
      case Some(k) => Some(k + 1)
  }

  /** The job list after setting the status of the first job with the given id. */
  function WithStatus(jobs: seq<Job>, id: string, status: string): (r: seq<Job>)
    ensures |r| == |jobs|
    ensures forall k | 0 <= k < |jobs| ::
              r[k].id == jobs[k].id && r[k].path == jobs[k].path && r[k].model == jobs[k].model
    ensures forall k | 0 <= k < |jobs| && r[k] != jobs[k] :: FirstWithId(jobs, id) == Some(k)
    ensures FirstWithId(jobs, id).Some? ==> r[FirstWithId(jobs, id).value].status == status
    ensures FirstWithId(jobs, id).None? ==> r == jobs
  {
    match FirstWithId(jobs, id)
    case None => jobs
    case Some(i) => jobs[i := jobs[i].(status := status)]
  }

  /** Setting the same status twice is the same as setting it once. */
  lemma WithStatusIdempotent(jobs: seq<Job>, id: string, status: string)
    ensures WithStatus(WithStatus(jobs, id, status), id, status) == WithStatus(jobs, id, status)
  {
  }

  // ---------------------------------------------------------------------
  // Model cache: one slot holding the path and session of the last model loaded.

  /** What a model request gives: the session or error, the slot afterwards, and whether a load ran. */
  datatype ModelRequest<S> = ModelRequest(result: AppResult<S>, slot: Option<(Path, S)>, loaded: bool)

  /**
   * A model request: with little free memory the model is loaded and the
   * cache is neither read nor written; otherwise a slot holding the
   * requested path answers without loading, and a miss loads the model and,
   * when the load succeeds, replaces the slot.  `load` is what loading the
   * model would give.
   */
  function RequestModel<S>(slot: Option<(Path, S)>, path: Path, lowMemory: bool, load: AppResult<S>): (q: ModelRequest<S>)
    ensures lowMemory ==> q.result == load && q.slot == slot && q.loaded
    ensures !lowMemory && slot.Some? && slot.value.0 == path ==> q.result == Ok(slot.value.1) && q.slot == slot && !q.loaded
    ensures q.loaded <==> lowMemory || slot.None? || slot.value.0 != path
    ensures q.result.Err? ==> q.slot == slot && q.result == load
    ensures q.slot != slot ==> load.Ok? && q.slot == Some((path, load.value)) && q.result == load
  {
    if lowMemory then ModelRequest(load, slot, true)
    else if slot.Some? && slot.value.0 == path then ModelRequest(Ok(slot.value.1), slot, false)
    else
      match load
      case Err(e) => ModelRequest(Err(e), slot, true)
      case Ok(s) => ModelRequest(Ok(s), Some((path, s)), true)
  }

  /**
   * After a request that loaded the model into the slot, asking again for
   * the same path gives the same session without loading, whatever a new
   * load would give.
   */
  lemma RequestAgainHits<S>(slot: Option<(Path, S)>, path: Path, load: AppResult<S>, reload: AppResult<S>)
    requires load.Ok?
    ensures var first := RequestModel(slot, path, false, load);
            var second := RequestModel(first.slot, path, false, reload);
            second.result == first.result && second.slot == first.slot && !second.loaded
  {
  }

  // ---------------------------------------------------------------------
  // Scale cache: detected scale per model path, 0 marking a failed detection.

  const NEGATIVE_CACHE_HIT: AppError := Unknown("Model previously failed scale detection (Negative Cache)")

  /** What a scale query gives: the scale or error, the cache afterwards, and whether detection ran. */
  datatype ScaleQuery = ScaleQuery(result: AppResult<nat>, scales: map<Path, nat>, detected: bool)

  /**
   * A scale query: a cached 0 is an error and a cached scale the answer,
   * neither running detection; otherwise detection runs and its outcome is
   * recorded, the scale on success and 0 on failure.  `detection` is what
   * running detection would give.
   */
  function QueryScale(scales: map<Path, nat>, path: Path, detection: AppResult<nat>): (q: ScaleQuery)
    ensures q.detected <==> path !in scales
    ensures path in scales ==> q.scales == scales
                               && q.result == (if scales[path] == 0 then Err(NEGATIVE_CACHE_HIT) else Ok(scales[path]))
    ensures path !in scales ==> q.result == detection
    ensures path in q.scales && q.scales.Keys == scales.Keys + {path}
    ensures forall p | p in scales && p != path :: q.scales[p] == scales[p]
    ensures path !in scales ==> q.scales[path] == (if detection.Ok? then detection.value else 0)
  {
    if path in scales then
      ScaleQuery(if scales[path] == 0 then Err(NEGATIVE_CACHE_HIT) else Ok(scales[path]), scales, false)
    else
      match detection
      case Ok(scale) => ScaleQuery(Ok(scale), scales[path := scale], true)
      case Err(e) => ScaleQuery(Err(e), scales[path := 0], true)
  }

  /**
   * Detection runs at most once per path: a second query never runs it,
   * repeats a non-zero scale and turns any failure into the negative-cache
   * error.  A detected scale of 0 is returned once and is a failure
   * afterwards.
   */
  lemma QueryAgain(scales: map<Path, nat>, path: Path, detection: AppResult<nat>, again: AppResult<nat>)
    ensures var first := QueryScale(scales, path, detection);
            var second := QueryScale(first.scales, path, again);
            !second.detected && second.scales == first.scales
            && (first.result.Ok? && first.result.value > 0 ==> second.result == first.result)
            && (first.result.Err? ==> second.result == Err(NEGATIVE_CACHE_HIT))
            && (path !in scales && detection == Ok(0) ==> first.result == Ok(0) && second.result == Err(NEGATIVE_CACHE_HIT))
  {
  }

  /** Invalidation forgets one path's scale and nothing else. */
  function Invalidate(scales: map<Path, nat>, path: Path): (r: map<Path, nat>)
    ensures path !in r && r.Keys == scales.Keys - {path}
    ensures forall p | p in r :: r[p] == scales[p]
  {
    scales - {path}
  }

  /** After invalidation the next query of that path runs detection again and reports its outcome. */
  lemma QueryAfterInvalidate(scales: map<Path, nat>, path: Path, detection: AppResult<nat>)
    ensures var q := QueryScale(Invalidate(scales, path), path, detection);
            q.detected && q.result == detection
  {
  }

  // ---------------------------------------------------------------------
  // The state object.

  class AppState<S> {
    var jobs: seq<Job>
    var runningJobs: map<string, CancelFlag>
    var modelSlot: Option<(Path, S)>
    var scaleCache: map<Path, nat>
    /** Number of model loads and scale detections run so far. */
    ghost var loads: nat
    ghost var detections: nat

    /** A fresh state over the job list read at start-up. */
    constructor (storedJobs: seq<Job>)
      ensures jobs == storedJobs && runningJobs == map[] && modelSlot == None && scaleCache == map[]
      ensures loads == 0 && detections == 0
    {
      jobs := storedJobs;
      runningJobs := map[];
      modelSlot := None;
      scaleCache := map[];
      loads := 0;
      detections := 0;
    }

    /** Appends a job; `saved` is the outcome of writing the list to disk, which is returned. */
    method AddJob(job: Job, saved: AppResult<()>) returns (r: AppResult<()>)
      modifies this
      ensures jobs == old(jobs) + [job] && r == saved
      ensures runningJobs == old(runningJobs) && modelSlot == old(modelSlot) && scaleCache == old(scaleCache)
      ensures loads == old(loads) && detections == old(detections)
    {
      jobs := jobs + [job];
      r := saved;
    }

    /** Sets the status of the first job with the given id, if any; `saved` as for AddJob. */
    method UpdateJobStatus(id: string, status: string, saved: AppResult<()>) returns (r: AppResult<()>)
      modifies this
      ensures jobs == WithStatus(old(jobs), id, status) && r == saved
      ensures runningJobs == old(runningJobs) && modelSlot == old(modelSlot) && scaleCache == old(scaleCache)
      ensures loads == old(loads) && detections == old(detections)
    {
      var i := 0;
      while i < |jobs| && jobs[i].id != id
        invariant 0 <= i <= |jobs|
        invariant forall k | 0 <= k < i :: jobs[k].id != id
      {
        i := i + 1;
      }
      if i < |jobs| {
        assert FirstWithId(jobs, id) == Some(i);
        jobs := jobs[i := jobs[i].(status := status)];
      }
      r := saved;
    }

    /**
     * Returns the session of the model at `path`.  `lowMemory` is the
     * outcome of the free-memory probe and `load` loads a model.
     */
    method GetOrLoadModel(path: Path, preferNpu: bool, lowMemory: bool, load: (Path, bool) -> AppResult<S>)
      returns (r: AppResult<S>)
      modifies this
      ensures var q := RequestModel(old(modelSlot), path, lowMemory, load(path, preferNpu));
              r == q.result && modelSlot == q.slot && loads == old(loads) + (if q.loaded then 1 else 0)
      ensures jobs == old(jobs) && runningJobs == old(runningJobs) && scaleCache == old(scaleCache)
      ensures detections == old(detections)
    {
      if lowMemory {
        loads := loads + 1;
        r := load(path, preferNpu);
        return;
      }
      if modelSlot.Some? && modelSlot.value.0 == path {
        return Ok(modelSlot.value.1);
      }
      loads := loads + 1;
      var session := load(path, preferNpu);
      if session.Err? {
        return Err(session.error);
      }
      modelSlot := Some((path, session.value));
      r := Ok(session.value);
    }

    /** The scale of the model at `path`; `probe` runs the model's session on a test input. */
    method GetModelScale(path: Path, probe: Probe) returns (r: AppResult<nat>)
      modifies this
      ensures var q := QueryScale(old(scaleCache), path, DetectScaleSpec(probe));
              r == q.result && scaleCache == q.scales && detections == old(detections) + (if q.detected then 1 else 0)
      ensures jobs == old(jobs) && runningJobs == old(runningJobs) && modelSlot == old(modelSlot)
      ensures loads == old(loads)
    {
      if path in scaleCache {
        var scale := scaleCache[path];
        if scale == 0 {
          return Err(NEGATIVE_CACHE_HIT);
        }
        return Ok(scale);
      }
      var result := DetectScale(probe);
      detections := detections + 1;
      match result {
        case Ok(scale) =>
          scaleCache := scaleCache[path := scale];
          r := Ok(scale);
        case Err(e) =>
          scaleCache := scaleCache[path := 0];
          r := Err(e);
      }
    }

    /** Forgets the cached scale of one model; the model slot is untouched. */
    method InvalidateCache(path: Path)
      modifies this
      ensures scaleCache == Invalidate(old(scaleCache), path)
      ensures jobs == old(jobs) && runningJobs == old(runningJobs) && modelSlot == old(modelSlot)
      ensures loads == old(loads) && detections == old(detections)
    {
      if path in scaleCache {
        scaleCache := scaleCache - {path};
      }
    }
  }
}
