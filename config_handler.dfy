/** Validation of the mixed-model schedule (`validate_mixed_model_config` in
    `autochip_scripts/config_handler.py`). The JSON file, command line and editor
    handling of that file are not part of this model. */
module ConfigHandler {
  import opened Common

  /** One `mixed-models` entry: `{start_iteration, model_family, model_id}`. */
  datatype ModelInfo = ModelInfo(startIteration: int, modelFamily: string, modelId: string)

  /** A `(model name, entry)` pair; a schedule is the dictionary's items in order. */
  type Entry = (string, ModelInfo)

  /** The three `ValueError`s the validator raises. */
  datatype ConfigError =
    | InvalidStart(modelName: string, given: int)
    | ConflictingStart(modelName: string, start: int)
    | NoStartAtZero

  /** Dictionary keys are unique. */
  predicate DistinctNames(cfg: seq<Entry>) {
    forall i, j :: 0 <= i < j < |cfg| ==> cfg[i].0 != cfg[j].0
  }

  /** A negative start counts back from `max_iterations + 1`. */
  function Normalize(start: int, maxIterations: int): int {
    if start < 0 then start + maxIterations + 1 else start
  }

  function NormalizedStart(cfg: seq<Entry>, k: int, maxIterations: int): int
    requires 0 <= k < |cfg|
  {
    Normalize(cfg[k].1.startIteration, maxIterations)
  }

  predicate InRange(start: int, maxIterations: int) {
    0 <= start <= maxIterations
  }

  /** Entries before `k` are in range and have pairwise distinct starts. */
  predicate CleanPrefix(cfg: seq<Entry>, k: int, maxIterations: int)
    requires 0 <= k <= |cfg|
  {
    (forall i :: 0 <= i < k ==> InRange(NormalizedStart(cfg, i, maxIterations), maxIterations)) &&
    (forall i, j :: 0 <= i < j < k ==>
       NormalizedStart(cfg, i, maxIterations) != NormalizedStart(cfg, j, maxIterations))
  }

  /** Entry `k` is out of range or repeats an earlier start. */
  predicate Violates(cfg: seq<Entry>, k: int, maxIterations: int)
    requires 0 <= k < |cfg|
  {
    !InRange(NormalizedStart(cfg, k, maxIterations), maxIterations) ||
    exists i :: 0 <= i < k && NormalizedStart(cfg, i, maxIterations) == NormalizedStart(cfg, k, maxIterations)
  }

  predicate HasZeroStart(cfg: seq<Entry>, maxIterations: int) {
    exists i :: 0 <= i < |cfg| && NormalizedStart(cfg, i, maxIterations) == 0
  }

  /** What the validator hands back: for each entry, the normalised start and the
      family and id verbatim. */
  predicate Adjusts(cfg: seq<Entry>, out: seq<Entry>, maxIterations: int) {
    |out| == |cfg| &&
    forall k :: 0 <= k < |cfg| ==>
      out[k] == (cfg[k].0, ModelInfo(NormalizedStart(cfg, k, maxIterations),
                                     cfg[k].1.modelFamily, cfg[k].1.modelId))
  }

  /** A schedule the loop may use: starts in `[0, max]`, pairwise distinct, one of them 0. */
  predicate ResolvedSchedule(s: seq<Entry>, maxIterations: int) {
    (forall i :: 0 <= i < |s| ==> InRange(s[i].1.startIteration, maxIterations)) &&
    (forall i, j :: 0 <= i < j < |s| ==> s[i].1.startIteration != s[j].1.startIteration) &&
    (exists i :: 0 <= i < |s| && s[i].1.startIteration == 0)
  }

  /** `validate_mixed_model_config`: normalises negative starts and raises on the
      first entry out of range or clashing with an earlier one, or, after the whole
      schedule, when no entry starts at 0. */
  method ValidateMixedModelConfig(cfg: seq<Entry>, maxIterations: int)
      returns (r: Result<seq<Entry>, ConfigError>)
    requires DistinctNames(cfg)
    ensures r.Ok? <==> CleanPrefix(cfg, |cfg|, maxIterations) && HasZeroStart(cfg, maxIterations)
    ensures r.Ok? ==> Adjusts(cfg, r.value, maxIterations) && ResolvedSchedule(r.value, maxIterations)
    ensures r.Err? && r.error.InvalidStart? ==>
              exists k :: 0 <= k < |cfg| && CleanPrefix(cfg, k, maxIterations) &&
                !InRange(NormalizedStart(cfg, k, maxIterations), maxIterations) &&
                r.error == InvalidStart(cfg[k].0, cfg[k].1.startIteration)
    ensures r.Err? && r.error.ConflictingStart? ==>
              exists k :: 0 <= k < |cfg| && CleanPrefix(cfg, k, maxIterations) &&
                InRange(NormalizedStart(cfg, k, maxIterations), maxIterations) &&
                Violates(cfg, k, maxIterations) &&
                r.error == ConflictingStart(cfg[k].0, NormalizedStart(cfg, k, maxIterations))
    ensures r == Err(NoStartAtZero) <==>
              CleanPrefix(cfg, |cfg|, maxIterations) && !HasZeroStart(cfg, maxIterations)
  {
    var seen: set<int> := {};
    var adjusted: seq<Entry> := [];
    var hasStartAtZero := false;
    var k := 0;
    while k < |cfg|
      invariant 0 <= k <= |cfg|
      invariant CleanPrefix(cfg, k, maxIterations)
      invariant seen == set i | 0 <= i < k :: NormalizedStart(cfg, i, maxIterations)
      invariant Adjusts(cfg[..k], adjusted, maxIterations)
      invariant hasStartAtZero <==> exists i :: 0 <= i < k && NormalizedStart(cfg, i, maxIterations) == 0
    {
      var name := cfg[k].0;
      var info := cfg[k].1;
      var start := info.startIteration;
      if start < 0 {
        start := start + maxIterations + 1;
      }
      assert start == NormalizedStart(cfg, k, maxIterations);
      if !(0 <= start <= maxIterations) {
        return Err(InvalidStart(name, info.startIteration));
      }
      if start in seen {
        return Err(ConflictingStart(name, start));
      }
      CleanPrefixStep(cfg, k, maxIterations);
      seen := seen + {start};
      if start == 0 {
        hasStartAtZero := true;
      }
      AdjustsStep(cfg, k, adjusted, maxIterations);
      adjusted := adjusted + [(name, ModelInfo(start, info.modelFamily, info.modelId))];
      k := k + 1;
    }
    assert cfg[..k] == cfg;
    if !hasStartAtZero {
      return Err(NoStartAtZero);
    }
    AdjustedIsResolved(cfg, adjusted, maxIterations);
    return Ok(adjusted);
  }

  /** An entry in range that repeats no earlier start extends the clean prefix. */
  lemma CleanPrefixStep(cfg: seq<Entry>, k: int, maxIterations: int)
    requires 0 <= k < |cfg| && CleanPrefix(cfg, k, maxIterations)
    requires InRange(NormalizedStart(cfg, k, maxIterations), maxIterations)
    requires NormalizedStart(cfg, k, maxIterations) !in
               (set j | 0 <= j < k :: NormalizedStart(cfg, j, maxIterations))
    ensures CleanPrefix(cfg, k + 1, maxIterations)
  {
    var seen := set j | 0 <= j < k :: NormalizedStart(cfg, j, maxIterations);
    forall i | 0 <= i < k
      ensures NormalizedStart(cfg, i, maxIterations) != NormalizedStart(cfg, k, maxIterations)
    {
      assert NormalizedStart(cfg, i, maxIterations) in seen;
    }
  }

  lemma AdjustsStep(cfg: seq<Entry>, k: int, adjusted: seq<Entry>, maxIterations: int)
    requires 0 <= k < |cfg| && Adjusts(cfg[..k], adjusted, maxIterations)
    ensures Adjusts(cfg[..k + 1],
                    adjusted + [(cfg[k].0, ModelInfo(NormalizedStart(cfg, k, maxIterations),
                                                     cfg[k].1.modelFamily, cfg[k].1.modelId))],
                    maxIterations)
  {
    assert forall i :: 0 <= i < k ==> cfg[..k + 1][i] == cfg[..k][i];
  }

  /** The validated schedule is a resolved one. */
  lemma AdjustedIsResolved(cfg: seq<Entry>, out: seq<Entry>, maxIterations: int)
    requires Adjusts(cfg, out, maxIterations) && CleanPrefix(cfg, |cfg|, maxIterations)
    requires HasZeroStart(cfg, maxIterations)
    ensures ResolvedSchedule(out, maxIterations)
  {
    var i :| 0 <= i < |cfg| && NormalizedStart(cfg, i, maxIterations) == 0;
    assert out[i].1.startIteration == 0;
  }

  /** Examples with `max_iterations = 10`: -1 resolves to 10, -11 to 0, and -12 to -1,
      which the range check rejects. */
  lemma NormalizeExamples()
    ensures Normalize(-1, 10) == 10 && Normalize(-11, 10) == 0
    ensures !InRange(Normalize(-12, 10), 10)
    ensures forall s :: 0 <= s ==> Normalize(s, 10) == s
  {
  }
}
