/** The model-rotation tracker: an in-memory record of which interchangeable chat models
    were recently rate limited and how often each has been used, and the policy that picks
    the next model to try. The wall clock is an explicit `now` in whole seconds. */
module Rotation {
  import opened Common

  /** `cooldown_period`: five minutes. */
  const CooldownSeconds: int := 5 * 60

  /** `_is_rate_limited` over a map of marks: `m` was marked at a time less than one
      cooldown before `now`. */
  predicate IsLimitedIn(marks: map<string, int>, m: string, now: int)
    ensures IsLimitedIn(marks, m, now) <==> m in ExpireLimits(marks, now)
  {
    m in marks && now - marks[m] < CooldownSeconds
  }

  /** Reading `usage_count[m]` from a `defaultdict(int)`: a missing key reads as 0. */
  function UsageOf(usage: map<string, nat>, m: string): nat
  {
    if m in usage then usage[m] else 0
  }

  /** The marks `_cleanup_expired_limits(now)` keeps: those whose cooldown has not run out. */
  function ExpireLimits(marks: map<string, int>, now: int): (live: map<string, int>)
    ensures live.Keys <= marks.Keys
    ensures forall m | m in live :: live[m] == marks[m] && now - live[m] < CooldownSeconds
    ensures forall m | m in marks && now - marks[m] < CooldownSeconds :: m in live
  {
    map m | m in marks && now - marks[m] < CooldownSeconds :: marks[m]
  }

  /** Cleanup does not change which models are rate limited at the same instant. */
  lemma {:induction false} ExpireKeepsLimits(marks: map<string, int>, now: int, m: string)
    ensures IsLimitedIn(ExpireLimits(marks, now), m, now) == IsLimitedIn(marks, m, now)
  {
  }

  /** Cleanup at the same instant a second time removes nothing more. */
  lemma {:induction false} ExpireIdempotent(marks: map<string, int>, now: int)
    ensures ExpireLimits(ExpireLimits(marks, now), now) == ExpireLimits(marks, now)
  {
  }

  /** A model survives the selection filter: it is not the one just tried and it is not
      rate limited. */
  predicate Eligible(m: string, current: Option<string>, marks: map<string, int>, now: int)
  {
    current != Some(m) && !IsLimitedIn(marks, m, now)
  }

  /** The `available_models` list comprehension: the eligible models, in list order. */
  function Candidates(models: seq<string>, current: Option<string>, marks: map<string, int>, now: int)
    : (c: seq<string>)
    ensures forall m :: m in c <==> m in models && Eligible(m, current, marks, now)
    ensures |c| <= |models|
  {
    if models == [] then []
    else
      var init := Candidates(models[..|models| - 1], current, marks, now);
      var last := models[|models| - 1];
      assert models == models[..|models| - 1] + [last];
      if Eligible(last, current, marks, now) then init + [last] else init
  }

  /** No model survives the filter exactly when none of the list is eligible. */
  lemma {:induction false} NoCandidates(models: seq<string>, current: Option<string>, marks: map<string, int>, now: int)
    ensures Candidates(models, current, marks, now) == [] <==>
              forall m | m in models :: !Eligible(m, current, marks, now)
  {
    var c := Candidates(models, current, marks, now);
    if c != [] {
      assert c[0] in c;
    }
  }

  /** `min(c, key=lambda m: usage_count[m])`: Python scans left to right and keeps the
      first element of least usage. */
  function LeastUsed(c: seq<string>, usage: map<string, nat>): (r: string)
    requires c != []
    ensures r in c
    ensures forall m | m in c :: UsageOf(usage, r) <= UsageOf(usage, m)
  {
    if |c| == 1 then c[0]
    else
      var best := LeastUsed(c[..|c| - 1], usage);
      var last := c[|c| - 1];
      assert c == c[..|c| - 1] + [last];
      if UsageOf(usage, last) < UsageOf(usage, best) then last else best
  }

  /** The choice `get_next_available_model` makes: the least used eligible model; when
      no model is eligible, the least used of the whole list; `None` when the list is
      empty (`min` of an empty list raises). */
  function Select(models: seq<string>, current: Option<string>, marks: map<string, int>,
                  usage: map<string, nat>, now: int): (r: Option<string>)
    ensures r.None? <==> models == []
  {
    var c := Candidates(models, current, marks, now);
    if c != [] then Some(LeastUsed(c, usage))
    else if models != [] then Some(LeastUsed(models, usage))
    else None
  }

  /** The `defaultdict` after `min` has read `usage_count[m]` for every `m` it scanned:
      each missing key now holds 0. */
  function TouchAll(usage: map<string, nat>, scanned: seq<string>): (u: map<string, nat>)
    ensures u.Keys == usage.Keys + set m | m in scanned
    ensures forall m :: UsageOf(u, m) == UsageOf(usage, m)
  {
    map m | m in usage.Keys + (set m | m in scanned) :: UsageOf(usage, m)
  }

  /** `get_status()` as a value, computed from the marks before cleanup. */
  datatype Status = Status(
    availableModels: seq<string>,
    rateLimitedModels: set<string>,
    usageStats: map<string, nat>,
    totalModels: nat)

  function StatusOf(models: seq<string>, marks: map<string, int>, usage: map<string, nat>, now: int)
    : (s: Status)
    ensures forall m :: m in s.availableModels <==> m in models && !IsLimitedIn(marks, m, now)
    ensures forall m :: m in s.rateLimitedModels <==> IsLimitedIn(marks, m, now)
    ensures forall m | m in models :: m in s.availableModels <==> m !in s.rateLimitedModels
    ensures s.usageStats == usage && s.totalModels == |models|
  {
    var live := ExpireLimits(marks, now);
    Status(Candidates(models, None, live, now), live.Keys, usage, |models|)
  }

  // ---------------------------------------------------------------------------------
  // Properties of the selection policy
  // ---------------------------------------------------------------------------------

  /** With a non-empty model list a model is always returned, and it is one of the list. */
  lemma {:induction false} SelectReturnsListedModel(models: seq<string>, current: Option<string>,
                                 marks: map<string, int>, usage: map<string, nat>, now: int)
    ensures var r := Select(models, current, marks, usage, now);
            (r.Some? <==> models != []) && (r.Some? ==> r.value in models)
  {
    var c := Candidates(models, current, marks, now);
    if c != [] {
      assert LeastUsed(c, usage) in c;
    }
  }

  /** If some model other than the one just tried is not rate limited, the choice is
      such a model: not the one just tried, and not rate limited. */
  lemma {:induction false} SelectAvoidsCurrentAndLimited(models: seq<string>, current: Option<string>,
                                      marks: map<string, int>, usage: map<string, nat>,
                                      now: int, alt: string)
    requires alt in models && Eligible(alt, current, marks, now)
    ensures var r := Select(models, current, marks, usage, now);
            r.Some? && r != current && !IsLimitedIn(marks, r.value, now)
  {
    var c := Candidates(models, current, marks, now);
    assert alt in c;
    assert LeastUsed(c, usage) in c;
  }

  /** If every model is excluded, the choice is the least used of the whole list, which
      may be the one just tried. */
  lemma {:induction false} SelectFallsBackToWholeList(models: seq<string>, current: Option<string>,
                                   marks: map<string, int>, usage: map<string, nat>, now: int)
    requires models != []
    requires forall m | m in models :: !Eligible(m, current, marks, now)
    ensures Select(models, current, marks, usage, now) == Some(LeastUsed(models, usage))
  {
  }

  /** The fallback can hand back the model that was just tried: a one-model list whose
      model was just tried. */
  lemma {:induction false} FallbackMayRepeatCurrent(m: string, marks: map<string, int>, usage: map<string, nat>, now: int)
    ensures Select([m], Some(m), marks, usage, now) == Some(m)
  {
    assert Candidates([m], Some(m), marks, now) == [];
  }

  /** The choice has the least usage count of all the models it was chosen from. */
  lemma {:induction false} SelectIsLeastUsed(models: seq<string>, current: Option<string>, marks: map<string, int>,
                          usage: map<string, nat>, now: int, m: string)
    requires m in models
    requires Candidates(models, current, marks, now) == [] || Eligible(m, current, marks, now)
    ensures var r := Select(models, current, marks, usage, now);
            r.Some? && UsageOf(usage, r.value) <= UsageOf(usage, m)
  {
    var c := Candidates(models, current, marks, now);
    if c != [] {
      assert m in c;
    }
  }

  /** `min` returns the first element of least usage: every element before it is used
      strictly more. */
  lemma {:induction false} LeastUsedIsFirstMinimum(c: seq<string>, usage: map<string, nat>, j: nat)
    requires j < |c|
    requires UsageOf(usage, c[j]) <= UsageOf(usage, LeastUsed(c, usage))
    ensures LeastUsed(c, usage) in c[..j + 1]
    decreases |c|
  {
    if j < |c| - 1 {
      var init := c[..|c| - 1];
      var best := LeastUsed(init, usage);
      assert init[j] == c[j];
      assert UsageOf(usage, best) <= UsageOf(usage, init[j]);
      assert LeastUsed(c, usage) == best;
      LeastUsedIsFirstMinimum(init, usage, j);
      assert init[..j + 1] == c[..j + 1];
    }
  }

  /** Filtering a prefix of the list gives a prefix of the filtered list. */
  lemma {:induction false} CandidatesOfPrefix(models: seq<string>, current: Option<string>,
                                              marks: map<string, int>, now: int, k: nat)
    requires k <= |models|
    ensures Candidates(models[..k], current, marks, now) <= Candidates(models, current, marks, now)
    decreases |models|
  {
    if k < |models| {
      var init := models[..|models| - 1];
      assert init[..k] == models[..k];
      CandidatesOfPrefix(init, current, marks, now, k);
    } else {
      assert models[..k] == models;
    }
  }

  /** Ties go to the earliest model in list order: any model at position `j` that could
      have been chosen and is used no more than the choice forces the choice to sit at
      or before position `j`. */
  lemma {:induction false} SelectPrefersEarliest(models: seq<string>, current: Option<string>, marks: map<string, int>,
                              usage: map<string, nat>, now: int, j: nat)
    requires j < |models|
    requires Candidates(models, current, marks, now) == [] || Eligible(models[j], current, marks, now)
    requires Select(models, current, marks, usage, now).Some?
    requires UsageOf(usage, models[j]) <= UsageOf(usage, Select(models, current, marks, usage, now).value)
    ensures Select(models, current, marks, usage, now).value in models[..j + 1]
  {
    var c := Candidates(models, current, marks, now);
    if c == [] {
      LeastUsedIsFirstMinimum(models, usage, j);
    } else {
      var jj := CandidatePosition(models, current, marks, now, j);
      LeastUsedIsFirstMinimum(c, usage, jj);
      assert Select(models, current, marks, usage, now).value in Candidates(models[..j + 1], current, marks, now);
    }
  }

  /** An eligible model at list position `j` sits in the filtered list at a position `jj`
      such that the filtered list up to `jj` is the filter of the list up to `j`. */
  lemma {:induction false} CandidatePosition(models: seq<string>, current: Option<string>, marks: map<string, int>,
                          now: int, j: nat) returns (jj: nat)
    requires j < |models| && Eligible(models[j], current, marks, now)
    ensures var c := Candidates(models, current, marks, now);
            jj < |c| && c[jj] == models[j] && c[..jj + 1] == Candidates(models[..j + 1], current, marks, now)
  {
    var upTo := models[..j + 1];
    assert upTo[..|upTo| - 1] == models[..j];
    assert upTo[|upTo| - 1] == models[j];
    var p := Candidates(upTo, current, marks, now);
    assert p == Candidates(models[..j], current, marks, now) + [models[j]];
    CandidatesOfPrefix(models, current, marks, now, j + 1);
    jj := |p| - 1;
  }

  /** A filter that rejects nothing returns the whole list. */
  lemma {:induction false} CandidatesKeepAll(models: seq<string>, current: Option<string>,
                                             marks: map<string, int>, now: int)
    requires forall m | m in models :: Eligible(m, current, marks, now)
    ensures Candidates(models, current, marks, now) == models
    decreases |models|
  {
    if models != [] {
      var init := models[..|models| - 1];
      assert forall m | m in init :: m in models;
      CandidatesKeepAll(init, current, marks, now);
      SplitLast(models);
    }
  }

  /** The filter depends only on which models are rate limited at `now`. */
  lemma {:induction false} CandidatesSameLimits(models: seq<string>, current: Option<string>,
                                                marks1: map<string, int>, marks2: map<string, int>, now: int)
    requires forall m :: IsLimitedIn(marks1, m, now) == IsLimitedIn(marks2, m, now)
    ensures Candidates(models, current, marks1, now) == Candidates(models, current, marks2, now)
    decreases |models|
  {
    if models != [] {
      CandidatesSameLimits(models[..|models| - 1], current, marks1, marks2, now);
    }
  }

  /** `min` depends only on the usage counts as the `defaultdict` reads them. */
  lemma {:induction false} LeastUsedSameCounts(c: seq<string>, usage1: map<string, nat>, usage2: map<string, nat>)
    requires c != []
    requires forall m :: UsageOf(usage1, m) == UsageOf(usage2, m)
    ensures LeastUsed(c, usage1) == LeastUsed(c, usage2)
    decreases |c|
  {
    if |c| > 1 {
      LeastUsedSameCounts(c[..|c| - 1], usage1, usage2);
    }
  }

  /** After `reset`, the status lists every model as available, none as rate limited, no
      usage and the full model count. */
  lemma {:induction false} StatusAfterReset(models: seq<string>, now: int)
    ensures StatusOf(models, map[], map[], now) == Status(models, {}, map[], |models|)
  {
    CandidatesKeepAll(models, None, map[], now);
  }

  /** Marking a model records the current time, overwriting an earlier mark: it is rate
      limited exactly until one cooldown has passed, and no other model is affected. */
  lemma {:induction false} MarkRateLimitedEffect(marks: map<string, int>, m: string, at: int, now: int, other: string)
    requires other != m
    ensures IsLimitedIn(marks[m := at], m, now) <==> now - at < CooldownSeconds
    ensures IsLimitedIn(marks[m := at], other, now) == IsLimitedIn(marks, other, now)
  {
  }

  /** A success lifts a model's rate limit at once, even inside its cooldown. */
  lemma {:induction false} MarkSuccessRecovers(marks: map<string, int>, m: string, now: int, other: string)
    requires other != m
    ensures !IsLimitedIn(marks - {m}, m, now)
    ensures IsLimitedIn(marks - {m}, other, now) == IsLimitedIn(marks, other, now)
  {
  }

  /** Load balancing: with three available models used 2, 0 and 1 times, the model used
      0 times is chosen. */
  lemma {:induction false} LeastUsedExample(a: string, b: string, c: string, now: int)
    requires a != b && b != c && a != c
    ensures Select([a, b, c], None, map[], map[a := 2, b := 0, c := 1], now) == Some(b)
  {
    var models := [a, b, c];
    CandidatesKeepAll(models, None, map[], now);
    var usage := map[a := 2, b := 0, c := 1];
    assert models[..2] == [a, b] && [a, b][..1] == [a];
    assert LeastUsed([a, b], usage) == b;
  }

  // ---------------------------------------------------------------------------------
  // The tracker
  // ---------------------------------------------------------------------------------

  /** `ModelRotationService`: the ordered model list is fixed at construction; the marks
      (`rate_limited_models`) and the counters (`usage_count`) change in place. */
  class ModelRotationService {
    const fallbackModels: seq<string>
    var rateLimitedModels: map<string, int>
    var usageCount: map<string, nat>

    constructor (fallbackModels: seq<string>)
      ensures this.fallbackModels == fallbackModels
      ensures rateLimitedModels == map[] && usageCount == map[]
    {
      this.fallbackModels := fallbackModels;
      rateLimitedModels := map[];
      usageCount := map[];
    }

    /** `_is_rate_limited(model, now)`. */
    predicate IsRateLimited(model: string, now: int)
      reads this
      ensures IsRateLimited(model, now) <==> model in ExpireLimits(rateLimitedModels, now)
    {
      IsLimitedIn(rateLimitedModels, model, now)
    }

    /** `_cleanup_expired_limits(now)`: deletes, one by one, every mark whose cooldown has
        run out. */
    method CleanupExpiredLimits(now: int)
      modifies this
      ensures rateLimitedModels == ExpireLimits(old(rateLimitedModels), now)
      ensures usageCount == old(usageCount)
    {
      var expired := set m | m in rateLimitedModels && now - rateLimitedModels[m] >= CooldownSeconds;
      ghost var allExpired := expired;
      while expired != {}
        invariant expired <= allExpired
        invariant rateLimitedModels == old(rateLimitedModels) - (allExpired - expired)
        invariant usageCount == old(usageCount)
        decreases expired
      {
        var m :| m in expired;
        rateLimitedModels := rateLimitedModels - {m};
        expired := expired - {m};
      }
      assert rateLimitedModels == ExpireLimits(old(rateLimitedModels), now);
    }

    /** `get_next_available_model(current_model)`. After cleanup it filters the list; if
        nothing survives it clears every mark and falls back to the whole list; then it
        picks the least used. Reading the counters through the `defaultdict` gives every
        scanned model a counter of 0 if it had none. `None` stands for the `ValueError`
        that `min` raises on an empty model list. */
    method GetNextAvailableModel(currentModel: Option<string>, now: int) returns (next: Option<string>)
      modifies this
      ensures next == Select(fallbackModels, currentModel, old(rateLimitedModels), old(usageCount), now)
      ensures var c := Candidates(fallbackModels, currentModel, old(rateLimitedModels), now);
              rateLimitedModels == (if c == [] then map[] else ExpireLimits(old(rateLimitedModels), now))
      ensures var c := Candidates(fallbackModels, currentModel, old(rateLimitedModels), now);
              usageCount == TouchAll(old(usageCount), if c == [] then fallbackModels else c)
      ensures rateLimitedModels.Keys <= old(rateLimitedModels).Keys
      ensures forall m | m in rateLimitedModels :: now - rateLimitedModels[m] < CooldownSeconds
      ensures forall m :: UsageOf(usageCount, m) == UsageOf(old(usageCount), m)
    {
      CleanupExpiredLimits(now);
      forall m ensures IsLimitedIn(rateLimitedModels, m, now) == IsLimitedIn(old(rateLimitedModels), m, now) {
        ExpireKeepsLimits(old(rateLimitedModels), now, m);
      }
      CandidatesSameLimits(fallbackModels, currentModel, rateLimitedModels, old(rateLimitedModels), now);
      var available := Candidates(fallbackModels, currentModel, rateLimitedModels, now);
      if available == [] {
        rateLimitedModels := map[];
        available := fallbackModels;
      }
      if available == [] {
        next := None;
        return;
      }
      usageCount := TouchAll(usageCount, available);
      LeastUsedSameCounts(available, usageCount, old(usageCount));
      next := Some(LeastUsed(available, usageCount));
    }

    /** `mark_rate_limited(model)` at time `now`. */
    method MarkRateLimited(model: string, now: int)
      modifies this
      ensures rateLimitedModels == old(rateLimitedModels)[model := now]
      ensures usageCount == old(usageCount)
    {
      rateLimitedModels := rateLimitedModels[model := now];
    }

    /** `mark_success(model)`: one more use, and any mark on the model is removed. */
    method MarkSuccess(model: string)
      modifies this
      ensures usageCount == old(usageCount)[model := UsageOf(old(usageCount), model) + 1]
      ensures rateLimitedModels == old(rateLimitedModels) - {model}
    {
      usageCount := usageCount[model := UsageOf(usageCount, model) + 1];
      if model in rateLimitedModels {
        rateLimitedModels := rateLimitedModels - {model};
      }
    }

    /** `get_status()` at time `now`: cleans up, then reports. */
    method GetStatus(now: int) returns (s: Status)
      modifies this
      ensures s == StatusOf(fallbackModels, old(rateLimitedModels), old(usageCount), now)
      ensures rateLimitedModels == ExpireLimits(old(rateLimitedModels), now)
      ensures usageCount == old(usageCount)
    {
      CleanupExpiredLimits(now);
      ExpireIdempotent(old(rateLimitedModels), now);
      s := Status(Candidates(fallbackModels, None, rateLimitedModels, now), rateLimitedModels.Keys,
                  usageCount, |fallbackModels|);
      forall m ensures IsLimitedIn(rateLimitedModels, m, now) == IsLimitedIn(old(rateLimitedModels), m, now) {
        ExpireKeepsLimits(old(rateLimitedModels), now, m);
      }
      CandidatesSameLimits(fallbackModels, None, rateLimitedModels, ExpireLimits(old(rateLimitedModels), now), now);
    }

    /** `reset()`: forgets every mark and every counter. */
    method Reset()
      modifies this
      ensures rateLimitedModels == map[] && usageCount == map[]
    {
      rateLimitedModels := map[];
      usageCount := map[];
    }
  }
}
