/**
 * Start-up configuration of the proxy: the model id read from the
 * environment, with known-retired ids replaced by a safe default, and the
 * ordered, de-duplicated list of model ids a completion request tries.
 */
module Config {
  import opened Wrappers
  import opened Text

  /** The model the proxy falls back to when the configured one is unset or retired. */
  const SafeDefaultModel: string := "llama-3.1-8b-instant"

  /** The ids tried, in this order, after the configured model. */
  const FixedFallbacks: seq<string> :=
    ["llama-3.1-8b-instant", "llama-3.3-70b-versatile", "qwen/qwen3-32b", "moonshotai/kimi-k2-instruct"]

  /** The environment variables the proxy reads; `None` is an unset variable. */
  datatype Env = Env(apiKey: Option<string>, model: Option<string>)

  /** The configuration the request handlers run with. */
  datatype Settings = Settings(apiKey: Option<string>, model: string)

  /** JavaScript truthiness of a string that may be undefined: set and not empty. */
  predicate Truthy(v: Option<string>) {
    v.Some? && v.value != ""
  }

  /** The ids the start-up check treats as retired: any id mentioning `gemma`, and two exact ids, all regardless of case. */
  predicate IsDeprecatedModel(id: string) {
    || ContainsIgnoringCase(id, "gemma")
    || EqualsIgnoringCase(id, "llama3-8b-8192")
    || EqualsIgnoringCase(id, "llama3-70b-8192")
  }

  /** The three tests see only the lower-cased id, so changing the case of an id never changes the verdict. */
  lemma DeprecatedIgnoresCase(id: string)
    ensures IsDeprecatedModel(Lower(id)) == IsDeprecatedModel(id)
  {
    LowerMeaning(id);
    LowerMeaning(Lower(id));
  }

  /** An id is retired exactly when `gemma` occurs somewhere in it, or it is one of the two fixed ids, all ignoring case. */
  lemma DeprecatedIffOccurs(id: string)
    ensures IsDeprecatedModel(id) <==>
      (exists i :: OccursAt(Lower(id), "gemma", i))
      || Lower(id) == "llama3-8b-8192" || Lower(id) == "llama3-70b-8192"
  {
    ContainsIffOccurs(Lower(id), "gemma");
  }

  /** The safe default is not itself treated as retired. */
  lemma SafeDefaultNotDeprecated()
    ensures !IsDeprecatedModel(SafeDefaultModel)
  {
    LowerMeaning(SafeDefaultModel);
    assert Lower(SafeDefaultModel) == SafeDefaultModel;
    NotContainsMissingChar(SafeDefaultModel, "gemma", 0);
    assert !ContainsIgnoringCase(SafeDefaultModel, "gemma");
    assert !EqualsIgnoringCase(SafeDefaultModel, "llama3-8b-8192");
    assert !EqualsIgnoringCase(SafeDefaultModel, "llama3-70b-8192");
  }

  /** The three retired-id rules, each regardless of case, and the exactness of the two fixed ones. */
  lemma DeprecatedExamples()
    ensures IsDeprecatedModel("Gemma2-9b-IT")
    ensures IsDeprecatedModel("LLaMA3-70B-8192")
    ensures !IsDeprecatedModel("llama3-8b-8192-v2")
  {
    var g := "Gemma2-9b-IT";
    assert Lower(g) == "gemma2-9b-it";
    assert OccursAt(Lower(g), "gemma", 0);
    ContainsAt(Lower(g), "gemma", 0);
    assert ContainsIgnoringCase(g, "gemma");
    assert Lower("LLaMA3-70B-8192") == "llama3-70b-8192";
    assert EqualsIgnoringCase("LLaMA3-70B-8192", "llama3-70b-8192");
    var v := "llama3-8b-8192-v2";
    LowerMeaning(v);
    assert Lower(v) == v;
    NotContainsMissingChar(v, "gemma", 0);
    assert !ContainsIgnoringCase(v, "gemma");
    assert !EqualsIgnoringCase(v, "llama3-8b-8192");
    assert !EqualsIgnoringCase(v, "llama3-70b-8192");
  }

  /**
   * The start-up sanitiser: an unset or empty model id becomes the safe
   * default, and so does a retired one; any other id is kept as configured.
   */
  method LoadSettings(env: Env) returns (settings: Settings)
    ensures settings.apiKey == env.apiKey
    ensures settings.model != "" && !IsDeprecatedModel(settings.model)
    ensures Truthy(env.model) && !IsDeprecatedModel(env.model.value) ==> settings.model == env.model.value
    ensures !Truthy(env.model) || IsDeprecatedModel(env.model.value) ==> settings.model == SafeDefaultModel
  {
    var model := if Truthy(env.model) then env.model.value else SafeDefaultModel;
    SafeDefaultNotDeprecated();
    if IsDeprecatedModel(model) {
      model := SafeDefaultModel;
    }
    settings := Settings(env.apiKey, model);
  }

  // ---------------------------------------------------------------------
  // Candidate list
  // ---------------------------------------------------------------------

  /** `a.indexOf(v)`: the first index holding `v`, or -1 when there is none. */
  function IndexOf(a: seq<string>, v: string): (k: int)
    ensures -1 <= k < |a|
    ensures 0 <= k ==> a[k] == v
  {
    if a == [] then -1
    else if a[0] == v then 0
    else
      var k := IndexOf(a[1..], v);
      if k < 0 then -1 else k + 1
  }

  /** `indexOf` answers -1 exactly for a missing id, and otherwise the index of its first occurrence. */
  lemma {:induction false} IndexOfFinds(a: seq<string>, v: string)
    ensures IndexOf(a, v) == -1 <==> v !in a
    ensures 0 <= IndexOf(a, v) ==> a[IndexOf(a, v)] == v
    ensures forall m :: 0 <= m < IndexOf(a, v) ==> a[m] != v
  {
    if a != [] && a[0] != v {
      IndexOfFinds(a[1..], v);
      assert forall m :: 0 < m < |a| ==> a[m] == a[1..][m - 1];
    }
  }

  /**
   * `a.filter((v, i, a) => v && a.indexOf(v) === i)` applied from index `i`
   * on: keeps each non-empty id at the position where it first occurs.
   */
  function KeepFirstFrom(a: seq<string>, i: nat): (r: seq<string>)
    requires i <= |a|
    ensures |r| <= |a| - i
    decreases |a| - i
  {
    if i == |a| then []
    else if a[i] != "" && IndexOf(a, a[i]) == i then [a[i]] + KeepFirstFrom(a, i + 1)
    else KeepFirstFrom(a, i + 1)
  }

  /** What the filter keeps from index `i` on: each non-empty id whose first occurrence is there. */
  lemma {:induction false} KeepFirstFromMembers(a: seq<string>, i: nat)
    requires i <= |a|
    ensures forall x :: x in KeepFirstFrom(a, i) <==> x != "" && IndexOf(a, x) >= i
    decreases |a| - i
  {
    if i < |a| {
      KeepFirstFromMembers(a, i + 1);
      var r, rest := KeepFirstFrom(a, i), KeepFirstFrom(a, i + 1);
      if a[i] != "" && IndexOf(a, a[i]) == i {
        assert r == [a[i]] + rest;
        forall x ensures x in r <==> x != "" && IndexOf(a, x) >= i {
          IndexOfFinds(a, x);
        }
      } else {
        assert r == rest;
        forall x ensures x in r <==> x != "" && IndexOf(a, x) >= i {
          IndexOfFinds(a, x);
        }
      }
    }
  }

  /** The filter keeps ids in the order of their first occurrences, all at or after `i`. */
  lemma {:induction false} KeepFirstFromOrdered(a: seq<string>, i: nat)
    requires i <= |a|
    ensures forall j :: 0 <= j < |KeepFirstFrom(a, i)| ==> i <= IndexOf(a, KeepFirstFrom(a, i)[j])
    ensures forall j, k :: 0 <= j < k < |KeepFirstFrom(a, i)| ==>
      IndexOf(a, KeepFirstFrom(a, i)[j]) < IndexOf(a, KeepFirstFrom(a, i)[k])
    decreases |a| - i
  {
    if i < |a| {
      KeepFirstFromOrdered(a, i + 1);
      if a[i] != "" && IndexOf(a, a[i]) == i {
        ConsOrdered(a, i, KeepFirstFrom(a, i + 1));
      }
    }
  }

  /** Putting an id in front of later-occurring, ordered ids keeps them ordered. */
  lemma ConsOrdered(a: seq<string>, i: nat, rest: seq<string>)
    requires i < |a| && IndexOf(a, a[i]) == i
    requires forall j :: 0 <= j < |rest| ==> i + 1 <= IndexOf(a, rest[j])
    requires forall j, k :: 0 <= j < k < |rest| ==> IndexOf(a, rest[j]) < IndexOf(a, rest[k])
    ensures forall j :: 0 <= j < |[a[i]] + rest| ==> i <= IndexOf(a, ([a[i]] + rest)[j])
    ensures forall j, k :: 0 <= j < k < |[a[i]] + rest| ==>
      IndexOf(a, ([a[i]] + rest)[j]) < IndexOf(a, ([a[i]] + rest)[k])
  {
    var r := [a[i]] + rest;
    forall j | 0 <= j < |r| ensures i <= IndexOf(a, r[j]) {
      if j > 0 {
        assert r[j] == rest[j - 1];
      }
    }
    forall j, k | 0 <= j < k < |r| ensures IndexOf(a, r[j]) < IndexOf(a, r[k]) {
      assert r[k] == rest[k - 1];
      if j > 0 {
        assert r[j] == rest[j - 1];
      }
    }
  }

  /** Keeps the non-empty ids of `a`, each once, in the order they first occur. */
  function FirstOccurrences(a: seq<string>): (r: seq<string>)
    ensures forall x :: x in r <==> x != "" && x in a
    ensures forall j, k :: 0 <= j < k < |r| ==> IndexOf(a, r[j]) < IndexOf(a, r[k])
    ensures forall j, k :: 0 <= j < k < |r| ==> r[j] != r[k]
    ensures a != [] && a[0] != "" ==> r != [] && r[0] == a[0]
  {
    var r := KeepFirstFrom(a, 0);
    KeepFirstFromMembers(a, 0);
    KeepFirstFromOrdered(a, 0);
    assert forall x :: x in r <==> x != "" && x in a by {
      forall x ensures x in r <==> x != "" && x in a {
        IndexOfFinds(a, x);
      }
    }
    assert a != [] && a[0] != "" ==> r != [] && r[0] == a[0] by {
      if a != [] && a[0] != "" {
        assert a[0] in r;
        var k :| 0 <= k < |r| && r[k] == a[0];
        assert IndexOf(a, r[k]) == 0 <= IndexOf(a, r[0]);
        assert k == 0;
      }
    }
    r
  }

  /** The model ids one completion request may try: the configured one first, then the fixed fallbacks. */
  function CandidateModels(configured: string): (r: seq<string>)
    ensures forall x :: x in r <==> (x == configured && configured != "") || x in FixedFallbacks
    ensures forall j, k :: 0 <= j < k < |r| ==> r[j] != r[k]
    ensures forall j, k :: 0 <= j < k < |r| ==>
      IndexOf([configured] + FixedFallbacks, r[j]) < IndexOf([configured] + FixedFallbacks, r[k])
    ensures r != []
    ensures configured != "" ==> r[0] == configured
  {
    var a := [configured] + FixedFallbacks;
    assert a[0] == configured && a[1..] == FixedFallbacks;
    assert "" !in FixedFallbacks;
    var r := FirstOccurrences(a);
    assert FixedFallbacks[0] in r;
    r
  }

  /** A list whose every entry is non-empty and first-occurring is kept whole by the filter. */
  lemma {:induction false} KeepAllFrom(a: seq<string>, i: nat)
    requires i <= |a|
    requires forall j :: i <= j < |a| ==> a[j] != "" && IndexOf(a, a[j]) == j
    ensures KeepFirstFrom(a, i) == a[i..]
    decreases |a| - i
  {
    if i < |a| {
      KeepAllFrom(a, i + 1);
      assert a[i..] == [a[i]] + a[i + 1..];
    }
  }

  /** An id that no earlier entry repeats is found at its own index. */
  lemma IndexOfFirst(a: seq<string>, j: nat)
    requires j < |a| && forall i :: 0 <= i < j ==> a[i] != a[j]
    ensures IndexOf(a, a[j]) == j
  {
    IndexOfFinds(a, a[j]);
  }

  /** An id repeated right after itself is tried once, in the first position. */
  lemma {:induction false} RepeatedHeadCollapses(x: string, rest: seq<string>)
    requires rest != [] && rest[0] == x
    requires forall j :: 0 <= j < |rest| ==> rest[j] != ""
    requires forall j, k :: 0 <= j < k < |rest| ==> rest[j] != rest[k]
    ensures FirstOccurrences([x] + rest) == rest
  {
    var a := [x] + rest;
    forall j | 2 <= j < |a| ensures a[j] != "" && IndexOf(a, a[j]) == j {
      assert a[j] == rest[j - 1];
      IndexOfFirst(a, j);
    }
    KeepAllFrom(a, 2);
    assert IndexOf(a, a[1]) == 0;
    assert KeepFirstFrom(a, 1) == KeepFirstFrom(a, 2);
    assert KeepFirstFrom(a, 0) == [a[0]] + KeepFirstFrom(a, 1);
    assert [a[0]] + a[2..] == rest;
  }

  /** With the default configured, its duplicate among the fallbacks collapses to one attempt. */
  lemma CandidatesForDefault()
    ensures CandidateModels(SafeDefaultModel) == FixedFallbacks
  {
    RepeatedHeadCollapses(SafeDefaultModel, FixedFallbacks);
  }

  /** Any other configured id is tried first, ahead of all four fallbacks. */
  lemma CandidatesForCustomModel(configured: string)
    requires configured != "" && configured !in FixedFallbacks
    ensures CandidateModels(configured) == [configured] + FixedFallbacks
  {
    var a := [configured] + FixedFallbacks;
    KeepAllFrom(a, 0);
    assert a[0..] == a;
  }
}
