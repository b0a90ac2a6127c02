/** The response normaliser of the widget (`processResponse` in App.tsx): any JSON reply of
    the workflow webhook becomes a phase record and a list of step objects. It never fails;
    an unrecognised shape yields the default phase and no steps. */
module Normalizer {
  import opened Json
  import opened Types

  const DefaultGuide: string := "Bác hãy làm theo hướng dẫn bên dưới nhé."

  /** `phaseData`: the guide is whatever truthy value the server sent, not necessarily a string. */
  datatype PhaseData = PhaseData(guide: Json, requireConfirm: bool, currentPhase: Option<Json>)

  const DefaultPhase: PhaseData := PhaseData(JStr(DefaultGuide), false, None)

  /** What one call produces: the new `phaseData` and the new `parsedSteps`. */
  datatype Response = Response(phase: PhaseData, steps: seq<Json>)

  /** The working object: the first element of a non-empty array, else the value itself. */
  function Root(data: Json): Json
  {
    if data.JArr? && |data.items| > 0 then data.items[0] else data
  }

  /** `root && typeof root === 'object'`: arrays and objects (null is falsy). */
  predicate IsObject(root: Json)
  {
    root.JObj? || root.JArr?
  }

  /** The filter condition `s && s.selector`. */
  predicate IsStep(s: Json)
  {
    TruthyAt(s, "selector")
  }

  /** `steps.filter(s => s && s.selector)`. */
  function KeepSteps(xs: seq<Json>): (r: seq<Json>)
    ensures |r| <= |xs|
    ensures forall i :: 0 <= i < |r| ==> r[i].JObj? && IsStep(r[i])
    ensures forall x :: x in r <==> x in xs && IsStep(x)
  {
    if xs == [] then []
    else (if IsStep(xs[0]) then [xs[0]] else []) + KeepSteps(xs[1..])
  }

  /** The filter keeps relative order: it distributes over concatenation. */
  lemma {:induction false} KeepStepsAppend(xs: seq<Json>, ys: seq<Json>)
    ensures KeepSteps(xs + ys) == KeepSteps(xs) + KeepSteps(ys)
  {
    if xs == [] {
      assert xs + ys == ys;
    } else {
      assert (xs + ys)[1..] == xs[1..] + ys;
      KeepStepsAppend(xs[1..], ys);
    }
  }

  /** A list made of step objects only passes the filter unchanged. */
  lemma {:induction false} KeepStepsAll(xs: seq<Json>)
    requires forall i :: 0 <= i < |xs| ==> IsStep(xs[i])
    ensures KeepSteps(xs) == xs
  {
    if xs != [] {
      KeepStepsAll(xs[1..]);
    }
  }

  /** A candidate list in which no entry has a truthy selector yields no steps. */
  lemma NoSelectorNoSteps(xs: seq<Json>)
    requires forall i :: 0 <= i < |xs| ==> !IsStep(xs[i])
    ensures KeepSteps(xs) == []
  {
  }

  /** Line 117 as written: the first truthy of `actions`, `action`, `steps`, else the root if
      it is an array, else `[]`. */
  function CandidateAsWritten(root: Json): Json
  {
    if TruthyAt(root, "actions") then Get(root, "actions").value
    else if TruthyAt(root, "action") then Get(root, "action").value
    else if TruthyAt(root, "steps") then Get(root, "steps").value
    else if root.JArr? then root
    else JArr([])
  }

  /** The intended candidate: a string under `action` is the action kind of a single step
      object, not a list of steps, so it is passed over. */
  function Candidate(root: Json): Json
  {
    if TruthyAt(root, "actions") then Get(root, "actions").value
    else if TruthyAt(root, "action") && !Get(root, "action").value.JStr? then Get(root, "action").value
    else if TruthyAt(root, "steps") then Get(root, "steps").value
    else if root.JArr? then root
    else JArr([])
  }

  /** A non-array candidate is wrapped in a singleton list. */
  function StepList(candidate: Json): seq<Json>
  {
    if candidate.JArr? then candidate.items else [candidate]
  }

  /** `root.guide_message || root.guide || <default>`. */
  function GuideOf(root: Json): (g: Json)
    ensures Truthy(g)
  {
    if TruthyAt(root, "guide_message") then Get(root, "guide_message").value
    else if TruthyAt(root, "guide") then Get(root, "guide").value
    else JStr(DefaultGuide)
  }

  /** `root.current_phase || null`. */
  function CurrentPhaseOf(root: Json): (p: Option<Json>)
    ensures p.Some? ==> Truthy(p.value)
  {
    if TruthyAt(root, "current_phase") then Some(Get(root, "current_phase").value) else None
  }

  /** The phase record of an object root. */
  function PhaseOf(root: Json): PhaseData
  {
    PhaseData(GuideOf(root), Get(root, "require_confirmation") == Some(JBool(true)), CurrentPhaseOf(root))
  }

  /** Line 121: an empty list falls back to the root itself when the root has a selector. */
  function WithFallback(root: Json, steps: seq<Json>): seq<Json>
  {
    if |steps| == 0 && TruthyAt(root, "selector") then [root] else steps
  }

  /** Everything `processResponse` does once the working object and the candidate are known. */
  function Assemble(root: Json, candidate: Json): (r: Response)
    ensures forall i :: 0 <= i < |r.steps| ==> r.steps[i].JObj? && IsStep(r.steps[i])
    ensures Truthy(r.phase.guide)
    ensures r.phase.currentPhase.Some? ==> Truthy(r.phase.currentPhase.value)
    ensures !IsObject(root) ==> r == Response(DefaultPhase, [])
  {
    if !IsObject(root) then Response(DefaultPhase, [])
    else Response(PhaseOf(root), KeepSteps(WithFallback(root, StepList(candidate))))
  }

  /** `processResponse` exactly as App.tsx writes it. */
  function ProcessResponseAsWritten(data: Json): (r: Response)
    ensures forall i :: 0 <= i < |r.steps| ==> r.steps[i].JObj? && IsStep(r.steps[i])
  {
    var root := Root(data);
    Assemble(root, CandidateAsWritten(root))
  }

  /** `processResponse` with the candidate rule corrected; the orchestrator uses this one. */
  function ProcessResponse(data: Json): (r: Response)
    ensures forall i :: 0 <= i < |r.steps| ==> r.steps[i].JObj? && IsStep(r.steps[i])
    ensures Truthy(r.phase.guide)
  {
    var root := Root(data);
    Assemble(root, Candidate(root))
  }

  // ---- the phase fields ----------------------------------------------------------------

  /** The phase record, field by field: `guide_message`, then `guide`, then the default;
      `current_phase` when truthy; confirmation only for the literal `true`. */
  lemma PhaseFields(root: Json, candidate: Json)
    ensures var p := Assemble(root, candidate).phase;
      && (p.requireConfirm <==> IsObject(root) && Get(root, "require_confirmation") == Some(JBool(true)))
      && (p.currentPhase.Some? <==> IsObject(root) && TruthyAt(root, "current_phase"))
      && (p.currentPhase.Some? ==> Get(root, "current_phase") == p.currentPhase)
      && (IsObject(root) && TruthyAt(root, "guide_message") ==> Some(p.guide) == Get(root, "guide_message"))
      && (IsObject(root) && !TruthyAt(root, "guide_message") && TruthyAt(root, "guide") ==>
                Some(p.guide) == Get(root, "guide"))
      && (!TruthyAt(root, "guide_message") && !TruthyAt(root, "guide") ==> p.guide == JStr(DefaultGuide))
  {
  }

  // ---- the working object --------------------------------------------------------------

  /** Only the first element of a top-level array is read. */
  lemma FirstElementWins(x: Json, rest: seq<Json>)
    ensures ProcessResponse(JArr([x] + rest)) == ProcessResponse(JArr([x]))
    ensures ProcessResponseAsWritten(JArr([x] + rest)) == ProcessResponseAsWritten(JArr([x]))
    ensures !(x.JArr? && |x.items| > 0) ==> ProcessResponse(JArr([x] + rest)) == ProcessResponse(x)
    ensures !(x.JArr? && |x.items| > 0) ==> ProcessResponseAsWritten(JArr([x] + rest)) == ProcessResponseAsWritten(x)
  {
  }

  /** A reply that is neither an object nor an array, once unwrapped, yields the default phase
      and no steps; so does an empty array. */
  lemma UnrecognisedShape(data: Json)
    requires !IsObject(Root(data)) || data == JArr([])
    ensures ProcessResponse(data) == Response(DefaultPhase, [])
    ensures ProcessResponseAsWritten(data) == Response(DefaultPhase, [])
  {
    if data == JArr([]) {
      assert StepList(CandidateAsWritten(data)) == [];
      assert StepList(Candidate(data)) == [];
    }
  }

  // ---- the candidate steps ---------------------------------------------------------------

  /** Which list the steps are drawn from, under either candidate rule. */
  lemma {:induction false} CandidateSteps(root: Json, candidate: Json)
    requires IsObject(root)
    ensures candidate.JArr? && (candidate.items != [] || !TruthyAt(root, "selector")) ==>
                  Assemble(root, candidate).steps == KeepSteps(candidate.items)
    ensures !candidate.JArr? ==> Assemble(root, candidate).steps == KeepSteps([candidate])
    ensures !candidate.JArr? && !IsStep(candidate) ==> Assemble(root, candidate).steps == []
    ensures candidate == JArr([]) && TruthyAt(root, "selector") ==> Assemble(root, candidate).steps == [root]
  {
    if !candidate.JArr? && !IsStep(candidate) {
      NoSelectorNoSteps([candidate]);
    }
    if candidate == JArr([]) && TruthyAt(root, "selector") {
      KeepStepsAll([root]);
    }
  }

  /** The precedence of the fields under the written rule: a truthy `actions` wins (an empty
      array included), then `action`, then `steps`, then an array root. */
  lemma CandidatePrecedence(root: Json)
    ensures TruthyAt(root, "actions") ==> CandidateAsWritten(root) == Get(root, "actions").value
    ensures !TruthyAt(root, "actions") && TruthyAt(root, "action") ==>
                  CandidateAsWritten(root) == Get(root, "action").value
    ensures !TruthyAt(root, "actions") && !TruthyAt(root, "action") && TruthyAt(root, "steps") ==>
                  CandidateAsWritten(root) == Get(root, "steps").value
    ensures root.JArr? ==> CandidateAsWritten(root) == root
    ensures root.JObj? && !TruthyAt(root, "actions") && !TruthyAt(root, "action") && !TruthyAt(root, "steps") ==>
                  CandidateAsWritten(root) == JArr([])
  {
  }

  // ---- the finding: a single step object is dropped -------------------------------------

  /** As written, a single step object whose `action` is a non-empty string (every click or
      fill step) yields NO steps: `root.action` is taken as the step list, wrapped to
      `["click"]`, so the selector fallback never fires and the filter drops the string. */
  lemma AsWrittenDropsSingleStep(w: WebhookStep)
    requires w.selector != "" && w.action != ""
    ensures ProcessResponseAsWritten(StepJson(w)).steps == []
    ensures ProcessResponseAsWritten(JObj(map["actions" := JArr([StepJson(w)])])).steps == [StepJson(w)]
  {
    var j := StepJson(w);
    StepJsonKeys(w);
    assert Root(j) == j;
    assert CandidateAsWritten(j) == JStr(w.action);
    CandidateSteps(j, JStr(w.action));
    var o := JObj(map["actions" := JArr([j])]);
    assert CandidateAsWritten(o) == JArr([j]);
    KeepStepsAll([j]);
  }

  /** Corrected: the three shapes of one step (the bare object, a one-element `actions` list,
      a one-element `steps` list) normalise identically. */
  lemma ShapeTolerance(w: WebhookStep)
    requires w.selector != ""
    ensures var j := StepJson(w);
      && ProcessResponse(j) == Response(DefaultPhase, [j])
      && ProcessResponse(JObj(map["actions" := JArr([j])])) == Response(DefaultPhase, [j])
      && ProcessResponse(JObj(map["steps" := JArr([j])])) == Response(DefaultPhase, [j])
  {
    var j := StepJson(w);
    StepJsonKeys(w);
    assert Root(j) == j;
    assert Candidate(j) == JArr([]);
    KeepStepsAll([j]);
    var a := JObj(map["actions" := JArr([j])]);
    assert Candidate(a) == JArr([j]);
    var s := JObj(map["steps" := JArr([j])]);
    assert Candidate(s) == JArr([j]);
  }

  /** The correction changes nothing unless the working object carries a string `action`
      and no truthy `actions`. */
  lemma CorrectionIsConservative(data: Json)
    requires var root := Root(data); TruthyAt(root, "actions") || Get(root, "action").None? || !Get(root, "action").value.JStr?
    ensures ProcessResponse(data) == ProcessResponseAsWritten(data)
  {
  }

  /** Exactly when the correction changes the result: the working object is an object with
      a non-empty string `action` and no truthy `actions`, and either a truthy `steps` yields
      a selectable entry, or `steps` is missing, falsy or an empty array and the object has a
      truthy `selector`. */
  predicate CorrectionMatters(root: Json)
  {
    && root.JObj? && !TruthyAt(root, "actions") && TruthyAt(root, "action") && Get(root, "action").value.JStr?
    && if TruthyAt(root, "steps") then
         KeepSteps(StepList(Get(root, "steps").value)) != [] ||
         (Get(root, "steps").value == JArr([]) && TruthyAt(root, "selector"))
       else TruthyAt(root, "selector")
  }

  /** The two rules always agree on the phase, and disagree on the steps exactly under
      `CorrectionMatters`, where the rule as written yields none. */
  lemma CorrectionDiffersExactly(data: Json)
    ensures ProcessResponse(data).phase == ProcessResponseAsWritten(data).phase
    ensures ProcessResponse(data) != ProcessResponseAsWritten(data) <==> CorrectionMatters(Root(data))
    ensures CorrectionMatters(Root(data)) ==> ProcessResponseAsWritten(data).steps == []
  {
    var root := Root(data);
    if root.JObj? && !TruthyAt(root, "actions") && TruthyAt(root, "action") && Get(root, "action").value.JStr? {
      var a := Get(root, "action").value;
      assert CandidateAsWritten(root) == a;
      assert !IsStep(a);
      assert WithFallback(root, StepList(a)) == [a];
      assert KeepSteps([a]) == [];
      assert ProcessResponseAsWritten(data).steps == [];
      if TruthyAt(root, "steps") {
        var st := Get(root, "steps").value;
        assert Candidate(root) == st;
        if StepList(st) == [] {
          assert st == JArr([]);
          if TruthyAt(root, "selector") {
            assert KeepSteps([root]) == [root];
          }
        } else {
          assert WithFallback(root, StepList(st)) == StepList(st);
        }
      } else {
        assert Candidate(root) == JArr([]);
        if TruthyAt(root, "selector") {
          assert KeepSteps([root]) == [root];
        }
      }
    } else if !TruthyAt(root, "action") {
      assert Candidate(root) == CandidateAsWritten(root);
    } else {
      CorrectionIsConservative(data);
    }
  }

  // ---- canonical input -------------------------------------------------------------------

  /** The canonical JSON form of a normalised reply. */
  function Encode(r: Response): (j: Json)
    ensures j.JObj? && Get(j, "actions") == Some(JArr(r.steps))
    ensures Get(j, "guide_message") == Some(r.phase.guide)
    ensures Get(j, "require_confirmation") == Some(JBool(r.phase.requireConfirm))
    ensures Get(j, "current_phase") == r.phase.currentPhase
    ensures Get(j, "selector").None?
  {
    var m := map["guide_message" := r.phase.guide,
                 "require_confirmation" := JBool(r.phase.requireConfirm),
                 "actions" := JArr(r.steps)];
    JObj(if r.phase.currentPhase.Some? then m["current_phase" := r.phase.currentPhase.value] else m)
  }

  /** Any well-formed reply survives a round trip through its canonical form. */
  lemma EncodeRoundTrip(r: Response)
    requires Truthy(r.phase.guide)
    requires r.phase.currentPhase.Some? ==> Truthy(r.phase.currentPhase.value)
    requires forall i :: 0 <= i < |r.steps| ==> IsStep(r.steps[i])
    ensures ProcessResponse(Encode(r)) == r
    ensures ProcessResponseAsWritten(Encode(r)) == r
  {
    var j := Encode(r);
    assert Root(j) == j;
    assert PhaseOf(j) == r.phase;
    assert Candidate(j) == JArr(r.steps) == CandidateAsWritten(j);
    assert WithFallback(j, StepList(JArr(r.steps))) == r.steps;
    KeepStepsAll(r.steps);
  }

  /** Normalising the canonical form of a normalised reply gives the same reply back. */
  lemma NormalizeIdempotent(data: Json)
    ensures ProcessResponse(Encode(ProcessResponse(data))) == ProcessResponse(data)
    ensures ProcessResponseAsWritten(Encode(ProcessResponseAsWritten(data))) == ProcessResponseAsWritten(data)
  {
    EncodeRoundTrip(ProcessResponse(data));
    EncodeRoundTrip(ProcessResponseAsWritten(data));
  }

  /** A typed phase reply whose steps all have selectors is read back field for field. */
  lemma TypedPhaseResponse(p: PhaseResponse)
    requires forall i :: 0 <= i < |p.actions| ==> p.actions[i].selector != ""
    ensures var r := ProcessResponse(PhaseResponseJson(p));
      && r.steps == StepsJson(p.actions)
      && r.phase.requireConfirm == (p.requireConfirmation == Some(true))
      && r.phase.guide == (if p.guideMessage.Some? && p.guideMessage.value != ""
                           then JStr(p.guideMessage.value) else JStr(DefaultGuide))
      && r.phase.currentPhase == (if p.currentPhase.Some? && p.currentPhase.value != ""
                                  then Some(JStr(p.currentPhase.value)) else None)
  {
    var j := PhaseResponseJson(p);
    assert Root(j) == j;
    assert Get(j, "actions") == Some(JArr(StepsJson(p.actions)));
    assert Candidate(j) == JArr(StepsJson(p.actions));
    KeepStepsAll(StepsJson(p.actions));
  }
}
