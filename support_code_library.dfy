/** The sealed support-code library (src/SupportCodeLibraryImpl.ts): five
    read-only lists of defined support code, queried by step text and by
    pickle tags, and serialised as envelopes. */
module SupportCodeLibrary {
  import opened Wrappers
  import opened Seqs
  import opened Types

  /** The constructor keeps its five lists as they are; being a value, no
      query can change them. */
  datatype Library = Library(
    parameterTypes: seq<DefinedParameterType>,
    steps: seq<DefinedStep>,
    undefinedParameterTypes: seq<UndefinedParameterType>,
    beforeHooks: seq<DefinedTestCaseHook>,
    afterHooks: seq<DefinedTestCaseHook>)

  /** `def.expression.compiled.match(text)`, paired with its definition when
      it matches. Any returned argument list, even an empty one, counts as a match. */
  function MatchOf(text: string): DefinedStep -> Option<MatchedStep> {
    (def: DefinedStep) => match def.expression.compiled.matcher(text)
           case Some(args) => Some(MatchedStep(def, args))
           case None => None
  }

  /** The matches of `text`, in definition order. */
  function StepMatches(steps: seq<DefinedStep>, text: string): (r: seq<MatchedStep>)
    ensures |r| <= |steps|
    ensures forall k :: 0 <= k < |r| ==> r[k].def in steps && r[k].def.expression.compiled.matcher(text) == Some(r[k].args)
  {
    FilterMapExactly(steps, MatchOf(text));
    FilterMap(steps, MatchOf(text))
  }

  /** `findAllStepsBy(text)`: tries every definition in turn and keeps those
      whose matcher returns arguments. */
  method FindAllStepsBy(lib: Library, text: string) returns (results: seq<MatchedStep>)
    ensures results == StepMatches(lib.steps, text)
  {
    results := [];
    var i := 0;
    while i < |lib.steps|
      invariant i <= |lib.steps|
      invariant results == StepMatches(lib.steps[..i], text)
    {
      var def := lib.steps[i];
      var args := def.expression.compiled.matcher(text);
      if args.Some? {
        results := results + [MatchedStep(def, args.value)];
      }
      assert lib.steps[..i + 1][..i] == lib.steps[..i];
      i := i + 1;
    }
    assert lib.steps[..i] == lib.steps;
  }

  /** The matches are exactly the definitions whose matcher accepts `text`,
      in definition order, each with the arguments its matcher returned;
      there are never more matches than definitions. */
  lemma StepMatchesExactly(steps: seq<DefinedStep>, text: string)
    ensures var idx := Survivors(steps, MatchOf(text)); var r := StepMatches(steps, text);
      && |idx| == |r| <= |steps|
      && StrictlyIncreasing(idx)
      && (forall k :: 0 <= k < |r| ==>
            idx[k] < |steps| && r[k].def == steps[idx[k]]
            && steps[idx[k]].expression.compiled.matcher(text) == Some(r[k].args))
      && (forall j :: 0 <= j < |steps| ==> (steps[j].expression.compiled.matcher(text).Some? <==> j in idx))
  {
    var idx, r := Survivors(steps, MatchOf(text)), StepMatches(steps, text);
    FilterMapExactly(steps, MatchOf(text));
    forall k | 0 <= k < |r|
      ensures r[k].def == steps[idx[k]] && steps[idx[k]].expression.compiled.matcher(text) == Some(r[k].args)
    {
      assert MatchOf(text)(steps[idx[k]]) == Some(r[k]);
    }
    forall j | 0 <= j < |steps|
      ensures steps[j].expression.compiled.matcher(text).Some? <==> j in idx
    {
      assert MatchOf(text)(steps[j]).Some? <==> steps[j].expression.compiled.matcher(text).Some?;
    }
  }

  /** A hook applies to a pickle when it has no compiled tag expression or
      the expression holds on the pickle's tag names. */
  predicate HookApplies(h: DefinedTestCaseHook, tags: seq<string>) {
    h.tags.None? || h.tags.value.compiled.evaluate(tags)
  }

  function AppliesTo(tags: seq<string>): DefinedTestCaseHook -> bool {
    h => HookApplies(h, tags)
  }

  /** The hooks of `hooks` that apply to `tags`. */
  function ApplicableHooks(hooks: seq<DefinedTestCaseHook>, tags: seq<string>): (r: seq<DefinedTestCaseHook>)
    ensures |r| <= |hooks|
    ensures forall k :: 0 <= k < |r| ==> HookApplies(r[k], tags)
  {
    FilterExactly(hooks, AppliesTo(tags));
    Filter(hooks, AppliesTo(tags))
  }

  /** They are kept in definition order: the hook at position `k` is the
      `k`-th applicable one. */
  lemma ApplicableHooksInOrder(hooks: seq<DefinedTestCaseHook>, tags: seq<string>)
    ensures var idx, r := Kept(hooks, AppliesTo(tags)), ApplicableHooks(hooks, tags);
      && |idx| == |r| && StrictlyIncreasing(idx)
      && (forall k :: 0 <= k < |r| ==> idx[k] < |hooks| && r[k] == hooks[idx[k]])
      && (forall j :: 0 <= j < |hooks| ==> (HookApplies(hooks[j], tags) <==> j in idx))
  {
    FilterExactly(hooks, AppliesTo(tags));
  }

  /** A hook of the list is returned exactly when it applies. */
  lemma ApplicableHooksMembership(hooks: seq<DefinedTestCaseHook>, tags: seq<string>, j: nat)
    requires j < |hooks|
    ensures HookApplies(hooks[j], tags) <==> hooks[j] in ApplicableHooks(hooks, tags)
  {
    var r, idx := ApplicableHooks(hooks, tags), Kept(hooks, AppliesTo(tags));
    ApplicableHooksInOrder(hooks, tags);
    if HookApplies(hooks[j], tags) {
      var k :| 0 <= k < |idx| && idx[k] == j;
      assert r[k] == hooks[j];
    }
  }

  /** `findAllBeforeHooksBy(tags)`: the applicable before hooks, in definition order. */
  function FindAllBeforeHooksBy(lib: Library, tags: seq<string>): (r: seq<DefinedTestCaseHook>)
    ensures |r| <= |lib.beforeHooks|
    ensures forall k :: 0 <= k < |r| ==> HookApplies(r[k], tags)
  {
    ApplicableHooks(lib.beforeHooks, tags)
  }

  /** `findAllAfterHooksBy(tags)`: the same filter, in definition order (the
      test plan reverses it, not the library). */
  function FindAllAfterHooksBy(lib: Library, tags: seq<string>): (r: seq<DefinedTestCaseHook>)
    ensures |r| <= |lib.afterHooks|
    ensures forall k :: 0 <= k < |r| ==> HookApplies(r[k], tags)
  {
    ApplicableHooks(lib.afterHooks, tags)
  }

  /** Every applicable before or after hook is found, and only those. */
  lemma FoundHooksComplete(lib: Library, tags: seq<string>)
    ensures forall j :: 0 <= j < |lib.beforeHooks| ==>
      (HookApplies(lib.beforeHooks[j], tags) <==> lib.beforeHooks[j] in FindAllBeforeHooksBy(lib, tags))
    ensures forall j :: 0 <= j < |lib.afterHooks| ==>
      (HookApplies(lib.afterHooks[j], tags) <==> lib.afterHooks[j] in FindAllAfterHooksBy(lib, tags))
  {
    forall j | 0 <= j < |lib.beforeHooks| ensures
      HookApplies(lib.beforeHooks[j], tags) <==> lib.beforeHooks[j] in FindAllBeforeHooksBy(lib, tags)
    {
      ApplicableHooksMembership(lib.beforeHooks, tags, j);
    }
    forall j | 0 <= j < |lib.afterHooks| ensures
      HookApplies(lib.afterHooks[j], tags) <==> lib.afterHooks[j] in FindAllAfterHooksBy(lib, tags)
    {
      ApplicableHooksMembership(lib.afterHooks, tags, j);
    }
  }

  /** An untagged hook is returned whatever the tags, the empty list included;
      when no hook is tagged, every hook is returned in definition order. */
  lemma UntaggedHooksAlwaysApply(hooks: seq<DefinedTestCaseHook>, tags: seq<string>)
    ensures forall j :: 0 <= j < |hooks| && hooks[j].tags.None? ==> hooks[j] in ApplicableHooks(hooks, tags)
    ensures (forall j :: 0 <= j < |hooks| ==> hooks[j].tags.None?) ==> ApplicableHooks(hooks, tags) == hooks
  {
    forall j | 0 <= j < |hooks| && hooks[j].tags.None? ensures hooks[j] in ApplicableHooks(hooks, tags) {
      ApplicableHooksMembership(hooks, tags, j);
    }
    if forall j :: 0 <= j < |hooks| ==> hooks[j].tags.None? {
      FilterKeepsAll(hooks, AppliesTo(tags));
    }
  }

  /** `toEnvelopes()`: parameter types, step definitions, undefined parameter
      types, before hooks and after hooks, each block in its list's order. */
  function ToEnvelopes(lib: Library): (r: seq<Envelope>)
    ensures var p, s, u, b, a := |lib.parameterTypes|, |lib.steps|, |lib.undefinedParameterTypes|,
                                 |lib.beforeHooks|, |lib.afterHooks|;
      && |r| == p + s + u + b + a
      && (forall i :: 0 <= i < p ==> r[i] == ParameterTypeEnvelope(lib.parameterTypes[i]))
      && (forall i :: 0 <= i < s ==> r[p + i] == StepDefinitionEnvelope(StepDefinitionToMessage(lib.steps[i])))
      && (forall i :: 0 <= i < u ==> r[p + s + i] == UndefinedParameterTypeEnvelope(lib.undefinedParameterTypes[i]))
      && (forall i :: 0 <= i < b ==> r[p + s + u + i] == HookEnvelope(TestCaseHookToMessage(lib.beforeHooks[i])))
      && (forall i :: 0 <= i < a ==> r[p + s + u + b + i] == HookEnvelope(TestCaseHookToMessage(lib.afterHooks[i])))
  {
    seq(|lib.parameterTypes|, i requires 0 <= i < |lib.parameterTypes| => ParameterTypeEnvelope(lib.parameterTypes[i]))
    + seq(|lib.steps|, i requires 0 <= i < |lib.steps| => StepDefinitionEnvelope(StepDefinitionToMessage(lib.steps[i])))
    + seq(|lib.undefinedParameterTypes|, i requires 0 <= i < |lib.undefinedParameterTypes| =>
        UndefinedParameterTypeEnvelope(lib.undefinedParameterTypes[i]))
    + seq(|lib.beforeHooks|, i requires 0 <= i < |lib.beforeHooks| => HookEnvelope(TestCaseHookToMessage(lib.beforeHooks[i])))
    + seq(|lib.afterHooks|, i requires 0 <= i < |lib.afterHooks| => HookEnvelope(TestCaseHookToMessage(lib.afterHooks[i])))
  }

  /** A step definition envelope reports a Cucumber expression exactly when
      the definition's compiled expression is one. */
  lemma StepEnvelopeType(lib: Library, i: nat)
    requires i < |lib.steps|
    ensures var e := ToEnvelopes(lib)[|lib.parameterTypes| + i];
      && e.StepDefinitionEnvelope? && e.stepDefinition.id == lib.steps[i].id
      && (e.stepDefinition.pattern.patternType == CUCUMBER_EXPRESSION
          <==> lib.steps[i].expression.compiled.kind == CucumberExpressionKind)
  {
  }
}
