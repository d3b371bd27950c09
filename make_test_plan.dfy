/** Test-plan assembly (src/makeTestPlan.ts): every pickle of a Gherkin
    document becomes a test case whose steps are the matching before hooks,
    one step per pickle step and the matching after hooks in reverse. Each
    step can be prepared for a `this` object, or throws the undefined or
    ambiguous error, and serialises as a test-step message. */
module TestPlan {
  import opened Wrappers
  import opened Seqs
  import opened Strings
  import opened Types
  import DataTable
  import opened SupportCodeLibrary
  import UndefinedError
  import AmbiguousError

  // ----- inputs (@cucumber/messages, @cucumber/query) -----

  datatype PickleTag = PickleTag(name: string)
  datatype PickleTableCell = PickleTableCell(value: string)
  datatype PickleTableRow = PickleTableRow(cells: seq<PickleTableCell>)
  datatype PickleTable = PickleTable(rows: seq<PickleTableRow>)
  datatype PickleDocString = PickleDocString(content: string)
  datatype PickleStepArgument = PickleStepArgument(dataTable: Option<PickleTable>, docString: Option<PickleDocString>)
  datatype PickleStep = PickleStep(id: string, text: string, argument: Option<PickleStepArgument>)
  datatype Pickle = Pickle(id: string, uri: string, name: string, tags: seq<PickleTag>, steps: seq<PickleStep>)

  datatype Feature = Feature(name: string)
  datatype GherkinDocument = GherkinDocument(uri: Option<string>, feature: Option<Feature>)

  /** The Gherkin step a pickle step comes from. */
  datatype GherkinStep = GherkinStep(keyword: string, location: Location)

  /** The Gherkin ancestry of a pickle, as the naming strategy consumes it. */
  datatype Lineage = Lineage(handle: nat)

  /** The query `populateQuery` fills from the document and its pickles. */
  datatype Query = Query(
    findLineageBy: Pickle -> Lineage,
    findLocationOf: Pickle -> Location,
    findStepBy: PickleStep -> GherkinStep)

  /** `strategy.reduce(lineage, pickle)` */
  type NamingStrategy = (Lineage, Pickle) -> string

  datatype TestPlanIngredients = TestPlanIngredients(
    testRunStartedId: Option<string>, gherkinDocument: GherkinDocument, pickles: seq<Pickle>,
    supportCodeLibrary: Library)

  // ----- assembled shapes -----

  /** A value produced with the `newId` counter, and the counter's next value. */
  datatype Drawn<T> = Drawn(value: T, next: Id)

  datatype StepName = StepName(prefix: string, body: string)

  /** What the `prepare` and `toMessage` closures of a step capture. */
  datatype StepSource =
    | HookSource(def: DefinedTestCaseHook)
    | PickleStepSource(pickleStep: PickleStep, matched: seq<MatchedStep>)

  datatype AssembledTestStep = AssembledTestStep(
    id: Id, name: StepName, sourceReference: SourceReference, always: bool, source: StepSource)

  datatype AssembledTestCase = AssembledTestCase(
    id: Id, name: string, sourceReference: SourceReference, testSteps: seq<AssembledTestStep>,
    pickleId: string, testRunStartedId: Option<string>)

  datatype AssembledTestPlan = AssembledTestPlan(name: Option<string>, testCases: seq<AssembledTestCase>)

  /** `fn.bind(thisArg)` */
  datatype BoundFunction = BoundFunction(fn: SupportCodeFunction, thisArg: World)

  /** A value passed to a step function. */
  datatype CallArgument =
    | ExpressionValue(value: Value)
    | DataTableValue(table: DataTable.Table)
    | DocStringValue(content: string)

  datatype PreparedCall = PreparedCall(fn: BoundFunction, args: seq<CallArgument>)

  /** How `prepare(thisArg)` ends: a call ready to make, or one of the two throws. */
  datatype Prepared =
    | Ready(call: PreparedCall)
    | ThrowsUndefined(message: string)
    | ThrowsAmbiguous(message: string)

  // ----- hook steps -----

  function TagNames(pickle: Pickle): (names: seq<string>)
    ensures |names| == |pickle.tags| && forall i :: 0 <= i < |names| ==> names[i] == pickle.tags[i].name
  {
    seq(|pickle.tags|, i requires 0 <= i < |pickle.tags| => pickle.tags[i].name)
  }

  /** The step for one hook: named by the prefix and the hook's name, or
      the empty string for an unnamed hook, and located at the pickle. */
  function StepOfHook(pickle: Pickle, location: Location, hook: DefinedTestCaseHook, prefix: string,
                      always: bool, id: Id): AssembledTestStep {
    AssembledTestStep(id, StepName(prefix, hook.name.GetOr("")), SourceReference(Some(pickle.uri), Some(location)),
                      always, HookSource(hook))
  }

  /** One step per hook, in the given order, each drawing the next id. */
  function HookSteps(pickle: Pickle, location: Location, hooks: seq<DefinedTestCaseHook>, prefix: string,
                     always: bool, next: Id): (d: Drawn<seq<AssembledTestStep>>)
    ensures |d.value| == |hooks| && d.next == next + |hooks|
    ensures forall i :: 0 <= i < |hooks| ==>
      d.value[i].id == next + i && d.value[i].source == HookSource(hooks[i]) && d.value[i].always == always
    ensures forall i :: 0 <= i < |hooks| ==>
      d.value[i].name == StepName(prefix, hooks[i].name.GetOr(""))
      && d.value[i].sourceReference == SourceReference(Some(pickle.uri), Some(location))
  {
    if |hooks| == 0 then Drawn([], next)
    else
      var rest := HookSteps(pickle, location, hooks[1..], prefix, always, next + 1);
      Drawn([StepOfHook(pickle, location, hooks[0], prefix, always, next)] + rest.value, rest.next)
  }

  /** `fromBeforeHooks`: the before hooks that apply, in library order,
      named "Before", never run regardless of earlier failures. */
  function FromBeforeHooks(pickle: Pickle, location: Location, lib: Library, next: Id): (d: Drawn<seq<AssembledTestStep>>)
    ensures var found := FindAllBeforeHooksBy(lib, TagNames(pickle));
      && |d.value| == |found| && d.next == next + |found|
      && forall i :: 0 <= i < |found| ==>
        && d.value[i].source == HookSource(found[i]) && !d.value[i].always
        && d.value[i].name == StepName("Before", found[i].name.GetOr("")) && d.value[i].id == next + i
  {
    HookSteps(pickle, location, FindAllBeforeHooksBy(lib, TagNames(pickle)), "Before", false, next)
  }

  /** `fromAfterHooks`: the after hooks that apply, in reverse library order,
      named "After" and always run. */
  function FromAfterHooks(pickle: Pickle, location: Location, lib: Library, next: Id): (d: Drawn<seq<AssembledTestStep>>)
    ensures var found := FindAllAfterHooksBy(lib, TagNames(pickle));
      && |d.value| == |found| && d.next == next + |found|
      && forall i :: 0 <= i < |found| ==>
        && d.value[i].source == HookSource(found[|found| - 1 - i]) && d.value[i].always
        && d.value[i].name == StepName("After", found[|found| - 1 - i].name.GetOr("")) && d.value[i].id == next + i
  {
    HookSteps(pickle, location, Reverse(FindAllAfterHooksBy(lib, TagNames(pickle))), "After", true, next)
  }

  // ----- pickle steps -----

  /** The step for one pickle step: named by the trimmed Gherkin keyword and
      the step text, matched once against the library. */
  function StepOfPickleStep(uri: string, ps: PickleStep, lib: Library, query: Query, id: Id): (s: AssembledTestStep)
    ensures s.id == id && !s.always
    ensures s.source.PickleStepSource? && s.source.pickleStep == ps
    ensures forall k :: 0 <= k < |s.source.matched| ==> s.source.matched[k].def in lib.steps
    ensures s.sourceReference.uri == Some(uri) && s.sourceReference.location == Some(query.findStepBy(ps).location)
    ensures s.name.prefix == Trim(query.findStepBy(ps).keyword) && s.name.body == ps.text
  {
    var step := query.findStepBy(ps);
    AssembledTestStep(id, StepName(Trim(step.keyword), ps.text), SourceReference(Some(uri), Some(step.location)),
                      false, PickleStepSource(ps, StepMatches(lib.steps, ps.text)))
  }

  function PickleSteps(uri: string, steps: seq<PickleStep>, lib: Library, query: Query, next: Id)
    : (d: Drawn<seq<AssembledTestStep>>)
    ensures |d.value| == |steps| && d.next == next + |steps|
    ensures forall i :: 0 <= i < |steps| ==>
      && d.value[i].id == next + i && !d.value[i].always
      && d.value[i].source == PickleStepSource(steps[i], StepMatches(lib.steps, steps[i].text))
    ensures forall i :: 0 <= i < |steps| ==>
      var gherkinStep := query.findStepBy(steps[i]);
      && d.value[i].name == StepName(Trim(gherkinStep.keyword), steps[i].text)
      && d.value[i].sourceReference == SourceReference(Some(uri), Some(gherkinStep.location))
  {
    if |steps| == 0 then Drawn([], next)
    else
      var rest := PickleSteps(uri, steps[1..], lib, query, next + 1);
      Drawn([StepOfPickleStep(uri, steps[0], lib, query, next)] + rest.value, rest.next)
  }

  /** `fromPickleSteps` */
  function FromPickleSteps(pickle: Pickle, lib: Library, query: Query, next: Id): (d: Drawn<seq<AssembledTestStep>>)
    ensures |d.value| == |pickle.steps| && d.next == next + |pickle.steps|
    ensures forall i :: 0 <= i < |pickle.steps| ==>
      && d.value[i].id == next + i && !d.value[i].always
      && d.value[i].source == PickleStepSource(pickle.steps[i], StepMatches(lib.steps, pickle.steps[i].text))
  {
    PickleSteps(pickle.uri, pickle.steps, lib, query, next)
  }

  /** `new DataTable(rows.map(row => row.cells.map(cell => cell.value)))` */
  function TableOf(t: PickleTable): (table: DataTable.Table)
    ensures |table.cells| == |t.rows|
    ensures forall r :: 0 <= r < |t.rows| ==> |table.cells[r]| == |t.rows[r].cells|
    ensures forall r, c :: 0 <= r < |t.rows| && 0 <= c < |t.rows[r].cells| ==> table.cells[r][c] == t.rows[r].cells[c].value
  {
    DataTable.Table(seq(|t.rows|, r requires 0 <= r < |t.rows| =>
      seq(|t.rows[r].cells|, c requires 0 <= c < |t.rows[r].cells| => t.rows[r].cells[c].value)))
  }

  /** The arguments of a prepared step call: the expression values, then a
      data table if the step has one, otherwise its doc string if it has one. */
  function StepArguments(args: seq<Argument>, argument: Option<PickleStepArgument>, thisArg: World): (r: seq<CallArgument>)
    ensures var hasTable := argument.Some? && argument.value.dataTable.Some?;
      var hasDocString := argument.Some? && argument.value.docString.Some?;
      && |r| == |args| + (if hasTable || hasDocString then 1 else 0)
      && (forall i :: 0 <= i < |args| ==> r[i] == ExpressionValue(args[i].getValue(thisArg)))
      && (hasTable ==> r[|args|] == DataTableValue(TableOf(argument.value.dataTable.value)))
      && (!hasTable && hasDocString ==> r[|args|] == DocStringValue(argument.value.docString.value.content))
  {
    var values := seq(|args|, i requires 0 <= i < |args| => ExpressionValue(args[i].getValue(thisArg)));
    if argument.Some? && argument.value.dataTable.Some? then values + [DataTableValue(TableOf(argument.value.dataTable.value))]
    else if argument.Some? && argument.value.docString.Some? then values + [DocStringValue(argument.value.docString.value.content)]
    else values
  }

  /** The source references of the matching definitions, in match order. */
  function MatchReferences(matched: seq<MatchedStep>): (refs: seq<SourceReference>)
    ensures |refs| == |matched| && forall i :: 0 <= i < |matched| ==> refs[i] == matched[i].def.sourceReference
  {
    seq(|matched|, i requires 0 <= i < |matched| => matched[i].def.sourceReference)
  }

  /** `step.prepare(thisArg)`: a hook is bound with no arguments; a pickle
      step with no match throws the undefined error, with several the
      ambiguous error naming them in match order, and with exactly one is
      bound to that definition's function. */
  function Prepare(step: AssembledTestStep, thisArg: World): (r: Prepared)
    ensures step.source.HookSource? ==> r == Ready(PreparedCall(BoundFunction(step.source.def.fn, thisArg), []))
    ensures step.source.PickleStepSource? ==>
      var m, ps := step.source.matched, step.source.pickleStep;
      && (r.ThrowsUndefined? <==> |m| == 0)
      && (r.ThrowsAmbiguous? <==> |m| > 1)
      && (r.ThrowsUndefined? ==> r.message == UndefinedError.Message(ps.text))
      && (r.ThrowsAmbiguous? ==> r.message == AmbiguousError.Message(ps.text, MatchReferences(m)))
      && (r.Ready? ==> r.call == PreparedCall(BoundFunction(m[0].def.fn, thisArg), StepArguments(m[0].args, ps.argument, thisArg)))
  {
    match step.source
    case HookSource(def) => Ready(PreparedCall(BoundFunction(def.fn, thisArg), []))
    case PickleStepSource(ps, matched) =>
      if |matched| < 1 then ThrowsUndefined(UndefinedError.Message(ps.text))
      else if |matched| > 1 then ThrowsAmbiguous(AmbiguousError.Message(ps.text, MatchReferences(matched)))
      else Ready(PreparedCall(BoundFunction(matched[0].def.fn, thisArg), StepArguments(matched[0].args, ps.argument, thisArg)))
  }

  /** How `prepare(thisArg)` as written ends: a pickle step with several
      matches calls `new AmbiguousError(pickleStep.text, references)`, handing
      the constructor a string where it expects an `AmbiguousStep`. */
  datatype PreparedAsWritten = Prepares(outcome: Prepared) | FailsWithTypeError

  function PrepareAsWritten(step: AssembledTestStep, thisArg: World): (r: PreparedAsWritten)
    ensures r.FailsWithTypeError? <==> step.source.PickleStepSource? && |step.source.matched| > 1
    ensures r.Prepares? ==> r.outcome == Prepare(step, thisArg)
  {
    match step.source
    case HookSource(_) => Prepares(Prepare(step, thisArg))
    case PickleStepSource(ps, matched) =>
      if |matched| > 1 then
        match AmbiguousError.ConstructAsWritten(AmbiguousError.StringArgument(ps.text))
        case Constructed(m) => Prepares(ThrowsAmbiguous(m))
        case ThrowsTypeError => FailsWithTypeError
      else Prepares(Prepare(step, thisArg))
  }

  /** The code as written departs from `Prepare` exactly on ambiguous pickle
      steps, where it throws a TypeError instead of the ambiguous error. */
  lemma AmbiguousPrepareAsWritten(step: AssembledTestStep, thisArg: World)
    ensures PrepareAsWritten(step, thisArg) != Prepares(Prepare(step, thisArg))
      <==> step.source.PickleStepSource? && |step.source.matched| > 1
    ensures step.source.PickleStepSource? && |step.source.matched| > 1 ==>
      PrepareAsWritten(step, thisArg) == FailsWithTypeError && Prepare(step, thisArg).ThrowsAmbiguous?
  {
  }

  // ----- messages -----

  /** `mapArgumentGroup(group)`: the message form keeps `start`, `value` and
      the tree of children, and drops `end`. */
  function MapArgumentGroup(g: ExpressionGroup): (m: MessageGroup)
    ensures m.start == g.start && m.value == g.value && |m.children| == |g.children|
    decreases g
  {
    MessageGroup(g.start, g.value, seq(|g.children|, i requires 0 <= i < |g.children| => MapArgumentGroup(g.children[i])))
  }

  /** The expression group a message group describes, with no `end` positions. */
  function ToExpressionGroup(m: MessageGroup): (g: ExpressionGroup)
    decreases m
  {
    ExpressionGroup(m.value, m.start, None, seq(|m.children|, i requires 0 <= i < |m.children| => ToExpressionGroup(m.children[i])))
  }

  predicate NoEnds(g: ExpressionGroup)
    decreases g
  {
    g.end.None? && forall i :: 0 <= i < |g.children| ==> NoEnds(g.children[i])
  }

  /** Every message group is the image of an expression group: mapping loses
      no start, value or child. */
  lemma {:induction false} MapArgumentGroupOnto(m: MessageGroup)
    ensures MapArgumentGroup(ToExpressionGroup(m)) == m
    decreases m
  {
    var g := ToExpressionGroup(m);
    forall i | 0 <= i < |m.children| ensures MapArgumentGroup(g.children[i]) == m.children[i] {
      MapArgumentGroupOnto(m.children[i]);
    }
  }

  /** A group without end positions is recovered from its message form, so
      `end` is the only thing mapping forgets. */
  lemma {:induction false} MapArgumentGroupInverse(g: ExpressionGroup)
    requires NoEnds(g)
    ensures ToExpressionGroup(MapArgumentGroup(g)) == g
    decreases g
  {
    var m := MapArgumentGroup(g);
    forall i | 0 <= i < |g.children| ensures ToExpressionGroup(m.children[i]) == g.children[i] {
      MapArgumentGroupInverse(g.children[i]);
    }
  }

  function ArgumentsList(args: seq<Argument>): (l: StepMatchArgumentsList)
    ensures |l.stepMatchArguments| == |args|
    ensures forall j :: 0 <= j < |args| ==>
      l.stepMatchArguments[j] == StepMatchArgument(MapArgumentGroup(args[j].group), args[j].parameterTypeName)
  {
    StepMatchArgumentsList(seq(|args|, j requires 0 <= j < |args| =>
      StepMatchArgument(MapArgumentGroup(args[j].group), args[j].parameterTypeName)))
  }

  /** `step.toMessage()`: a hook step names its hook; a pickle step lists
      every matching definition and its arguments, in match order. */
  function StepToMessage(step: AssembledTestStep): (msg: TestStepMessage)
    ensures msg.id == step.id
    ensures step.source.HookSource? ==> msg == HookTestStep(step.id, step.source.def.id)
    ensures step.source.PickleStepSource? ==>
      var m := step.source.matched;
      && msg.PickleTestStep? && msg.pickleStepId == step.source.pickleStep.id
      && |msg.stepDefinitionIds| == |m| && |msg.stepMatchArgumentsLists| == |m|
      && (forall i :: 0 <= i < |m| ==> msg.stepDefinitionIds[i] == m[i].def.id)
      && (forall i :: 0 <= i < |m| ==> msg.stepMatchArgumentsLists[i] == ArgumentsList(m[i].args))
  {
    match step.source
    case HookSource(def) => HookTestStep(step.id, def.id)
    case PickleStepSource(ps, matched) =>
      PickleTestStep(step.id, ps.id,
        seq(|matched|, i requires 0 <= i < |matched| => matched[i].def.id),
        seq(|matched|, i requires 0 <= i < |matched| => ArgumentsList(matched[i].args)))
  }

  /** Because `prepare` and `toMessage` share one match list, a step's
      message lists no definition exactly when preparing it throws the
      undefined error, and several exactly when it throws the ambiguous one. */
  lemma PrepareAgreesWithMessage(step: AssembledTestStep, thisArg: World)
    requires step.source.PickleStepSource?
    ensures var ids := StepToMessage(step).stepDefinitionIds; var r := Prepare(step, thisArg);
      && (|ids| == 0 <==> r.ThrowsUndefined?)
      && (|ids| > 1 <==> r.ThrowsAmbiguous?)
      && (|ids| == 1 <==> r.Ready?)
      && (r.Ready? ==> ids == [step.source.matched[0].def.id])
  {
    var ids := StepToMessage(step).stepDefinitionIds;
    if |ids| == 1 {
      assert ids == [ids[0]];
    }
  }

  function TestCaseToMessage(tc: AssembledTestCase): (msg: TestCaseMessage)
    ensures msg.id == tc.id && msg.pickleId == tc.pickleId && msg.testRunStartedId == tc.testRunStartedId
    ensures |msg.testSteps| == |tc.testSteps|
    ensures forall k :: 0 <= k < |tc.testSteps| ==> msg.testSteps[k] == StepToMessage(tc.testSteps[k])
  {
    TestCaseMessage(tc.id, tc.pickleId,
      seq(|tc.testSteps|, k requires 0 <= k < |tc.testSteps| => StepToMessage(tc.testSteps[k])), tc.testRunStartedId)
  }

  /** `toEnvelopes()` of the plan: one test-case envelope per test case, in order. */
  function PlanEnvelopes(plan: AssembledTestPlan): (r: seq<Envelope>)
    ensures |r| == |plan.testCases|
    ensures forall i :: 0 <= i < |r| ==> r[i] == TestCaseEnvelope(TestCaseToMessage(plan.testCases[i]))
  {
    seq(|plan.testCases|, i requires 0 <= i < |plan.testCases| => TestCaseEnvelope(TestCaseToMessage(plan.testCases[i])))
  }

  // ----- the plan -----

  /** The hooks of `lib` that apply to the pickle's tags. */
  function BeforeHooksOf(pickle: Pickle, lib: Library): seq<DefinedTestCaseHook> {
    FindAllBeforeHooksBy(lib, TagNames(pickle))
  }

  function AfterHooksOf(pickle: Pickle, lib: Library): seq<DefinedTestCaseHook> {
    FindAllAfterHooksBy(lib, TagNames(pickle))
  }

  /** The steps of a pickle's test case, drawing ids from `next` on. */
  function CaseSteps(pickle: Pickle, location: Location, lib: Library, query: Query, next: Id)
    : (d: Drawn<seq<AssembledTestStep>>)
    ensures |d.value| == |BeforeHooksOf(pickle, lib)| + |pickle.steps| + |AfterHooksOf(pickle, lib)|
    ensures forall k :: 0 <= k < |d.value| ==> d.value[k].id == next + k
    ensures d.next == next + |d.value|
  {
    var before := FromBeforeHooks(pickle, location, lib, next);
    var steps := FromPickleSteps(pickle, lib, query, before.next);
    var after := FromAfterHooks(pickle, location, lib, steps.next);
    var all := before.value + steps.value + after.value;
    var nb, ns := |before.value|, |steps.value|;
    forall k | 0 <= k < |all| ensures all[k].id == next + k {
      if k < nb {
        assert all[k] == before.value[k];
      } else if k < nb + ns {
        assert all[k] == steps.value[k - nb];
      } else {
        assert all[k] == after.value[k - nb - ns];
      }
    }
    Drawn(all, after.next)
  }

  /** The test case of one pickle: its id is drawn first, then one per step,
      in the order the steps run. */
  function MakeTestCase(pickle: Pickle, lib: Library, query: Query, strategy: NamingStrategy,
                        testRunStartedId: Option<string>, next: Id): (d: Drawn<AssembledTestCase>)
    ensures d.value.id == next && d.value.pickleId == pickle.id && d.value.testRunStartedId == testRunStartedId
    ensures |d.value.testSteps| == |BeforeHooksOf(pickle, lib)| + |pickle.steps| + |AfterHooksOf(pickle, lib)|
    ensures forall k :: 0 <= k < |d.value.testSteps| ==> d.value.testSteps[k].id == next + 1 + k
    ensures d.next == next + 1 + |d.value.testSteps|
  {
    var location := query.findLocationOf(pickle);
    var steps := CaseSteps(pickle, location, lib, query, next + 1);
    Drawn(AssembledTestCase(next, strategy(query.findLineageBy(pickle), pickle),
                            SourceReference(Some(pickle.uri), Some(location)), steps.value, pickle.id, testRunStartedId),
          steps.next)
  }

  /** A test case runs the before hooks that apply, in library order, and
      they do not always run. */
  lemma BeforeHookStepsFirst(pickle: Pickle, location: Location, lib: Library, query: Query, next: Id)
    ensures var steps := CaseSteps(pickle, location, lib, query, next).value; var before := BeforeHooksOf(pickle, lib);
      forall k :: 0 <= k < |before| ==> steps[k].source == HookSource(before[k]) && !steps[k].always
  {
    var before := FromBeforeHooks(pickle, location, lib, next);
    var mid := FromPickleSteps(pickle, lib, query, before.next);
    var after := FromAfterHooks(pickle, location, lib, mid.next);
    var steps := CaseSteps(pickle, location, lib, query, next).value;
    assert steps == before.value + mid.value + after.value;
    forall k | 0 <= k < |before.value| ensures steps[k] == before.value[k] {
    }
  }

  /** Then come the pickle's steps, each with its matches, not always run. */
  lemma PickleStepsNext(pickle: Pickle, location: Location, lib: Library, query: Query, next: Id)
    ensures var steps := CaseSteps(pickle, location, lib, query, next).value; var nb := |BeforeHooksOf(pickle, lib)|;
      forall k :: nb <= k < nb + |pickle.steps| ==>
        && steps[k].source == PickleStepSource(pickle.steps[k - nb], StepMatches(lib.steps, pickle.steps[k - nb].text))
        && !steps[k].always
  {
    var before := FromBeforeHooks(pickle, location, lib, next);
    var mid := FromPickleSteps(pickle, lib, query, before.next);
    var after := FromAfterHooks(pickle, location, lib, mid.next);
    var steps := CaseSteps(pickle, location, lib, query, next).value;
    assert steps == before.value + mid.value + after.value;
    var nb := |before.value|;
    forall k | nb <= k < nb + |pickle.steps|
      ensures steps[k].source == PickleStepSource(pickle.steps[k - nb], StepMatches(lib.steps, pickle.steps[k - nb].text))
      ensures !steps[k].always
    {
      assert steps[k] == mid.value[k - nb];
    }
  }

  /** Last come the after hooks that apply, in reverse library order, and
      these always run. */
  lemma AfterHookStepsLast(pickle: Pickle, location: Location, lib: Library, query: Query, next: Id)
    ensures var steps := CaseSteps(pickle, location, lib, query, next).value;
      var n := |BeforeHooksOf(pickle, lib)| + |pickle.steps|; var after := AfterHooksOf(pickle, lib);
      forall k :: n <= k < |steps| ==> steps[k].source == HookSource(after[|steps| - 1 - k]) && steps[k].always
  {
    var before := FromBeforeHooks(pickle, location, lib, next);
    var mid := FromPickleSteps(pickle, lib, query, before.next);
    var after := FromAfterHooks(pickle, location, lib, mid.next);
    var steps := CaseSteps(pickle, location, lib, query, next).value;
    var n := |before.value| + |mid.value|;
    var found := AfterHooksOf(pickle, lib);
    var reversed := Reverse(found);
    forall k | n <= k < |steps| ensures steps[k].source == HookSource(found[|steps| - 1 - k]) && steps[k].always {
      assert steps[k] == after.value[k - n];
      assert after.value[k - n].source == HookSource(reversed[k - n]);
      assert reversed[k - n] == found[|found| - 1 - (k - n)];
    }
  }

  /** A test case runs the before hooks that apply in library order, then
      the pickle's steps each with its matches, then the after hooks that
      apply in reverse library order; only the after-hook steps always run. */
  lemma TestCaseLayout(pickle: Pickle, lib: Library, query: Query, strategy: NamingStrategy,
                       testRunStartedId: Option<string>, next: Id)
    ensures var steps := MakeTestCase(pickle, lib, query, strategy, testRunStartedId, next).value.testSteps;
      var before, after := BeforeHooksOf(pickle, lib), AfterHooksOf(pickle, lib);
      var nb, ns := |before|, |pickle.steps|;
      && (forall k :: 0 <= k < nb ==> steps[k].source == HookSource(before[k]))
      && (forall k :: nb <= k < nb + ns ==>
            steps[k].source == PickleStepSource(pickle.steps[k - nb], StepMatches(lib.steps, pickle.steps[k - nb].text)))
      && (forall k :: nb + ns <= k < |steps| ==> steps[k].source == HookSource(after[|steps| - 1 - k]))
      && (forall k :: 0 <= k < |steps| ==> (steps[k].always <==> nb + ns <= k))
  {
    var location := query.findLocationOf(pickle);
    var steps := CaseSteps(pickle, location, lib, query, next + 1).value;
    assert MakeTestCase(pickle, lib, query, strategy, testRunStartedId, next).value.testSteps == steps;
    BeforeHookStepsFirst(pickle, location, lib, query, next + 1);
    PickleStepsNext(pickle, location, lib, query, next + 1);
    AfterHookStepsLast(pickle, location, lib, query, next + 1);
    var nb, ns := |BeforeHooksOf(pickle, lib)|, |pickle.steps|;
    forall k | 0 <= k < |steps| ensures steps[k].always <==> nb + ns <= k {
      if k < nb {
        assert !steps[k].always;
      } else if k < nb + ns {
        assert !steps[k].always;
      } else {
        assert steps[k].always;
      }
    }
  }

  /** The ids a test case holds, in drawing order: its own, then its steps'. */
  function CaseIds(tc: AssembledTestCase): seq<Id> {
    [tc.id] + seq(|tc.testSteps|, k requires 0 <= k < |tc.testSteps| => tc.testSteps[k].id)
  }

  function PlanIds(cases: seq<AssembledTestCase>): seq<Id> {
    if |cases| == 0 then [] else CaseIds(cases[0]) + PlanIds(cases[1..])
  }

  lemma CaseIdsCount(tc: AssembledTestCase, next: Id)
    requires tc.id == next
    requires forall k :: 0 <= k < |tc.testSteps| ==> tc.testSteps[k].id == next + 1 + k
    ensures CountsFrom(CaseIds(tc), next) && |CaseIds(tc)| == 1 + |tc.testSteps|
  {
  }

  /** `ids` are `from`, `from + 1`, ... in order. */
  predicate CountsFrom(ids: seq<Id>, from: Id) {
    forall k :: 0 <= k < |ids| ==> ids[k] == from + k
  }

  lemma CountsFromConcat(a: seq<Id>, b: seq<Id>, from: Id)
    requires CountsFrom(a, from) && CountsFrom(b, from + |a|)
    ensures CountsFrom(a + b, from)
  {
  }

  /** One test case per pickle, in pickle order, each assembled from the id
      the counter had reached; all ids are drawn in one unbroken run. */
  function TestCases(pickles: seq<Pickle>, lib: Library, query: Query, strategy: NamingStrategy,
                     testRunStartedId: Option<string>, next: Id): (d: Drawn<seq<AssembledTestCase>>)
    ensures |d.value| == |pickles|
    ensures forall i :: 0 <= i < |pickles| ==>
      d.value[i] == MakeTestCase(pickles[i], lib, query, strategy, testRunStartedId, d.value[i].id).value
    ensures CountsFrom(PlanIds(d.value), next) && d.next == next + |PlanIds(d.value)|
  {
    if |pickles| == 0 then Drawn([], next)
    else
      var first := MakeTestCase(pickles[0], lib, query, strategy, testRunStartedId, next);
      var rest := TestCases(pickles[1..], lib, query, strategy, testRunStartedId, first.next);
      var cases := [first.value] + rest.value;
      assert cases[1..] == rest.value;
      forall i | 1 <= i < |pickles|
        ensures cases[i] == MakeTestCase(pickles[i], lib, query, strategy, testRunStartedId, cases[i].id).value
      {
        assert cases[i] == rest.value[i - 1] && pickles[i] == pickles[1..][i - 1];
      }
      CaseIdsCount(first.value, next);
      CountsFromConcat(CaseIds(first.value), PlanIds(rest.value), next);
      Drawn(cases, rest.next)
  }

  /** `gherkinDocument.feature?.name || gherkinDocument.uri`: an empty
      feature name falls back to the uri like a missing feature does. */
  function PlanName(doc: GherkinDocument): (name: Option<string>)
    ensures doc.feature.Some? && doc.feature.value.name != "" ==> name == Some(doc.feature.value.name)
    ensures !(doc.feature.Some? && doc.feature.value.name != "") ==> name == doc.uri
  {
    if doc.feature.Some? && doc.feature.value.name != "" then Some(doc.feature.value.name) else doc.uri
  }

  /** `makeTestPlan(ingredients, { newId, strategy })`, with `newId` counting
      from `next` and `query` the one populated from the document and pickles. */
  function MakeTestPlan(ingredients: TestPlanIngredients, query: Query, strategy: NamingStrategy, next: Id)
    : (d: Drawn<AssembledTestPlan>)
    ensures d.value.name == PlanName(ingredients.gherkinDocument)
    ensures |d.value.testCases| == |ingredients.pickles|
    ensures forall i :: 0 <= i < |ingredients.pickles| ==> d.value.testCases[i].pickleId == ingredients.pickles[i].id
    ensures CountsFrom(PlanIds(d.value.testCases), next) && d.next == next + |PlanIds(d.value.testCases)|
  {
    var cases := TestCases(ingredients.pickles, ingredients.supportCodeLibrary, query, strategy,
                           ingredients.testRunStartedId, next);
    assert forall i :: 0 <= i < |ingredients.pickles| ==>
      cases.value[i] == MakeTestCase(ingredients.pickles[i], ingredients.supportCodeLibrary, query, strategy,
                                     ingredients.testRunStartedId, cases.value[i].id).value;
    Drawn(AssembledTestPlan(PlanName(ingredients.gherkinDocument), cases.value), cases.next)
  }

  /** No two test cases or test steps of a plan share an id, and none is
      below the starting value of the counter or at or past its final one. */
  lemma PlanIdsUnique(ingredients: TestPlanIngredients, query: Query, strategy: NamingStrategy, next: Id)
    ensures var d := MakeTestPlan(ingredients, query, strategy, next); var ids := PlanIds(d.value.testCases);
      && Distinct(ids) && forall k :: 0 <= k < |ids| ==> next <= ids[k] < d.next
  {
  }

  /** The plan's envelopes are its test cases' messages, one per pickle in
      pickle order, each listing its steps' messages in execution order. */
  lemma PlanEnvelopesPerPickle(ingredients: TestPlanIngredients, query: Query, strategy: NamingStrategy, next: Id, i: nat)
    requires i < |ingredients.pickles|
    ensures var plan := MakeTestPlan(ingredients, query, strategy, next).value; var e := PlanEnvelopes(plan)[i];
      && e.TestCaseEnvelope? && e.testCase.pickleId == ingredients.pickles[i].id
      && e.testCase.id == plan.testCases[i].id
      && e.testCase.testRunStartedId == ingredients.testRunStartedId
      && |e.testCase.testSteps| == |plan.testCases[i].testSteps|
  {
    var plan := MakeTestPlan(ingredients, query, strategy, next).value;
    var tc := plan.testCases[i];
    assert tc == MakeTestCase(ingredients.pickles[i], ingredients.supportCodeLibrary, query, strategy,
                              ingredients.testRunStartedId, tc.id).value;
  }
}
