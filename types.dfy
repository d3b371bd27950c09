/** The records the core passes around: the registration options and defined
    support code of `src/types.ts`, the `@cucumber/messages` shapes it reads
    and emits, and the external engines it calls (cucumber-expressions and
    tag-expressions), which appear here only as function-valued fields. */
module Types {
  import opened Wrappers

  /** An identifier drawn from the injected `newId` generator, modelled as a counter. */
  type Id = nat

  // ----- @cucumber/messages -----

  datatype Location = Location(line: nat, column: Option<nat>)

  datatype SourceReference = SourceReference(uri: Option<string>, location: Option<Location>)

  datatype HookType = BEFORE_TEST_RUN | AFTER_TEST_RUN | BEFORE_TEST_CASE | AFTER_TEST_CASE

  datatype StepDefinitionPatternType = CUCUMBER_EXPRESSION | REGULAR_EXPRESSION

  datatype StepDefinitionPattern = StepDefinitionPattern(source: string, patternType: StepDefinitionPatternType)

  datatype StepDefinitionMessage = StepDefinitionMessage(id: Id, pattern: StepDefinitionPattern, sourceReference: SourceReference)

  datatype HookMessage = HookMessage(
    id: Id, hookType: HookType, name: Option<string>, tagExpression: Option<string>, sourceReference: SourceReference)

  /** The message form of a match group (`Group` of `@cucumber/messages`). */
  datatype MessageGroup = MessageGroup(start: Option<nat>, value: Option<string>, children: seq<MessageGroup>)

  datatype StepMatchArgument = StepMatchArgument(group: MessageGroup, parameterTypeName: string)

  datatype StepMatchArgumentsList = StepMatchArgumentsList(stepMatchArguments: seq<StepMatchArgument>)

  datatype TestStepMessage =
    | HookTestStep(id: Id, hookId: Id)
    | PickleTestStep(id: Id, pickleStepId: string, stepDefinitionIds: seq<Id>,
                     stepMatchArgumentsLists: seq<StepMatchArgumentsList>)

  datatype TestCaseMessage = TestCaseMessage(
    id: Id, pickleId: string, testSteps: seq<TestStepMessage>, testRunStartedId: Option<string>)

  datatype UndefinedParameterType = UndefinedParameterType(name: string, expression: string)

  datatype DefinedParameterType = DefinedParameterType(
    id: Id, name: string, regularExpressions: seq<string>,
    preferForRegularExpressionMatch: bool, useForSnippets: bool, sourceReference: SourceReference)

  datatype Envelope =
    | ParameterTypeEnvelope(parameterType: DefinedParameterType)
    | StepDefinitionEnvelope(stepDefinition: StepDefinitionMessage)
    | UndefinedParameterTypeEnvelope(undefinedParameterType: UndefinedParameterType)
    | HookEnvelope(hook: HookMessage)
    | TestCaseEnvelope(testCase: TestCaseMessage)

  // ----- opaque runtime values -----

  /** A user support-code function; it is never invoked by the core. */
  datatype SupportCodeFunction = SupportCodeFunction(handle: nat)

  /** The `this` object a step or hook function is bound to. */
  datatype World = World(handle: nat)

  /** Whatever an expression argument evaluates to. */
  datatype Value = Value(handle: nat)

  // ----- cucumber-expressions -----

  /** A match group as cucumber-expressions reports it. */
  datatype ExpressionGroup = ExpressionGroup(
    value: Option<string>, start: Option<nat>, end: Option<nat>, children: seq<ExpressionGroup>)

  /** One matched argument: its group tree, its parameter type's name, and
      `getValue(thisArg)`. */
  datatype Argument = Argument(group: ExpressionGroup, parameterTypeName: string, getValue: World -> Value)

  /** `compiled.match(text)`: the arguments, or `None` when the text does not match. */
  type MatchFunction = string -> Option<seq<Argument>>

  datatype ExpressionKind = CucumberExpressionKind | RegularExpressionKind

  /** A compiled `CucumberExpression` or `RegularExpression`. */
  datatype CompiledExpression = CompiledExpression(kind: ExpressionKind, matcher: MatchFunction)

  datatype RegExp = RegExp(source: string, flags: string)

  datatype StepPattern = StringPattern(text: string) | RegExpPattern(regexp: RegExp)

  /** The `regexp` option of a parameter type: `RegExp | string | RegExp[] | string[]`. */
  datatype ParameterTypeRegexp =
    | OneString(text: string) | OneRegExp(regexp: RegExp)
    | Strings(texts: seq<string>) | RegExps(regexps: seq<RegExp>)

  /** The arguments `new ParameterType(...)` receives, defaults applied. */
  datatype ParameterTypeArgs = ParameterTypeArgs(
    name: string, regexp: ParameterTypeRegexp, transformer: Option<SupportCodeFunction>,
    useForSnippets: bool, preferForRegexpMatch: bool)

  /** A parameter type held by the registry, with its normalised `regexpStrings`. */
  datatype RegisteredParameterType = RegisteredParameterType(args: ParameterTypeArgs, regexpStrings: seq<string>)

  /** The `ParameterTypeRegistry`, as the ordered list of types defined in it. */
  type ParameterTypeRegistry = seq<RegisteredParameterType>

  /** An error thrown by an external engine. */
  datatype Error = Error(message: string)

  /** How `new CucumberExpression(text, registry)` ends. */
  datatype CucumberCompilation =
    | Compiled(matcher: MatchFunction)
    | UndefinedParameterTypeError(undefinedParameterTypeName: string)
    | OtherError(error: Error)

  /** A compiled tag expression: `evaluate(tags)`. */
  datatype TagExpression = TagExpression(evaluate: seq<string> -> bool)

  /** The external engines the builder compiles with. */
  datatype ExpressionEngine = ExpressionEngine(
    // new ParameterType(...) followed by registry.defineParameterType(...): the
    // type's regexpStrings, or what either of them throws
    defineParameterType: (ParameterTypeRegistry, ParameterTypeArgs) -> Result<seq<string>, Error>,
    compileCucumberExpression: (string, ParameterTypeRegistry) -> CucumberCompilation,
    compileRegularExpression: (RegExp, ParameterTypeRegistry) -> Result<MatchFunction, Error>,
    // RegExp.prototype.toString as the step-definition message uses it
    regExpToString: RegExp -> string,
    // parse from @cucumber/tag-expressions
    parseTagExpression: string -> Result<TagExpression, Error>)

  // ----- registration options (src/types.ts) -----

  datatype NewParameterType = NewParameterType(
    name: string, regexp: ParameterTypeRegexp, transformer: Option<SupportCodeFunction>,
    useForSnippets: Option<bool>, preferForRegexpMatch: Option<bool>, sourceReference: SourceReference)

  datatype NewTestCaseHook = NewTestCaseHook(
    name: Option<string>, tags: Option<string>, fn: SupportCodeFunction, sourceReference: SourceReference)

  datatype NewStep = NewStep(pattern: StepPattern, fn: SupportCodeFunction, sourceReference: SourceReference)

  datatype NewTestRunHook = NewTestRunHook(name: Option<string>, fn: SupportCodeFunction, sourceReference: SourceReference)

  /** `{ id: string } & T` */
  datatype WithId<T> = WithId(id: Id, options: T)

  // ----- defined support code -----

  datatype StepExpression = StepExpression(raw: StepPattern, compiled: CompiledExpression)

  /** A step definition that compiled. `patternSource` is `pattern.toString()`,
      which its `toMessage` reports. */
  datatype DefinedStep = DefinedStep(
    id: Id, expression: StepExpression, fn: SupportCodeFunction, sourceReference: SourceReference,
    patternSource: string)

  datatype CompiledTags = CompiledTags(raw: string, compiled: TagExpression)

  /** A Before or After hook; `hookType` is the type its `toMessage` reports. */
  datatype DefinedTestCaseHook = DefinedTestCaseHook(
    id: Id, name: Option<string>, tags: Option<CompiledTags>, fn: SupportCodeFunction,
    sourceReference: SourceReference, hookType: HookType)

  datatype DefinedTestRunHook = DefinedTestRunHook(
    id: Id, name: Option<string>, fn: SupportCodeFunction, sourceReference: SourceReference, hookType: HookType)

  datatype MatchedStep = MatchedStep(def: DefinedStep, args: seq<Argument>)

  /** `definedStep.toMessage()` */
  function StepDefinitionToMessage(d: DefinedStep): (m: StepDefinitionMessage)
    ensures m.id == d.id && m.sourceReference == d.sourceReference && m.pattern.source == d.patternSource
    ensures m.pattern.patternType == CUCUMBER_EXPRESSION <==> d.expression.compiled.kind == CucumberExpressionKind
  {
    StepDefinitionMessage(
      d.id,
      StepDefinitionPattern(
        d.patternSource,
        if d.expression.compiled.kind == CucumberExpressionKind then CUCUMBER_EXPRESSION else REGULAR_EXPRESSION),
      d.sourceReference)
  }

  /** `definedHook.toMessage()` for a Before or After hook. */
  function TestCaseHookToMessage(h: DefinedTestCaseHook): (m: HookMessage)
    ensures m.id == h.id && m.hookType == h.hookType && m.name == h.name && m.sourceReference == h.sourceReference
    ensures m.tagExpression.Some? <==> h.tags.Some?
    ensures h.tags.Some? ==> m.tagExpression.value == h.tags.value.raw
  {
    HookMessage(h.id, h.hookType, h.name, if h.tags.Some? then Some(h.tags.value.raw) else None, h.sourceReference)
  }

  /** `definedHook.toMessage()` for a BeforeAll or AfterAll hook. */
  function TestRunHookToMessage(h: DefinedTestRunHook): (m: HookMessage)
    ensures m.id == h.id && m.hookType == h.hookType && m.name == h.name && m.sourceReference == h.sourceReference
    ensures m.tagExpression == None
  {
    HookMessage(h.id, h.hookType, h.name, None, h.sourceReference)
  }
}
