# Cucumber support code and test plans, in Dafny

This project models the orchestration core of Cucumber's JavaScript runner
library and proves properties of that model. The core has four parts:

- **The support-code builder** (`Builder` in `support_code_builder.dfy`).
  - Users register parameter types, steps and hooks with it.
  - Each registration draws an id from the `newId` counter and is appended to one of six lists.
  - `build()` defines the parameter types in the expression registry, then compiles the step patterns against that registry.
  - A string pattern that names an undefined parameter type is dropped and recorded in an insertion-ordered map. Any other error is thrown.
  - Tag expressions are compiled only for non-empty tag strings.
  - The result is sealed in a library.
- **The support-code library** (`support_code_library.dfy`): an immutable value.
  - It finds the step definitions that match a step text, and the before and after hooks that apply to a list of tags.
  - It serialises its contents as envelopes in a fixed order.
- **The test-plan assembler** (`make_test_plan.dfy`). Every pickle becomes a test case whose steps are:
  - the applicable before hooks, in library order;
  - one step per pickle step, each matched once against the library;
  - the applicable after hooks, in reverse order.

  Each step can be prepared for a `this` object, which binds its function and arguments or throws the undefined or ambiguous error. Each step also serialises as a test-step message. Ids are drawn from a counter in a fixed order.
- **Value helpers.**
  - The data-table views a step function receives (`data_table.dfy`).
  - The messages of the undefined-step and ambiguous-step errors (`errors.dfy`).

Shared modules:

- `wrappers.dfy`: Option and Result.
- `seqs.dfy`: `filter`, the filtering push loop, `toReversed`, `flat` and the first occurrences of a sequence (the order an insertion-ordered collection keeps), each with the lemma that characterises it.
- `strings.dfy`: number formatting, `join`/`split` on one character, and ECMAScript `trim`.
- `types.dfy`: the records of `src/types.ts` and the `@cucumber/messages` shapes.

The external engines are not modelled. They appear as function-valued fields of `Types.ExpressionEngine`:

- cucumber-expressions: defining a parameter type, compiling a Cucumber expression or a RegExp, and the text of a RegExp;
- tag-expressions: parsing a tag expression.

The `@cucumber/query` lookups (`TestPlan.Query`) and the naming strategy (`TestPlan.NamingStrategy`) appear the same way. Every property below holds for every behaviour of these oracles.

Ids are natural numbers drawn from a counter:

- `Builder.nextId` in the builder;
- in the test plan, a `next` parameter that each function returns advanced, in `Drawn(value, next)`.

## Model

| member | source | states |
|---|---|---|
| SupportCodeBuilder.Builder.constructor | src/SupportCodeBuilderImpl.ts:30-39 | A new builder has six empty registration lists, an empty registry and undefined-type map, and the counter at its first value; the id invariant holds. |
| SupportCodeBuilder.Builder.ParameterType | src/SupportCodeBuilderImpl.ts:41-47 | Appends exactly one record, carrying the id the counter held, to the parameter-type list; advances the counter by one; changes no other list (frame); returns the builder itself; keeps ids distinct across all lists and increasing within each. |
| SupportCodeBuilder.Builder.BeforeHook | src/SupportCodeBuilderImpl.ts:49-55 | The same for the before-hook list. |
| SupportCodeBuilder.Builder.AfterHook | src/SupportCodeBuilderImpl.ts:57-63 | The same for the after-hook list. |
| SupportCodeBuilder.Builder.Step | src/SupportCodeBuilderImpl.ts:65-71 | The same for the step list. |
| SupportCodeBuilder.Builder.BeforeAllHook | src/SupportCodeBuilderImpl.ts:73-79 | The same for the before-all-hook list. |
| SupportCodeBuilder.Builder.AfterAllHook | src/SupportCodeBuilderImpl.ts:81-87 | The same for the after-all-hook list. |
| SupportCodeBuilder.IdListsAppend | src/SupportCodeBuilderImpl.ts:42-44 | Giving the counter's current id to any one of the lists and advancing the counter keeps every list increasing, the lists pairwise disjoint, and all ids below the counter. |
| SupportCodeBuilder.ArgsOf | src/SupportCodeBuilderImpl.ts:91-98 | The parameter type is constructed from the registration's name, regexp and transformer; `useForSnippets` is true unless given as false, `preferForRegexpMatch` false unless given as true. |
| SupportCodeBuilder.DefineParameterTypes | src/SupportCodeBuilderImpl.ts:89-109 | The registry grows by at most one entry per registration; on success it grows by exactly one entry per registration, and there is one record per registration. |
| SupportCodeBuilder.DefineParameterTypesStops | src/SupportCodeBuilderImpl.ts:89-109 | Once a parameter type is rejected, the later registrations change nothing: the exception ends the `map`. |
| SupportCodeBuilder.DefineParameterTypesRegistry | src/SupportCodeBuilderImpl.ts:90-99 | The old registry is a prefix of the new one. Each new entry is the registration in order, defined against the registry holding the earlier ones. Definition succeeds iff every type is accepted; otherwise it fails with the error of the first rejected type. |
| SupportCodeBuilder.DefineParameterTypesValues | src/SupportCodeBuilderImpl.ts:100-107 | On success, record `i` is built from registration `i` and the regular-expression strings of its registry entry. |
| SupportCodeBuilder.DefinedParameterTypesFields | src/SupportCodeBuilderImpl.ts:89-109 | One record per registration in order, keeping id, name and source reference, with the two defaults applied and the normalised regular expressions. |
| SupportCodeBuilder.Builder.BuildParameterTypes | src/SupportCodeBuilderImpl.ts:89-109 | The loop returns what the specification function `DefineParameterTypes` returns and leaves its registry behind. |
| SupportCodeBuilder.AddExpression | src/SupportCodeBuilderImpl.ts:162 | `Set.add`: the set gains exactly the new expression, at the end and only if it was absent (the old set is a prefix, one longer at most), and stays duplicate-free. |
| SupportCodeBuilder.AddUndefined | src/SupportCodeBuilderImpl.ts:158-163 | A name already in the map keeps its place, and the map keeps its length. A new name is appended with just this expression. No existing name moves. |
| SupportCodeBuilder.AddUndefinedAtHead | src/SupportCodeBuilderImpl.ts:159-162 | When the first entry has the name, only its set changes. |
| SupportCodeBuilder.AddUndefinedEntries | src/SupportCodeBuilderImpl.ts:158-163 | On a well-formed map, exactly the entry for the name gains the expression; every other entry is unchanged. |
| SupportCodeBuilder.AddUndefinedPairs | src/SupportCodeBuilderImpl.ts:158-163 | The map afterwards holds exactly the old (name, expression) pairs plus the new one. |
| SupportCodeBuilder.AddUndefinedWellFormed | src/SupportCodeBuilderImpl.ts:158-163 | Recording keeps the map well formed: no name twice, no expression twice under a name, no empty set. |
| SupportCodeBuilder.UndefinedParameterTypesExactly | src/SupportCodeBuilderImpl.ts:170-176 | A record appears iff its (name, expression) pair is in the map, and on a well-formed map no record appears twice. |
| SupportCodeBuilder.BuildUndefinedParameterTypes | src/SupportCodeBuilderImpl.ts:170-176 | `buildUndefinedParameterTypes`: one record per (name, expression) pair the map holds; which records and in what order are stated by `UndefinedParameterTypesExactly` and `CompileStepsUndefinedOrder`. |
| SupportCodeBuilder.CompilePattern | src/SupportCodeBuilderImpl.ts:144-168 | Only a string pattern can end in an undefined parameter type; a compiled pattern is a Cucumber expression iff the pattern was a string. |
| SupportCodeBuilder.Builder.CompileCucumberExpression | src/SupportCodeBuilderImpl.ts:153-168 | Returns the compiled expression, `undefined` after recording the undefined type against the text, or the rethrown error, as `CompilePattern` says, and changes the map only by that record. |
| SupportCodeBuilder.Builder.CompileExpression | src/SupportCodeBuilderImpl.ts:144-151 | The same for any pattern; a RegExp is compiled directly and never recorded. |
| SupportCodeBuilder.PatternSource | src/SupportCodeBuilderImpl.ts:134 | `pattern.toString()`: a string pattern is its own source; a RegExp pattern gives the engine's text of that RegExp. |
| Types.StepDefinitionToMessage | src/SupportCodeBuilderImpl.ts:126-138 | A step-definition message carries the definition's id, source reference and pattern text, and reports a Cucumber expression iff the pattern was compiled as one. |
| SupportCodeBuilder.DefineStep | src/SupportCodeBuilderImpl.ts:118-139 | A compiled step keeps its id, function, source reference and raw pattern; a string pattern's message source is the string itself. |
| SupportCodeBuilder.CompileStepsStops | src/SupportCodeBuilderImpl.ts:111-142 | After the first thrown compile error, the later steps change nothing. |
| SupportCodeBuilder.CompileSteps | src/SupportCodeBuilderImpl.ts:111-142 | `buildSteps`: on success no more steps than registrations; the map gains at most one name per registration and loses none. Which steps and which error are stated by `CompileStepsOutcome`. |
| SupportCodeBuilder.CompileStepsOutcome | src/SupportCodeBuilderImpl.ts:111-142 | Building steps succeeds iff no pattern fails fatally. It then yields exactly the steps that compiled, in registration order. Otherwise it throws the error of the first fatal pattern. |
| SupportCodeBuilder.CompileStepsWellFormed | src/SupportCodeBuilderImpl.ts:153-168 | Compiling steps keeps the undefined-parameter-type map well formed. |
| SupportCodeBuilder.CompileStepsUndefined | src/SupportCodeBuilderImpl.ts:153-168 | After a successful build of the steps, the map holds exactly the old pairs plus one (name, text) pair for every string pattern that named an undefined parameter type. |
| SupportCodeBuilder.CompileStepsUndefinedOrder | src/SupportCodeBuilderImpl.ts:153-176 | From the empty map, the names are the undefined names of the string patterns in step order, each at its first occurrence; under each name the patterns that named it are listed the same way. This is the insertion order the `Map` and its `Set`s keep. |
| SupportCodeBuilder.Builder.BuildSteps | src/SupportCodeBuilderImpl.ts:111-142 | The loop returns what the specification function `CompileSteps` returns and leaves its map behind. |
| SupportCodeBuilder.CompileTags | src/SupportCodeBuilderImpl.ts:183-188 | A hook gets compiled tags iff its tag string is present and non-empty, carrying the raw string; parsing can fail only for such a string. |
| SupportCodeBuilder.BuildTestCaseHooks | src/SupportCodeBuilderImpl.ts:178-228 | `buildBeforeHooks` / `buildAfterHooks`: on success one hook per registration, hook `i` with registration `i`'s id and the list's hook type. Success, failure and each hook's fields are stated by `BuildTestCaseHooksOutcome`. |
| Types.TestCaseHookToMessage | src/SupportCodeBuilderImpl.ts:191-199 | A before or after hook's message carries its id, hook type, name and source reference, and a tag expression iff the hook has compiled tags, namely their raw string. |
| SupportCodeBuilder.BuildTestCaseHooksOutcome | src/SupportCodeBuilderImpl.ts:178-228 | Building hooks succeeds iff every tag string parses; it yields one hook per registration in order; otherwise it throws the error of the first string that fails to parse. |
| SupportCodeBuilder.BuiltTestCaseHookMessages | src/SupportCodeBuilderImpl.ts:191-199 | A hook's message carries its id, name, source reference and the type of its list, and carries the tag string iff that string is non-empty. |
| SupportCodeBuilder.BuildTestRunHooks | src/SupportCodeBuilderImpl.ts:230-266 | One run hook per registration, in order, whose message has the list's hook type and no tag expression. |
| Types.TestRunHookToMessage | src/SupportCodeBuilderImpl.ts:237-244 | A before-all or after-all hook's message carries its id, hook type, name and source reference, and no tag expression. |
| SupportCodeBuilder.BuildSucceeds | src/SupportCodeBuilderImpl.ts:268-278 | `build` succeeds iff every parameter type is accepted, no step fails fatally against the full registry, and every non-empty tag string parses. Undefined parameter types never make it throw. |
| SupportCodeBuilder.BuildOrder | src/SupportCodeBuilderImpl.ts:268-278 | A built library's steps are compiled against the registry extended with every parameter type, in order. Its undefined types are read from the map after every step is compiled: one record per distinct pair some string pattern produced. |
| SupportCodeBuilder.BuildLibrary | src/SupportCodeBuilderImpl.ts:268-278 | `build()`: a built library has one parameter type and one before or after hook per registration, and no more steps than registrations. When it succeeds is stated by `BuildSucceeds`, its contents by `BuildOrder`. |
| SupportCodeBuilder.Builder.Build | src/SupportCodeBuilderImpl.ts:268-278 | The method returns what the specification function `BuildLibrary` returns, leaves its registry and map behind, and keeps the builder invariant. |
| SupportCodeLibrary.FindAllStepsBy | src/SupportCodeLibraryImpl.ts:22-34 | The loop returns the specification `StepMatches` of the library's steps. |
| SupportCodeLibrary.StepMatches | src/SupportCodeLibraryImpl.ts:22-34 | No more matches than definitions; each match is one of the definitions, with the arguments its matcher returned for the text. Completeness and order are stated by `StepMatchesExactly`. |
| SupportCodeLibrary.StepMatchesExactly | src/SupportCodeLibraryImpl.ts:22-34 | The matches are exactly the definitions whose matcher returns arguments, in definition order, each with those arguments. There are no more matches than definitions. |
| Seqs.FilterMapExactly | src/SupportCodeLibraryImpl.ts:23-33 | A loop that pushes only defined results keeps exactly those, at increasing source positions. |
| Seqs.FilterExactly | src/SupportCodeLibraryImpl.ts:37-42 | `filter` keeps exactly the elements satisfying the predicate, in order. |
| SupportCodeLibrary.ApplicableHooks | src/SupportCodeLibraryImpl.ts:37-42 | No more hooks than given, each one untagged or with a predicate that holds. |
| SupportCodeLibrary.ApplicableHooksInOrder | src/SupportCodeLibraryImpl.ts:36-52 | The result is the order-preserving subsequence of exactly the applicable hooks. |
| SupportCodeLibrary.ApplicableHooksMembership | src/SupportCodeLibraryImpl.ts:36-52 | A hook of the list is returned iff it applies. |
| SupportCodeLibrary.FindAllBeforeHooksBy | src/SupportCodeLibraryImpl.ts:36-43 | At most the before hooks, each of them applicable. |
| SupportCodeLibrary.FindAllAfterHooksBy | src/SupportCodeLibraryImpl.ts:45-52 | At most the after hooks, each of them applicable, in definition order. |
| SupportCodeLibrary.FoundHooksComplete | src/SupportCodeLibraryImpl.ts:36-52 | A before or after hook is found iff it applies to the tags. |
| SupportCodeLibrary.UntaggedHooksAlwaysApply | src/SupportCodeLibraryImpl.ts:38-41 | An untagged hook is returned for every tag list, the empty one included; with no tagged hook, all hooks are returned in order. |
| SupportCodeLibrary.ToEnvelopes | src/SupportCodeLibraryImpl.ts:54-64 | The envelopes number the sum of the five list lengths. They run parameter types, step definitions, undefined types, before hooks, after hooks, each block in its list's order. |
| SupportCodeLibrary.StepEnvelopeType | src/SupportCodeLibraryImpl.ts:57-59 | A step-definition envelope reports a Cucumber expression iff the definition was compiled as one. |
| TestPlan.TagNames | src/makeTestPlan.ts:94 | The hooks are looked up by the pickle's tag names, in order. |
| TestPlan.HookSteps | src/makeTestPlan.ts:94-119 | One step per hook, in the given order, with consecutive ids from the counter. Each step is named by the prefix and the hook's name or "", references the pickle's uri and location, and carries the given `always`. |
| TestPlan.FromBeforeHooks | src/makeTestPlan.ts:88-120 | The applicable before hooks, in library order, named "Before", with `always` false and consecutive ids. |
| Seqs.Reverse | src/makeTestPlan.ts:130 | `toReversed`: position `k` holds the element `k` places from the end. |
| TestPlan.FromAfterHooks | src/makeTestPlan.ts:122-157 | The applicable after hooks in reverse library order, named "After", with `always` true and consecutive ids. |
| Strings.TrimIsSlice | src/makeTestPlan.ts:171 | The trimmed keyword is a slice of the keyword with only whitespace cut from either side. |
| Strings.TrimEnds | src/makeTestPlan.ts:171 | A non-empty trimmed keyword neither starts nor ends with whitespace. |
| TestPlan.PickleSteps | src/makeTestPlan.ts:165-178 | One step per pickle step, in order, with consecutive ids. Each is named by the trimmed Gherkin keyword and the step text, references the Gherkin step's location, has `always` false, and carries the matches found once for its text. |
| TestPlan.StepOfPickleStep | src/makeTestPlan.ts:166-178 | The step for one pickle step has the given id and `always` false, is named by the trimmed Gherkin keyword and the step text, references the uri and the Gherkin step's location, and carries the pickle step with matches drawn from the library. |
| TestPlan.FromPickleSteps | src/makeTestPlan.ts:159-227 | One step per pickle step, in order, with consecutive ids, `always` false, and each step's matches. |
| TestPlan.TableOf | src/makeTestPlan.ts:193-197 | The data table has one row per pickle row and one cell value per pickle cell, in place. |
| TestPlan.StepArguments | src/makeTestPlan.ts:188-201 | The call arguments are the expression values, then a data table if the step has one, otherwise its doc string content if it has one; the table wins over the doc string. |
| TestPlan.MatchReferences | src/makeTestPlan.ts:185 | The ambiguous error names every match's source reference, in match order. |
| TestPlan.Prepare | src/makeTestPlan.ts:179-207 | A hook step prepares to its bound function with no arguments. A pickle step throws the undefined error iff it has no match, and the ambiguous error iff it has several. With exactly one match it binds that definition's function to its arguments. |
| TestPlan.AmbiguousPrepareAsWritten | src/makeTestPlan.ts:182-186 | As written, `prepare` departs from `Prepare` exactly on pickle steps with several matches, where it throws a TypeError instead of the ambiguous error. |
| TestPlan.PrepareAsWritten | src/makeTestPlan.ts:179-207 | `prepare` as written fails with a TypeError iff the step is a pickle step with several matches; in every other case it ends as `Prepare` says. |
| AmbiguousError.ConstructAsWritten | src/AmbiguousError.ts:11-13 | Handed a string, the constructor throws a TypeError; handed an ambiguous step, it builds the message. |
| TestPlan.MapArgumentGroup | src/makeTestPlan.ts:229-235 | The message group keeps the expression group's start, value and number of children. |
| TestPlan.MapArgumentGroupOnto | src/makeTestPlan.ts:229-235 | Every message group is the image of an expression group, so mapping loses no start, value or child. |
| TestPlan.MapArgumentGroupInverse | src/makeTestPlan.ts:229-235 | A group without end positions is recovered from its message form, so mapping forgets only `end`. |
| TestPlan.ArgumentsList | src/makeTestPlan.ts:213-222 | One message argument per match argument, in order, each with its mapped group and parameter-type name. |
| TestPlan.StepToMessage | src/makeTestPlan.ts:208-224 | A hook step's message is its id and its hook's id. A pickle step's message lists every match's definition id and arguments, one entry per match in match order. |
| TestPlan.PrepareAgreesWithMessage | src/makeTestPlan.ts:167 | Because one match list serves both, a pickle step's message has no definition id iff `prepare` throws the undefined error, several iff it throws the ambiguous error, and one iff it prepares that definition. |
| TestPlan.TestCaseToMessage | src/makeTestPlan.ts:65-72 | A test-case message carries the case's id, pickle id and test-run id, and its steps' messages in step order. |
| TestPlan.CaseSteps | src/makeTestPlan.ts:60-64 | A case has as many steps as applicable before hooks, pickle steps and applicable after hooks together, with consecutive ids. |
| TestPlan.BeforeHookStepsFirst | src/makeTestPlan.ts:61 | The case's first steps are the applicable before hooks, in library order, with `always` false. |
| TestPlan.PickleStepsNext | src/makeTestPlan.ts:62 | Then come the pickle's steps, each with its matches and `always` false. |
| TestPlan.AfterHookStepsLast | src/makeTestPlan.ts:63 | The case's last steps are the applicable after hooks in reverse library order, with `always` true. |
| TestPlan.MakeTestCase | src/makeTestPlan.ts:50-74 | A test case takes its id before its steps take theirs, in step order. It has the pickle's id and the test-run id, and one step per hook and pickle step. |
| TestPlan.TestCaseLayout | src/makeTestPlan.ts:60-64 | The case's steps are the before hooks in library order, then the pickle steps, then the after hooks reversed. A step always runs iff it is an after-hook step. |
| TestPlan.TestCases | src/makeTestPlan.ts:50-74 | One test case per pickle, in pickle order, each assembled from the counter's value at that point; the plan's ids are drawn as one unbroken run. |
| TestPlan.PlanName | src/makeTestPlan.ts:49 | The plan is named after the feature if that name is non-empty, otherwise after the document's uri. |
| TestPlan.MakeTestPlan | src/makeTestPlan.ts:34-79 | The plan has the document's name and one test case per pickle in order, each with that pickle's id. Its ids run consecutively from the counter's value. |
| TestPlan.PlanIdsUnique | src/makeTestPlan.ts:54 | No two test cases or steps of a plan share an id, and every id lies between the counter's first and final values. |
| TestPlan.PlanEnvelopes | src/makeTestPlan.ts:75-77 | One test-case envelope per test case, in order, each holding that case's message. |
| TestPlan.PlanEnvelopesPerPickle | src/makeTestPlan.ts:75-77 | Envelope `i` holds the message of pickle `i`'s test case: its pickle id, case id and test-run id, and one step message per step. |
| DataTable.Raw | src/DataTable.ts:25-27 | `raw()` is the cells, row by row. |
| DataTable.Rows | src/DataTable.ts:44-46 | `rows()` is every row but the first, and empty on an empty table. |
| DataTable.RowRecordKeys | src/DataTable.ts:70-77 | A record holds exactly the keys its row's columns name; a column past the header names "undefined". |
| DataTable.RowRecordValue | src/DataTable.ts:70-77 | A key maps to the last column that names it, so with a repeated header the later column wins. |
| DataTable.Hashes | src/DataTable.ts:68-78 | One record per row below the header, each built from the header and that row. |
| DataTable.HashesLookup | src/DataTable.ts:68-78 | With distinct header keys and full rows, record `i` maps `header[j]` to `cells[i+1][j]` and has no other key. |
| DataTable.RowsHash | src/DataTable.ts:98-110 | `rowsHash()` fails with "All rows must have exactly 2 columns" iff some row does not have two cells. |
| DataTable.RowsHashLookup | src/DataTable.ts:103-109 | Otherwise the record's keys are exactly the first-column values, and each maps to the second column of the last row naming it. |
| DataTable.PairsRecordKeys | src/DataTable.ts:103-109 | The folded record's keys are exactly the rows' first cells. |
| DataTable.PairsRecordValue | src/DataTable.ts:103-109 | A key holds the second cell of the last row naming it. |
| DataTable.List | src/DataTable.ts:130-136 | `list()` fails with "All rows must have exactly 1 column" iff some row does not have one cell; otherwise it is the column, top to bottom, one value per row. |
| Seqs.FlattenSingletons | src/DataTable.ts:135 | `flat()` of one-element rows is the column of their elements. |
| DataTable.Transpose | src/DataTable.ts:151-153 | An empty table has no transpose (it throws); otherwise row `i` of the result is column `i`, with `result[i][j] == cells[j][i]`. |
| DataTable.TransposeTwice | src/DataTable.ts:151-153 | Transposing a non-empty rectangular table twice gives it back. |
| UndefinedError.Message | src/UndefinedError.ts:7 | The message is the fixed prefix, the step text and a closing double quote, so its length is the text's plus a constant. |
| UndefinedError.TextOfMessage | src/UndefinedError.ts:7 | The step text can be read back from the message. |
| UndefinedError.MessageInjective | src/UndefinedError.ts:7 | Distinct step texts give distinct messages. |
| AmbiguousError.Message | src/AmbiguousError.ts:12-21 | Whatever the matches, the message begins with the header naming the step text, followed by a newline. |
| AmbiguousError.ReferenceLines | src/AmbiguousError.ts:15-19 | One line per match. |
| AmbiguousError.MessageLines | src/AmbiguousError.ts:12-21 | After the header, the message splits at newlines into exactly the per-match lines, in match order, when no uri holds a newline. |
| AmbiguousError.ReferenceLineHasNoNewline | src/AmbiguousError.ts:18 | A match line has no newline of its own when its uri has none. |
| AmbiguousError.LineNumbering | src/AmbiguousError.ts:16-19 | Line `i` starts with the decimal form of `i + 1` and ") ", and that number reads back as `i + 1`. |
| AmbiguousError.MissingLocationLine | src/AmbiguousError.ts:18 | A reference without a location prints "?" for both its line and its column. |
| Strings.ParseNatToString | src/AmbiguousError.ts:18 | The decimal form of a number reads back as that number. |
| Strings.SplitJoin | src/AmbiguousError.ts:20 | Splitting undoes `join` when no piece contains the separator. |

## Left out

- Ids are natural numbers drawn from a counter. The source uses a generator of strings, by default `IdGenerator.uuid()`. Distinctness and drawing order are what the model states.
- The default `newId` and naming strategy of `makeTestPlan` belong to other libraries, so the model takes both as parameters. `buildSupportCode.ts`, the one-line factory, is not part of this model.
- `populateQuery` and the `@cucumber/query` lookups are replaced by the `Query` parameter, and the naming strategy by a function parameter. The model does not describe what they compute.
- Binding (`fn.bind(thisArg)`) is a record of the function and the `this` object. Invoking user functions, asynchronous results and `getValue` transformers are not modelled.
- The cucumber-expressions and tag-expressions engines are oracles (`Types.ExpressionEngine`), as is the text `RegExp.prototype.toString` gives a RegExp pattern. Expression syntax and tag-expression grammar are not modelled.
- SupportCodeBuilder.Builder.BuildParameterTypes: the registry holds only the parameter types defined through the builder, not the engine's built-in ones; the oracle may know those.
- Repeated `build()` calls would define the parameter types in the registry again; the model states one build from the state the builder is in.
- `structuredClone` in `raw()` is the identity on values. The key order of the JavaScript objects `hashes()` and `rowsHash()` return is not modelled, because a Dafny map has none.
- DataTable.Transpose: requires every row to be at least as long as the first. A shorter row gives `undefined` cells in JavaScript, and the model has no such value.
- AmbiguousError.Message: an absent uri prints as "undefined". Lines, columns and match numbers are taken as `nat` and printed as decimal digits; JavaScript's number-to-string switches to exponent notation from 1e21 on, so the two differ only there.
- `getAllSources`, `getAllBeforeAllHooks`, `getAllAfterAllHooks` and `getExpressionGenerator` are declared in `src/types.ts` but not implemented by the library. The library constructor takes five lists, so the BeforeAll and AfterAll hooks `build()` also passes are built and then dropped.
- The library envelope order follows `src/SupportCodeLibraryImpl.ts:54-64` (by category). The test in `src/buildSupportCode.spec.ts:435-483` expects registration order instead.
- SupportCodeBuilder.Builder.ParameterType, BeforeHook, AfterHook, Step, BeforeAllHook, AfterAllHook: these do not state outright that the new id is fresh. Freshness follows from the invariant they keep (`Valid`), under which every id held is below the counter.
- SupportCodeLibrary.FindAllBeforeHooksBy and FindAllAfterHooksBy: their own contracts state only the bound and that each returned hook applies. Order and completeness are stated by `ApplicableHooksInOrder` and `FoundHooksComplete`.
- TestPlan.Prepare: the argument list of `prepare`, which the source builds by `map` and then at most one `push`, is modelled as one function value rather than a sequence of updates.
- Gherkin parsing, file reading and the test harness are outside the core.

## Findings

| source | as written | input that shows it | evidently intended | confidence | as-written member | corrected member |
|---|---|---|---|---|---|---|
| src/makeTestPlan.ts:183-186 | `prepare` calls `new AmbiguousError(pickleStep.text, references)`, but the constructor at src/AmbiguousError.ts:11-13 takes one `AmbiguousStep` and reads `step.pickleStep.text` | any pickle step that two step definitions match: the string has no `pickleStep`, so reading `.text` from `undefined` throws a TypeError | throw the ambiguous error naming the step text and every match's source reference, as the test at src/makeTestPlan.spec.ts:157 expects | high; not executed | TestPlan.AmbiguousPrepareAsWritten | TestPlan.Prepare |
