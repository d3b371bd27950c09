/** The support-code builder (src/SupportCodeBuilderImpl.ts): registrations
    accumulate in six lists, each tagged with an id drawn from `newId`; `build`
    then defines the parameter types, compiles the step patterns against them,
    compiles the hook tag expressions and seals the result in a library. */
module SupportCodeBuilder {
  import opened Wrappers
  import opened Seqs
  import opened Types
  import opened SupportCodeLibrary

  // ----- parameter types -----

  /** The arguments handed to `new ParameterType(...)`: `useForSnippets`
      defaults to true and `preferForRegexpMatch` to false. */
  function ArgsOf(o: NewParameterType): (a: ParameterTypeArgs)
    ensures a.name == o.name && a.regexp == o.regexp && a.transformer == o.transformer
    ensures a.useForSnippets <==> o.useForSnippets != Some(false)
    ensures a.preferForRegexpMatch <==> o.preferForRegexpMatch == Some(true)
  {
    ParameterTypeArgs(o.name, o.regexp, o.transformer, o.useForSnippets.GetOr(true), o.preferForRegexpMatch.GetOr(false))
  }

  /** The record `buildParameterTypes` returns for one registration. */
  function DefinedParameterTypeOf(p: WithId<NewParameterType>, regexpStrings: seq<string>): DefinedParameterType {
    var args := ArgsOf(p.options);
    DefinedParameterType(
      p.id, p.options.name, regexpStrings, args.preferForRegexpMatch, args.useForSnippets, p.options.sourceReference)
  }

  /** What `buildParameterTypes` returns or throws, and the registry it leaves behind. */
  datatype ParameterTypesOutcome = ParameterTypesOutcome(
    result: Result<seq<DefinedParameterType>, Error>, registry: ParameterTypeRegistry)

  /** Defines the registered parameter types one after another in `registry`,
      stopping at the first one the engine rejects. */
  function DefineParameterTypes(engine: ExpressionEngine, registry: ParameterTypeRegistry,
                                pts: seq<WithId<NewParameterType>>): (o: ParameterTypesOutcome)
    ensures |registry| <= |o.registry| <= |registry| + |pts|
    ensures o.result.Success? ==> |o.registry| == |registry| + |pts| && |o.result.value| == |pts|
  {
    if |pts| == 0 then ParameterTypesOutcome(Success([]), registry)
    else
      var prev := DefineParameterTypes(engine, registry, pts[..|pts| - 1]);
      if prev.result.Failure? then prev
      else
        var p := pts[|pts| - 1];
        match engine.defineParameterType(prev.registry, ArgsOf(p.options))
        case Failure(e) => ParameterTypesOutcome(Failure(e), prev.registry)
        case Success(strs) =>
          ParameterTypesOutcome(
            Success(prev.result.value + [DefinedParameterTypeOf(p, strs)]),
            prev.registry + [RegisteredParameterType(ArgsOf(p.options), strs)])
  }

  lemma {:induction false} DefineParameterTypesStops(
    engine: ExpressionEngine, registry: ParameterTypeRegistry, pts: seq<WithId<NewParameterType>>, k: nat)
    requires k <= |pts|
    requires DefineParameterTypes(engine, registry, pts[..k]).result.Failure?
    ensures DefineParameterTypes(engine, registry, pts) == DefineParameterTypes(engine, registry, pts[..k])
  {
    if k < |pts| {
      assert pts[..|pts| - 1][..k] == pts[..k];
      DefineParameterTypesStops(engine, registry, pts[..|pts| - 1], k);
    } else {
      assert pts[..k] == pts;
    }
  }

  /** The registry grows by one entry per parameter type defined, in
      registration order, each defined against the registry holding the
      earlier ones; definition succeeds exactly when every type is accepted,
      and otherwise stops with the error of the first type rejected. */
  lemma {:induction false} DefineParameterTypesRegistry(
    engine: ExpressionEngine, registry: ParameterTypeRegistry, pts: seq<WithId<NewParameterType>>)
    ensures var o := DefineParameterTypes(engine, registry, pts); var n := |o.registry| - |registry|;
      && |registry| <= |o.registry| && o.registry[..|registry|] == registry
      && 0 <= n <= |pts|
      && (o.result.Success? <==> n == |pts|)
      && (forall i :: 0 <= i < n ==>
            && o.registry[|registry| + i].args == ArgsOf(pts[i].options)
            && engine.defineParameterType(o.registry[..|registry| + i], ArgsOf(pts[i].options))
               == Success(o.registry[|registry| + i].regexpStrings))
      && (o.result.Failure? ==> engine.defineParameterType(o.registry, ArgsOf(pts[n].options)) == Failure(o.result.error))
  {
    if |pts| > 0 {
      var pre := pts[..|pts| - 1];
      DefineParameterTypesRegistry(engine, registry, pre);
      var prev := DefineParameterTypes(engine, registry, pre);
      var o := DefineParameterTypes(engine, registry, pts);
      assert forall i :: 0 <= i < |pre| ==> pre[i] == pts[i];
      if prev.result.Success? {
        var strs := engine.defineParameterType(prev.registry, ArgsOf(pts[|pts| - 1].options));
        if strs.Success? {
          assert o.registry == prev.registry + [RegisteredParameterType(ArgsOf(pts[|pts| - 1].options), strs.value)];
          assert o.registry[..|registry| + |pre|] == prev.registry;
          forall i | 0 <= i < |pre|
            ensures engine.defineParameterType(o.registry[..|registry| + i], ArgsOf(pts[i].options))
                 == Success(o.registry[|registry| + i].regexpStrings)
          {
            assert o.registry[..|registry| + i] == prev.registry[..|registry| + i];
            assert o.registry[|registry| + i] == prev.registry[|registry| + i];
          }
        }
      }
    }
  }

  /** On success, the defined types are the registrations in order, each
      with the regular expressions its registry entry records. */
  lemma {:induction false} DefineParameterTypesValues(
    engine: ExpressionEngine, registry: ParameterTypeRegistry, pts: seq<WithId<NewParameterType>>)
    ensures var o := DefineParameterTypes(engine, registry, pts);
      o.result.Success? ==>
        forall i :: 0 <= i < |pts| ==>
          o.result.value[i] == DefinedParameterTypeOf(pts[i], o.registry[|registry| + i].regexpStrings)
  {
    var o := DefineParameterTypes(engine, registry, pts);
    if |pts| > 0 && o.result.Success? {
      var pre := pts[..|pts| - 1];
      DefineParameterTypesValues(engine, registry, pre);
      var prev := DefineParameterTypes(engine, registry, pre);
      assert prev.result.Success?;
      forall i | 0 <= i < |pre|
        ensures o.result.value[i] == DefinedParameterTypeOf(pts[i], o.registry[|registry| + i].regexpStrings)
      {
        assert pre[i] == pts[i];
        assert o.result.value[i] == prev.result.value[i];
        assert o.registry[|registry| + i] == prev.registry[|registry| + i];
      }
    }
  }

  /** `buildParameterTypes` keeps one record per registration, in order, with
      its id, name and source reference, the defaults applied, and the
      regular expressions the engine normalised. */
  lemma DefinedParameterTypesFields(
    engine: ExpressionEngine, registry: ParameterTypeRegistry, pts: seq<WithId<NewParameterType>>, i: nat)
    requires DefineParameterTypes(engine, registry, pts).result.Success?
    requires i < |pts|
    ensures var o := DefineParameterTypes(engine, registry, pts);
      && |o.result.value| == |pts|
      && var d := o.result.value[i];
      && d.id == pts[i].id && d.name == pts[i].options.name && d.sourceReference == pts[i].options.sourceReference
      && (d.useForSnippets <==> pts[i].options.useForSnippets != Some(false))
      && (d.preferForRegularExpressionMatch <==> pts[i].options.preferForRegexpMatch == Some(true))
      && d.regularExpressions == o.registry[|registry| + i].regexpStrings
  {
    DefineParameterTypesRegistry(engine, registry, pts);
    DefineParameterTypesValues(engine, registry, pts);
  }

  // ----- undefined parameter types -----

  /** One entry of the `Map<name, Set<expression>>`, expressions in insertion order. */
  datatype UndefinedEntry = UndefinedEntry(name: string, expressions: seq<string>)

  /** What a JavaScript `Map` of `Set`s guarantees: no name twice, no
      expression twice under a name, and no empty set (one is created only to
      receive an expression). */
  predicate WellFormed(entries: seq<UndefinedEntry>) {
    && (forall i, j :: 0 <= i < j < |entries| ==> entries[i].name != entries[j].name)
    && (forall i :: 0 <= i < |entries| ==> |entries[i].expressions| > 0 && Distinct(entries[i].expressions))
  }

  predicate HasName(entries: seq<UndefinedEntry>, name: string) {
    exists i :: 0 <= i < |entries| && entries[i].name == name
  }

  predicate HasPair(entries: seq<UndefinedEntry>, name: string, expression: string) {
    exists i :: 0 <= i < |entries| && entries[i].name == name && expression in entries[i].expressions
  }

  /** `set.add(x)` on a set held in insertion order. */
  function AddExpression(xs: seq<string>, x: string): (r: seq<string>)
    ensures Distinct(xs) ==> Distinct(r)
    ensures forall y :: y in r <==> y in xs || y == x
    ensures xs <= r && |r| <= |xs| + 1
  {
    if x in xs then xs else xs + [x]
  }

  /** Records that `expression` failed on the undefined parameter type `name`:
      a name already present keeps its place and gains the expression unless
      it has it; a new name is appended with just this expression. */
  function AddUndefined(entries: seq<UndefinedEntry>, name: string, expression: string): (r: seq<UndefinedEntry>)
    ensures HasName(entries, name) ==> |r| == |entries|
    ensures !HasName(entries, name) ==> r == entries + [UndefinedEntry(name, [expression])]
    ensures forall i :: 0 <= i < |entries| ==> r[i].name == entries[i].name
  {
    if |entries| == 0 then [UndefinedEntry(name, [expression])]
    else if entries[0].name == name then
      [UndefinedEntry(name, AddExpression(entries[0].expressions, expression))] + entries[1..]
    else
      var rest := AddUndefined(entries[1..], name, expression);
      assert HasName(entries[1..], name) ==> HasName(entries, name);
      assert HasName(entries, name) ==> HasName(entries[1..], name) by {
        if HasName(entries, name) {
          var i :| 0 <= i < |entries| && entries[i].name == name;
          assert entries[1..][i - 1].name == name;
        }
      }
      [entries[0]] + rest
  }

  /** When the first entry has the name, only it changes. */
  lemma AddUndefinedAtHead(entries: seq<UndefinedEntry>, name: string, expression: string)
    requires |entries| > 0 && entries[0].name == name
    requires forall i :: 1 <= i < |entries| ==> entries[i].name != name
    ensures var r := AddUndefined(entries, name, expression);
      && |r| == |entries|
      && r[0].expressions == AddExpression(entries[0].expressions, expression)
      && forall i :: 1 <= i < |entries| ==> r[i] == entries[i]
  {
  }

  lemma WellFormedTail(entries: seq<UndefinedEntry>)
    requires |entries| > 0 && WellFormed(entries)
    ensures WellFormed(entries[1..])
  {
    var tail := entries[1..];
    forall i | 0 <= i < |tail| ensures tail[i] == entries[i + 1] {
    }
  }

  /** With distinct names, exactly the entry for `name` changes, by `AddExpression`. */
  lemma {:induction false} AddUndefinedEntries(entries: seq<UndefinedEntry>, name: string, expression: string)
    requires WellFormed(entries)
    ensures var r := AddUndefined(entries, name, expression);
      forall i :: 0 <= i < |entries| ==>
        r[i].expressions == if entries[i].name == name then AddExpression(entries[i].expressions, expression)
                            else entries[i].expressions
  {
    if |entries| > 0 {
      if entries[0].name == name {
        forall i | 1 <= i < |entries| ensures entries[i].name != name {
          assert entries[0].name != entries[i].name;
        }
        AddUndefinedAtHead(entries, name, expression);
      } else {
        var tail := entries[1..];
        WellFormedTail(entries);
        AddUndefinedEntries(tail, name, expression);
        var r, rt := AddUndefined(entries, name, expression), AddUndefined(tail, name, expression);
        assert r == [entries[0]] + rt;
        forall i | 1 <= i < |entries|
          ensures r[i].expressions == if entries[i].name == name then AddExpression(entries[i].expressions, expression)
                                      else entries[i].expressions
        {
          assert r[i] == rt[i - 1] && tail[i - 1] == entries[i];
        }
      }
    }
  }

  lemma HasPairCons(e: UndefinedEntry, tail: seq<UndefinedEntry>, n: string, x: string)
    ensures HasPair([e] + tail, n, x) <==> (e.name == n && x in e.expressions) || HasPair(tail, n, x)
  {
    var entries := [e] + tail;
    if HasPair(entries, n, x) {
      var i :| 0 <= i < |entries| && entries[i].name == n && x in entries[i].expressions;
      if i > 0 { assert tail[i - 1] == entries[i]; }
    }
    if HasPair(tail, n, x) {
      var i :| 0 <= i < |tail| && tail[i].name == n && x in tail[i].expressions;
      assert entries[i + 1] == tail[i];
    }
    assert entries[0] == e;
  }

  /** The map holds exactly the old pairs plus the new one. */
  lemma {:induction false} AddUndefinedPairs(entries: seq<UndefinedEntry>, name: string, expression: string,
                                             n: string, x: string)
    ensures HasPair(AddUndefined(entries, name, expression), n, x)
      <==> HasPair(entries, n, x) || (n == name && x == expression)
  {
    var r := AddUndefined(entries, name, expression);
    if |entries| == 0 {
      HasPairCons(UndefinedEntry(name, [expression]), [], n, x);
    } else {
      var tail := entries[1..];
      assert entries == [entries[0]] + tail;
      HasPairCons(entries[0], tail, n, x);
      if entries[0].name == name {
        HasPairCons(r[0], tail, n, x);
      } else {
        AddUndefinedPairs(tail, name, expression, n, x);
        HasPairCons(entries[0], AddUndefined(tail, name, expression), n, x);
      }
    }
  }

  /** Adding keeps the map well formed. */
  lemma AddUndefinedWellFormed(entries: seq<UndefinedEntry>, name: string, expression: string)
    requires WellFormed(entries)
    ensures WellFormed(AddUndefined(entries, name, expression))
  {
    AddUndefinedEntries(entries, name, expression);
    var r := AddUndefined(entries, name, expression);
    if !HasName(entries, name) {
      assert forall i :: 0 <= i < |entries| ==> entries[i].name != name;
      assert r[|entries|] == UndefinedEntry(name, [expression]);
    }
    forall i | 0 <= i < |r| ensures |r[i].expressions| > 0 && Distinct(r[i].expressions) {
      if i < |entries| && entries[i].name == name {
        assert expression in r[i].expressions;
      }
    }
  }

  /** The records of one entry, in the set's order. */
  function EntryTypes(e: UndefinedEntry): seq<UndefinedParameterType> {
    seq(|e.expressions|, j requires 0 <= j < |e.expressions| => UndefinedParameterType(e.name, e.expressions[j]))
  }

  /** How many (name, expression) pairs the map holds. */
  function PairCount(entries: seq<UndefinedEntry>): nat {
    if |entries| == 0 then 0 else PairCount(entries[..|entries| - 1]) + |entries[|entries| - 1].expressions|
  }

  /** `buildUndefinedParameterTypes`: one record per (name, expression) pair,
      grouped by name in the map's order. */
  function BuildUndefinedParameterTypes(entries: seq<UndefinedEntry>): (r: seq<UndefinedParameterType>)
    ensures |r| == PairCount(entries)
  {
    if |entries| == 0 then []
    else BuildUndefinedParameterTypes(entries[..|entries| - 1]) + EntryTypes(entries[|entries| - 1])
  }

  /** Every record carries one of the map's pairs and every pair appears; on
      a well-formed map no record appears twice. */
  lemma {:induction false} UndefinedParameterTypesExactly(entries: seq<UndefinedEntry>)
    ensures forall n, x :: UndefinedParameterType(n, x) in BuildUndefinedParameterTypes(entries) <==> HasPair(entries, n, x)
    ensures WellFormed(entries) ==> Distinct(BuildUndefinedParameterTypes(entries))
  {
    if |entries| > 0 {
      var pre, last := entries[..|entries| - 1], entries[|entries| - 1];
      UndefinedParameterTypesExactly(pre);
      var a, b := BuildUndefinedParameterTypes(pre), EntryTypes(last);
      assert forall i :: 0 <= i < |pre| ==> pre[i] == entries[i];
      forall n, x ensures UndefinedParameterType(n, x) in a + b <==> HasPair(entries, n, x) {
        if UndefinedParameterType(n, x) in b {
          var j :| 0 <= j < |b| && b[j] == UndefinedParameterType(n, x);
          assert last.expressions[j] == x;
        }
        if HasPair(entries, n, x) {
          var i :| 0 <= i < |entries| && entries[i].name == n && x in entries[i].expressions;
          if i == |entries| - 1 {
            var j :| 0 <= j < |last.expressions| && last.expressions[j] == x;
            assert b[j] == UndefinedParameterType(n, x);
          } else {
            assert HasPair(pre, n, x);
          }
        }
      }
      if WellFormed(entries) {
        assert WellFormed(pre);
        assert Distinct(b) by {
          forall i, j | 0 <= i < j < |b| ensures b[i] != b[j] {
            assert last.expressions[i] != last.expressions[j];
          }
        }
        forall u | u in a ensures u !in b {
          assert HasPair(pre, u.name, u.expression);
          var i :| 0 <= i < |pre| && pre[i].name == u.name && u.expression in pre[i].expressions;
          assert entries[i].name != last.name;
        }
        DistinctConcat(a, b);
      }
    }
  }

  // ----- steps -----

  /** How compiling one step pattern ends: compiled, dropped because it
      names an undefined parameter type, or with an error that is rethrown. */
  datatype StepCompilation = Ok(compiled: CompiledExpression) | Undefined(name: string) | Fatal(error: Error)

  /** `compileExpression(pattern)`: only a string pattern goes through the
      catch that recognises an undefined parameter type; a RegExp is compiled
      directly. */
  function CompilePattern(engine: ExpressionEngine, registry: ParameterTypeRegistry, pattern: StepPattern): (c: StepCompilation)
    ensures c.Undefined? ==> pattern.StringPattern?
    ensures c.Ok? ==> (c.compiled.kind == CucumberExpressionKind <==> pattern.StringPattern?)
  {
    match pattern
    case StringPattern(text) =>
      (match engine.compileCucumberExpression(text, registry)
       case Compiled(m) => Ok(CompiledExpression(CucumberExpressionKind, m))
       case UndefinedParameterTypeError(name) => Undefined(name)
       case OtherError(e) => Fatal(e))
    case RegExpPattern(re) =>
      (match engine.compileRegularExpression(re, registry)
       case Success(m) => Ok(CompiledExpression(RegularExpressionKind, m))
       case Failure(e) => Fatal(e))
  }

  /** The value `compileExpression` returns: the expression, `undefined`, or a throw. */
  function CompileResult(c: StepCompilation): Result<Option<CompiledExpression>, Error> {
    match c
    case Ok(compiled) => Success(Some(compiled))
    case Undefined(_) => Success(None)
    case Fatal(e) => Failure(e)
  }

  /** The undefined-parameter-type map after compiling `pattern`. */
  function Recorded(entries: seq<UndefinedEntry>, pattern: StepPattern, c: StepCompilation): seq<UndefinedEntry> {
    if c.Undefined? && pattern.StringPattern? then AddUndefined(entries, c.name, pattern.text) else entries
  }

  /** `pattern.toString()`: a string is itself; a RegExp's text comes from the engine. */
  function PatternSource(engine: ExpressionEngine, pattern: StepPattern): (source: string)
    ensures pattern.StringPattern? ==> source == pattern.text
    ensures pattern.RegExpPattern? ==> source == engine.regExpToString(pattern.regexp)
  {
    match pattern
    case StringPattern(text) => text
    case RegExpPattern(re) => engine.regExpToString(re)
  }

  /** The defined step for a registration whose pattern compiled: id,
      function and source reference carried over, the raw pattern kept. */
  function DefineStep(engine: ExpressionEngine, s: WithId<NewStep>, compiled: CompiledExpression): (d: DefinedStep)
    ensures d.id == s.id && d.fn == s.options.fn && d.sourceReference == s.options.sourceReference
    ensures d.expression == StepExpression(s.options.pattern, compiled)
    ensures s.options.pattern.StringPattern? ==> StepDefinitionToMessage(d).pattern.source == s.options.pattern.text
  {
    DefinedStep(s.id, StepExpression(s.options.pattern, compiled), s.options.fn, s.options.sourceReference,
                PatternSource(engine, s.options.pattern))
  }

  /** The step a registration yields when its pattern compiles against `registry`. */
  function Definer(engine: ExpressionEngine, registry: ParameterTypeRegistry): WithId<NewStep> -> Option<DefinedStep> {
    (s: WithId<NewStep>) =>
      match CompilePattern(engine, registry, s.options.pattern)
      case Ok(c) => Some(DefineStep(engine, s, c))
      case _ => None
  }

  /** What `buildSteps` returns or throws, and the undefined-parameter-type map it leaves behind. */
  datatype StepsOutcome = StepsOutcome(result: Result<seq<DefinedStep>, Error>, undefined: seq<UndefinedEntry>)

  /** Compiles the registered steps in order, keeping those that compiled,
      recording undefined parameter types, and stopping at the first error. */
  function CompileSteps(engine: ExpressionEngine, registry: ParameterTypeRegistry, undefined: seq<UndefinedEntry>,
                        steps: seq<WithId<NewStep>>): (o: StepsOutcome)
    ensures o.result.Success? ==> |o.result.value| <= |steps|
    ensures |undefined| <= |o.undefined| <= |undefined| + |steps|
  {
    if |steps| == 0 then StepsOutcome(Success([]), undefined)
    else
      var prev := CompileSteps(engine, registry, undefined, steps[..|steps| - 1]);
      if prev.result.Failure? then prev
      else
        var s := steps[|steps| - 1];
        var c := CompilePattern(engine, registry, s.options.pattern);
        var undefined' := Recorded(prev.undefined, s.options.pattern, c);
        match c
        case Ok(compiled) => StepsOutcome(Success(prev.result.value + [DefineStep(engine, s, compiled)]), undefined')
        case Undefined(_) => StepsOutcome(prev.result, undefined')
        case Fatal(e) => StepsOutcome(Failure(e), undefined')
  }

  lemma {:induction false} CompileStepsStops(
    engine: ExpressionEngine, registry: ParameterTypeRegistry, undefined: seq<UndefinedEntry>,
    steps: seq<WithId<NewStep>>, k: nat)
    requires k <= |steps|
    requires CompileSteps(engine, registry, undefined, steps[..k]).result.Failure?
    ensures CompileSteps(engine, registry, undefined, steps) == CompileSteps(engine, registry, undefined, steps[..k])
  {
    if k < |steps| {
      assert steps[..|steps| - 1][..k] == steps[..k];
      CompileStepsStops(engine, registry, undefined, steps[..|steps| - 1], k);
    } else {
      assert steps[..k] == steps;
    }
  }

  /** Predicate on one registration: its pattern fails with an error that is rethrown. */
  predicate IsFatal(engine: ExpressionEngine, registry: ParameterTypeRegistry, s: WithId<NewStep>) {
    CompilePattern(engine, registry, s.options.pattern).Fatal?
  }

  /** Step `i` is the first whose pattern fails fatally, with error `e`. */
  predicate FirstFatal(engine: ExpressionEngine, registry: ParameterTypeRegistry, steps: seq<WithId<NewStep>>, i: int, e: Error) {
    && 0 <= i < |steps|
    && CompilePattern(engine, registry, steps[i].options.pattern) == Fatal(e)
    && forall j :: 0 <= j < i ==> !IsFatal(engine, registry, steps[j])
  }

  /** `buildSteps` succeeds exactly when no pattern fails fatally; it then
      keeps exactly the steps that compiled, in registration order, and
      otherwise throws the error of the first fatal pattern. */
  lemma {:induction false} CompileStepsOutcome(
    engine: ExpressionEngine, registry: ParameterTypeRegistry, undefined: seq<UndefinedEntry>, steps: seq<WithId<NewStep>>)
    ensures var o := CompileSteps(engine, registry, undefined, steps);
      && (o.result.Success? <==> forall i :: 0 <= i < |steps| ==> !IsFatal(engine, registry, steps[i]))
      && (o.result.Success? ==> o.result.value == FilterMap(steps, Definer(engine, registry)))
      && (o.result.Failure? ==> exists i :: FirstFatal(engine, registry, steps, i, o.result.error))
  {
    if |steps| > 0 {
      var pre := steps[..|steps| - 1];
      CompileStepsOutcome(engine, registry, undefined, pre);
      assert forall i :: 0 <= i < |pre| ==> pre[i] == steps[i];
      var prev := CompileSteps(engine, registry, undefined, pre);
      var o := CompileSteps(engine, registry, undefined, steps);
      if prev.result.Failure? {
        var i :| FirstFatal(engine, registry, pre, i, prev.result.error);
        assert FirstFatal(engine, registry, steps, i, o.result.error);
      } else if o.result.Failure? {
        assert FirstFatal(engine, registry, steps, |steps| - 1, o.result.error);
      }
    }
  }

  /** Some string pattern `x` among `steps` names the undefined parameter type `n`. */
  predicate NamesUndefined(engine: ExpressionEngine, registry: ParameterTypeRegistry, steps: seq<WithId<NewStep>>,
                           n: string, x: string) {
    exists i :: 0 <= i < |steps| && steps[i].options.pattern == StringPattern(x)
                && CompilePattern(engine, registry, StringPattern(x)) == Undefined(n)
  }

  lemma NamesUndefinedLast(engine: ExpressionEngine, registry: ParameterTypeRegistry, steps: seq<WithId<NewStep>>,
                           n: string, x: string)
    requires |steps| > 0
    ensures var pre, last := steps[..|steps| - 1], steps[|steps| - 1];
      NamesUndefined(engine, registry, steps, n, x)
      <==> NamesUndefined(engine, registry, pre, n, x)
           || (last.options.pattern == StringPattern(x) && CompilePattern(engine, registry, StringPattern(x)) == Undefined(n))
  {
    var pre := steps[..|steps| - 1];
    assert forall i :: 0 <= i < |pre| ==> pre[i] == steps[i];
  }

  /** Compiling steps keeps the undefined-parameter-type map well formed. */
  lemma {:induction false} CompileStepsWellFormed(
    engine: ExpressionEngine, registry: ParameterTypeRegistry, undefined: seq<UndefinedEntry>, steps: seq<WithId<NewStep>>)
    requires WellFormed(undefined)
    ensures WellFormed(CompileSteps(engine, registry, undefined, steps).undefined)
  {
    if |steps| > 0 {
      var pre := steps[..|steps| - 1];
      CompileStepsWellFormed(engine, registry, undefined, pre);
      var prev := CompileSteps(engine, registry, undefined, pre);
      if prev.result.Success? {
        var s := steps[|steps| - 1];
        var c := CompilePattern(engine, registry, s.options.pattern);
        if c.Undefined? {
          AddUndefinedWellFormed(prev.undefined, c.name, s.options.pattern.text);
        }
      }
    }
  }

  /** After a successful `buildSteps`, the map holds exactly the pairs it
      held before plus, for every string pattern that named an undefined
      parameter type, that type's name and the pattern. */
  lemma {:induction false} CompileStepsUndefined(
    engine: ExpressionEngine, registry: ParameterTypeRegistry, undefined: seq<UndefinedEntry>,
    steps: seq<WithId<NewStep>>, n: string, x: string)
    requires WellFormed(undefined)
    requires CompileSteps(engine, registry, undefined, steps).result.Success?
    ensures HasPair(CompileSteps(engine, registry, undefined, steps).undefined, n, x)
      <==> HasPair(undefined, n, x) || NamesUndefined(engine, registry, steps, n, x)
  {
    if |steps| > 0 {
      var pre := steps[..|steps| - 1];
      var prev := CompileSteps(engine, registry, undefined, pre);
      assert prev.result.Success?;
      CompileStepsUndefined(engine, registry, undefined, pre, n, x);
      CompileStepsWellFormed(engine, registry, undefined, pre);
      NamesUndefinedLast(engine, registry, steps, n, x);
      var s := steps[|steps| - 1];
      var c := CompilePattern(engine, registry, s.options.pattern);
      if c.Undefined? {
        AddUndefinedPairs(prev.undefined, c.name, s.options.pattern.text, n, x);
      }
    }
  }

  /** The undefined parameter types the string patterns of `steps` name,
      one record per such pattern with the pattern as its expression, in
      step order and with repeats kept. */
  function UndefinedPairs(engine: ExpressionEngine, registry: ParameterTypeRegistry, steps: seq<WithId<NewStep>>)
    : seq<UndefinedParameterType>
  {
    if |steps| == 0 then []
    else
      var p := steps[|steps| - 1].options.pattern;
      var c := CompilePattern(engine, registry, p);
      UndefinedPairs(engine, registry, steps[..|steps| - 1])
      + (if c.Undefined? && p.StringPattern? then [UndefinedParameterType(c.name, p.text)] else [])
  }

  function NamesOf(entries: seq<UndefinedEntry>): (names: seq<string>)
    ensures |names| == |entries| && forall i :: 0 <= i < |entries| ==> names[i] == entries[i].name
  {
    seq(|entries|, i requires 0 <= i < |entries| => entries[i].name)
  }

  function PairNames(pairs: seq<UndefinedParameterType>): (names: seq<string>)
    ensures |names| == |pairs| && forall i :: 0 <= i < |pairs| ==> names[i] == pairs[i].name
  {
    seq(|pairs|, i requires 0 <= i < |pairs| => pairs[i].name)
  }

  /** The expressions recorded against `name`, in order, repeats kept. */
  function ExpressionsNamed(pairs: seq<UndefinedParameterType>, name: string): seq<string> {
    if |pairs| == 0 then []
    else
      var last := pairs[|pairs| - 1];
      ExpressionsNamed(pairs[..|pairs| - 1], name) + (if last.name == name then [last.expression] else [])
  }

  lemma ExpressionsNamedAppend(pairs: seq<UndefinedParameterType>, p: UndefinedParameterType, name: string)
    ensures ExpressionsNamed(pairs + [p], name) == ExpressionsNamed(pairs, name) + (if p.name == name then [p.expression] else [])
  {
    assert (pairs + [p])[..|pairs|] == pairs;
  }

  lemma {:induction false} ExpressionsNamedAbsent(pairs: seq<UndefinedParameterType>, name: string)
    requires forall k :: 0 <= k < |pairs| ==> pairs[k].name != name
    ensures ExpressionsNamed(pairs, name) == []
  {
    if |pairs| > 0 {
      ExpressionsNamedAbsent(pairs[..|pairs| - 1], name);
    }
  }

  /** Recording adds the name at the end of the map's names exactly when it is new. */
  lemma AddUndefinedNames(entries: seq<UndefinedEntry>, name: string, expression: string)
    ensures NamesOf(AddUndefined(entries, name, expression))
         == if name in NamesOf(entries) then NamesOf(entries) else NamesOf(entries) + [name]
  {
    var names := NamesOf(entries);
    if name in names {
      var i :| 0 <= i < |names| && names[i] == name;
      assert HasName(entries, name) by { assert entries[i].name == name; }
    } else {
      assert !HasName(entries, name) by {
        forall i | 0 <= i < |entries| ensures entries[i].name != name {
          assert names[i] == entries[i].name;
        }
      }
    }
  }

  /** Recording a pair adds its name where the first occurrences of the pairs' names put it. */
  lemma RecordKeepsNameOrder(e: seq<UndefinedEntry>, pp: seq<UndefinedParameterType>, n: string, x: string)
    requires NamesOf(e) == FirstOccurrences(PairNames(pp))
    ensures NamesOf(AddUndefined(e, n, x)) == FirstOccurrences(PairNames(pp + [UndefinedParameterType(n, x)]))
  {
    assert PairNames(pp + [UndefinedParameterType(n, x)]) == PairNames(pp) + [n];
    FirstOccurrencesAppend(PairNames(pp), n);
    AddUndefinedNames(e, n, x);
  }

  /** Recording a pair keeps an existing name's expressions the first occurrences of the pairs' expressions under it. */
  lemma RecordKeepsOldExpressionOrder(e: seq<UndefinedEntry>, pp: seq<UndefinedParameterType>, n: string, x: string, i: nat)
    requires WellFormed(e)
    requires i < |e| && e[i].expressions == FirstOccurrences(ExpressionsNamed(pp, e[i].name))
    ensures var u := AddUndefined(e, n, x);
      u[i].expressions == FirstOccurrences(ExpressionsNamed(pp + [UndefinedParameterType(n, x)], u[i].name))
  {
    var u := AddUndefined(e, n, x);
    var before := ExpressionsNamed(pp, e[i].name);
    ExpressionsNamedAppend(pp, UndefinedParameterType(n, x), e[i].name);
    AddUndefinedEntries(e, n, x);
    assert u[i].name == e[i].name;
    if e[i].name == n {
      FirstOccurrencesAppend(before, x);
      assert u[i].expressions == AddExpression(FirstOccurrences(before), x);
    } else {
      assert ExpressionsNamed(pp + [UndefinedParameterType(n, x)], u[i].name) == before + [];
      assert before + [] == before;
    }
  }

  /** A name recorded for the first time has had no expression before. */
  lemma RecordNewExpressionOrder(e: seq<UndefinedEntry>, pp: seq<UndefinedParameterType>, n: string, x: string)
    requires NamesOf(e) == FirstOccurrences(PairNames(pp))
    requires !HasName(e, n)
    ensures FirstOccurrences(ExpressionsNamed(pp + [UndefinedParameterType(n, x)], n)) == [x]
  {
    ExpressionsNamedAppend(pp, UndefinedParameterType(n, x), n);
    assert n !in NamesOf(e);
    FirstOccurrencesMembership(PairNames(pp), n);
    forall k | 0 <= k < |pp| ensures pp[k].name != n {
      assert PairNames(pp)[k] == pp[k].name;
    }
    ExpressionsNamedAbsent(pp, n);
    assert [x] == [] + [x];
  }

  /** The order invariant survives recording one more undefined pair. */
  lemma RecordKeepsOrder(e: seq<UndefinedEntry>, pp: seq<UndefinedParameterType>, n: string, x: string)
    requires WellFormed(e)
    requires NamesOf(e) == FirstOccurrences(PairNames(pp))
    requires forall k :: 0 <= k < |e| ==> e[k].expressions == FirstOccurrences(ExpressionsNamed(pp, e[k].name))
    ensures var u := AddUndefined(e, n, x); var pairs := pp + [UndefinedParameterType(n, x)];
      && NamesOf(u) == FirstOccurrences(PairNames(pairs))
      && forall k :: 0 <= k < |u| ==> u[k].expressions == FirstOccurrences(ExpressionsNamed(pairs, u[k].name))
  {
    var u := AddUndefined(e, n, x);
    RecordKeepsNameOrder(e, pp, n, x);
    forall k | 0 <= k < |u|
      ensures u[k].expressions == FirstOccurrences(ExpressionsNamed(pp + [UndefinedParameterType(n, x)], u[k].name))
    {
      if k < |e| {
        RecordKeepsOldExpressionOrder(e, pp, n, x, k);
      } else {
        assert !HasName(e, n) && u[k] == UndefinedEntry(n, [x]);
        RecordNewExpressionOrder(e, pp, n, x);
      }
    }
  }

  /** One more step either records its undefined pair, in the map and in
      `UndefinedPairs` alike, or leaves both as they were. */
  lemma CompileStepsUndefinedLast(engine: ExpressionEngine, registry: ParameterTypeRegistry, steps: seq<WithId<NewStep>>)
    requires |steps| > 0 && CompileSteps(engine, registry, [], steps).result.Success?
    ensures var pre := steps[..|steps| - 1];
      var pattern := steps[|steps| - 1].options.pattern;
      var c := CompilePattern(engine, registry, pattern);
      var u, prev := CompileSteps(engine, registry, [], steps).undefined, CompileSteps(engine, registry, [], pre);
      && prev.result.Success?
      && (c.Undefined? ==>
            && u == AddUndefined(prev.undefined, c.name, pattern.text)
            && UndefinedPairs(engine, registry, steps)
               == UndefinedPairs(engine, registry, pre) + [UndefinedParameterType(c.name, pattern.text)])
      && (!c.Undefined? ==> u == prev.undefined && UndefinedPairs(engine, registry, steps) == UndefinedPairs(engine, registry, pre))
  {
  }

  /** From the empty map the builder starts with, compiling steps leaves the
      undefined parameter type names in the order their first string pattern
      named them, each once, and under each name the patterns that named it
      in step order, each once: the insertion order of the `Map` and its `Set`s. */
  lemma {:induction false} CompileStepsUndefinedOrder(
    engine: ExpressionEngine, registry: ParameterTypeRegistry, steps: seq<WithId<NewStep>>)
    requires CompileSteps(engine, registry, [], steps).result.Success?
    ensures var u := CompileSteps(engine, registry, [], steps).undefined; var pairs := UndefinedPairs(engine, registry, steps);
      && NamesOf(u) == FirstOccurrences(PairNames(pairs))
      && forall i :: 0 <= i < |u| ==> u[i].expressions == FirstOccurrences(ExpressionsNamed(pairs, u[i].name))
  {
    if |steps| > 0 {
      var pre := steps[..|steps| - 1];
      CompileStepsUndefinedLast(engine, registry, steps);
      CompileStepsUndefinedOrder(engine, registry, pre);
      var pattern := steps[|steps| - 1].options.pattern;
      var c := CompilePattern(engine, registry, pattern);
      if c.Undefined? {
        CompileStepsWellFormed(engine, registry, [], pre);
        RecordKeepsOrder(CompileSteps(engine, registry, [], pre).undefined, UndefinedPairs(engine, registry, pre),
                         c.name, pattern.text);
      }
    }
  }

  // ----- hooks -----

  /** `tags ? { raw: tags, compiled: parse(tags) } : undefined`: only a
      non-empty tag string is parsed, so an empty one means untagged. */
  function CompileTags(engine: ExpressionEngine, tags: Option<string>): (r: Result<Option<CompiledTags>, Error>)
    ensures r.Failure? <==> tags.Some? && tags.value != "" && engine.parseTagExpression(tags.value).Failure?
    ensures r.Success? ==> (r.value.Some? <==> tags.Some? && tags.value != "")
    ensures r.Success? && r.value.Some? ==> r.value.value.raw == tags.value
  {
    if tags.Some? && tags.value != "" then
      match engine.parseTagExpression(tags.value)
      case Success(t) => Success(Some(CompiledTags(tags.value, t)))
      case Failure(e) => Failure(e)
    else Success(None)
  }

  function DefineTestCaseHook(h: WithId<NewTestCaseHook>, tags: Option<CompiledTags>, hookType: HookType): DefinedTestCaseHook {
    DefinedTestCaseHook(h.id, h.options.name, tags, h.options.fn, h.options.sourceReference, hookType)
  }

  /** `buildBeforeHooks` / `buildAfterHooks`: one defined hook per registration,
      in order; the first tag expression that fails to parse is thrown. */
  function BuildTestCaseHooks(engine: ExpressionEngine, hooks: seq<WithId<NewTestCaseHook>>, hookType: HookType)
    : (r: Result<seq<DefinedTestCaseHook>, Error>)
    ensures r.Success? ==> |r.value| == |hooks|
    ensures r.Success? ==> forall i :: 0 <= i < |hooks| ==> r.value[i].id == hooks[i].id && r.value[i].hookType == hookType
  {
    if |hooks| == 0 then Success([])
    else
      var prev := BuildTestCaseHooks(engine, hooks[..|hooks| - 1], hookType);
      if prev.Failure? then prev
      else
        var h := hooks[|hooks| - 1];
        match CompileTags(engine, h.options.tags)
        case Success(tags) => Success(prev.value + [DefineTestCaseHook(h, tags, hookType)])
        case Failure(e) => Failure(e)
  }

  /** Hook `i` is the first whose tag string fails to parse, with error `e`. */
  predicate FirstTagFailure(engine: ExpressionEngine, hooks: seq<WithId<NewTestCaseHook>>, i: int, e: Error) {
    && 0 <= i < |hooks|
    && CompileTags(engine, hooks[i].options.tags) == Failure(e)
    && forall j :: 0 <= j < i ==> CompileTags(engine, hooks[j].options.tags).Success?
  }

  /** Building hooks succeeds exactly when every non-empty tag string parses,
      keeps one hook per registration in order, and otherwise fails with the
      error of the first one that does not. */
  lemma {:induction false} BuildTestCaseHooksOutcome(
    engine: ExpressionEngine, hooks: seq<WithId<NewTestCaseHook>>, hookType: HookType)
    ensures var r := BuildTestCaseHooks(engine, hooks, hookType);
      && (r.Success? <==> forall i :: 0 <= i < |hooks| ==> CompileTags(engine, hooks[i].options.tags).Success?)
      && (r.Success? ==> |r.value| == |hooks|)
      && (r.Success? ==>
            forall i :: 0 <= i < |hooks| ==>
              r.value[i] == DefineTestCaseHook(hooks[i], CompileTags(engine, hooks[i].options.tags).value, hookType))
      && (r.Failure? ==> exists i :: FirstTagFailure(engine, hooks, i, r.error))
  {
    if |hooks| > 0 {
      var pre := hooks[..|hooks| - 1];
      BuildTestCaseHooksOutcome(engine, pre, hookType);
      assert forall i :: 0 <= i < |pre| ==> pre[i] == hooks[i];
      var prev := BuildTestCaseHooks(engine, pre, hookType);
      var r := BuildTestCaseHooks(engine, hooks, hookType);
      if prev.Failure? {
        var i :| FirstTagFailure(engine, pre, i, prev.error);
        assert FirstTagFailure(engine, hooks, i, r.error);
      } else if r.Failure? {
        assert FirstTagFailure(engine, hooks, |hooks| - 1, r.error);
      }
    }
  }

  /** Each built hook's message carries the registration's id and name, the
      type of its list, and its tag string exactly when that is non-empty. */
  lemma BuiltTestCaseHookMessages(engine: ExpressionEngine, hooks: seq<WithId<NewTestCaseHook>>, hookType: HookType, i: nat)
    requires BuildTestCaseHooks(engine, hooks, hookType).Success?
    requires i < |hooks|
    ensures var r := BuildTestCaseHooks(engine, hooks, hookType).value;
      && |r| == |hooks|
      && var m := TestCaseHookToMessage(r[i]); var tags := hooks[i].options.tags;
      && m.id == hooks[i].id && m.hookType == hookType && m.name == hooks[i].options.name
      && m.sourceReference == hooks[i].options.sourceReference
      && m.tagExpression == (if tags.Some? && tags.value != "" then tags else None)
      && (r[i].tags.Some? <==> tags.Some? && tags.value != "")
  {
    BuildTestCaseHooksOutcome(engine, hooks, hookType);
  }

  /** `buildBeforeAllHooks` / `buildAfterAllHooks`: one hook per registration,
      in order, whose message has no tag expression. */
  function BuildTestRunHooks(hooks: seq<WithId<NewTestRunHook>>, hookType: HookType): (r: seq<DefinedTestRunHook>)
    ensures |r| == |hooks|
    ensures forall i :: 0 <= i < |hooks| ==>
      TestRunHookToMessage(r[i]) == HookMessage(hooks[i].id, hookType, hooks[i].options.name, None, hooks[i].options.sourceReference)
  {
    seq(|hooks|, i requires 0 <= i < |hooks| =>
      DefinedTestRunHook(hooks[i].id, hooks[i].options.name, hooks[i].options.fn, hooks[i].options.sourceReference, hookType))
  }

  // ----- build -----

  /** What `build` returns or throws, and the registry and map it leaves behind. */
  datatype BuildOutcome = BuildOutcome(result: Result<Library, Error>, registry: ParameterTypeRegistry, undefined: seq<UndefinedEntry>)

  /** `build()`: parameter types first, then steps against the registry
      holding them, then the undefined types the steps recorded, then the
      hooks. The BeforeAll and AfterAll hooks are built but the library's
      constructor does not take them. */
  function BuildLibrary(
    engine: ExpressionEngine, registry: ParameterTypeRegistry, undefined: seq<UndefinedEntry>,
    parameterTypes: seq<WithId<NewParameterType>>, steps: seq<WithId<NewStep>>,
    beforeHooks: seq<WithId<NewTestCaseHook>>, afterHooks: seq<WithId<NewTestCaseHook>>): (o: BuildOutcome)
    ensures o.result.Success? ==>
      && |o.result.value.parameterTypes| == |parameterTypes| && |o.result.value.steps| <= |steps|
      && |o.result.value.beforeHooks| == |beforeHooks| && |o.result.value.afterHooks| == |afterHooks|
  {
    var p := DefineParameterTypes(engine, registry, parameterTypes);
    if p.result.Failure? then BuildOutcome(Failure(p.result.error), p.registry, undefined)
    else
      var s := CompileSteps(engine, p.registry, undefined, steps);
      if s.result.Failure? then BuildOutcome(Failure(s.result.error), p.registry, s.undefined)
      else
        var u := BuildUndefinedParameterTypes(s.undefined);
        var b := BuildTestCaseHooks(engine, beforeHooks, BEFORE_TEST_CASE);
        if b.Failure? then BuildOutcome(Failure(b.error), p.registry, s.undefined)
        else
          var a := BuildTestCaseHooks(engine, afterHooks, AFTER_TEST_CASE);
          if a.Failure? then BuildOutcome(Failure(a.error), p.registry, s.undefined)
          else BuildOutcome(Success(Library(p.result.value, s.result.value, u, b.value, a.value)), p.registry, s.undefined)
  }

  /** Build succeeds exactly when every parameter type is accepted, no step
      pattern fails fatally against the registry holding all of them, and
      every non-empty tag string parses. */
  lemma BuildSucceeds(
    engine: ExpressionEngine, registry: ParameterTypeRegistry, undefined: seq<UndefinedEntry>,
    parameterTypes: seq<WithId<NewParameterType>>, steps: seq<WithId<NewStep>>,
    beforeHooks: seq<WithId<NewTestCaseHook>>, afterHooks: seq<WithId<NewTestCaseHook>>)
    ensures var p := DefineParameterTypes(engine, registry, parameterTypes);
      BuildLibrary(engine, registry, undefined, parameterTypes, steps, beforeHooks, afterHooks).result.Success?
      <==> && p.result.Success?
           && (forall i :: 0 <= i < |steps| ==> !IsFatal(engine, p.registry, steps[i]))
           && (forall i :: 0 <= i < |beforeHooks| ==> CompileTags(engine, beforeHooks[i].options.tags).Success?)
           && (forall i :: 0 <= i < |afterHooks| ==> CompileTags(engine, afterHooks[i].options.tags).Success?)
  {
    var p := DefineParameterTypes(engine, registry, parameterTypes);
    CompileStepsOutcome(engine, p.registry, undefined, steps);
    BuildTestCaseHooksOutcome(engine, beforeHooks, BEFORE_TEST_CASE);
    BuildTestCaseHooksOutcome(engine, afterHooks, AFTER_TEST_CASE);
  }

  /** A built library compiled its steps against the registry extended with
      every registered parameter type, in order; its undefined parameter
      types are read from the map after every step was compiled, one record
      per distinct (name, expression) pair that some string pattern produced. */
  lemma BuildOrder(
    engine: ExpressionEngine, registry: ParameterTypeRegistry, undefined: seq<UndefinedEntry>,
    parameterTypes: seq<WithId<NewParameterType>>, steps: seq<WithId<NewStep>>,
    beforeHooks: seq<WithId<NewTestCaseHook>>, afterHooks: seq<WithId<NewTestCaseHook>>, n: string, x: string)
    requires WellFormed(undefined)
    requires BuildLibrary(engine, registry, undefined, parameterTypes, steps, beforeHooks, afterHooks).result.Success?
    ensures var o := BuildLibrary(engine, registry, undefined, parameterTypes, steps, beforeHooks, afterHooks);
      var lib := o.result.value;
      && |o.registry| == |registry| + |parameterTypes| && o.registry[..|registry|] == registry
      && (forall i :: 0 <= i < |parameterTypes| ==> o.registry[|registry| + i].args == ArgsOf(parameterTypes[i].options))
      && lib.steps == FilterMap(steps, Definer(engine, o.registry))
      && lib.undefinedParameterTypes == BuildUndefinedParameterTypes(o.undefined)
      && Distinct(lib.undefinedParameterTypes)
      && (UndefinedParameterType(n, x) in lib.undefinedParameterTypes
          <==> HasPair(undefined, n, x) || NamesUndefined(engine, o.registry, steps, n, x))
  {
    DefineParameterTypesRegistry(engine, registry, parameterTypes);
    DefineParameterTypesValues(engine, registry, parameterTypes);
    var o := BuildLibrary(engine, registry, undefined, parameterTypes, steps, beforeHooks, afterHooks);
    CompileStepsOutcome(engine, o.registry, undefined, steps);
    CompileStepsUndefined(engine, o.registry, undefined, steps, n, x);
    CompileStepsWellFormed(engine, o.registry, undefined, steps);
    UndefinedParameterTypesExactly(o.undefined);
  }

  // ----- the builder -----

  function IdsOf<T>(xs: seq<WithId<T>>): (ids: seq<Id>)
    ensures |ids| == |xs| && forall i :: 0 <= i < |xs| ==> ids[i] == xs[i].id
  {
    seq(|xs|, i requires 0 <= i < |xs| => xs[i].id)
  }

  lemma IdsOfAppend<T>(xs: seq<WithId<T>>, w: WithId<T>)
    ensures IdsOf(xs + [w]) == IdsOf(xs) + [w.id]
  {
    assert forall i :: 0 <= i < |xs| ==> (xs + [w])[i] == xs[i];
  }

  /** The ids of several lists: each list increasing, no id in two lists,
      and all of them below `next`. */
  predicate IdListsValid(lists: seq<seq<Id>>, next: Id) {
    && (forall k, i :: 0 <= k < |lists| && 0 <= i < |lists[k]| ==> lists[k][i] < next)
    && (forall k :: 0 <= k < |lists| ==> StrictlyIncreasing(lists[k]))
    && (forall k, l, i, j :: 0 <= k < l < |lists| && 0 <= i < |lists[k]| && 0 <= j < |lists[l]| ==>
          lists[k][i] != lists[l][j])
  }

  /** Giving the next id to any one list keeps the lists valid. */
  lemma IdListsAppend(lists: seq<seq<Id>>, m: nat, next: Id)
    requires m < |lists| && IdListsValid(lists, next)
    ensures IdListsValid(lists[m := lists[m] + [next]], next + 1)
  {
    var lists' := lists[m := lists[m] + [next]];
    forall k, i | 0 <= k < |lists'| && 0 <= i < |lists'[k]| ensures lists'[k][i] < next + 1 {
      if k != m || i < |lists[m]| {
        assert lists'[k][i] == lists[k][i];
      }
    }
    forall k | 0 <= k < |lists'| ensures StrictlyIncreasing(lists'[k]) {
      if k == m {
        var xs := lists'[m];
        forall i, j | 0 <= i < j < |xs| ensures xs[i] < xs[j] {
          assert xs[i] == lists[m][i];
          if j < |lists[m]| {
            assert xs[j] == lists[m][j];
          }
        }
      }
    }
    forall k, l, i, j | 0 <= k < l < |lists'| && 0 <= i < |lists'[k]| && 0 <= j < |lists'[l]|
      ensures lists'[k][i] != lists'[l][j]
    {
      if (k == m && i == |lists[m]|) {
        assert lists'[l][j] == lists[l][j];
      } else if (l == m && j == |lists[m]|) {
        assert lists'[k][i] == lists[k][i];
      } else {
        assert lists'[k][i] == lists[k][i] && lists'[l][j] == lists[l][j];
      }
    }
  }

  class Builder {
    const engine: ExpressionEngine
    /** The next id `newId` hands out. */
    var nextId: Id
    /** The parameter types defined so far, beyond those built into the engine. */
    var parameterTypeRegistry: ParameterTypeRegistry
    var undefinedParameterTypes: seq<UndefinedEntry>
    var parameterTypes: seq<WithId<NewParameterType>>
    var steps: seq<WithId<NewStep>>
    var beforeHooks: seq<WithId<NewTestCaseHook>>
    var afterHooks: seq<WithId<NewTestCaseHook>>
    var beforeAllHooks: seq<WithId<NewTestRunHook>>
    var afterAllHooks: seq<WithId<NewTestRunHook>>

    /** The ids handed out, list by list. */
    ghost function IdLists(): seq<seq<Id>>
      reads this
    {
      [IdsOf(parameterTypes), IdsOf(steps), IdsOf(beforeHooks), IdsOf(afterHooks),
       IdsOf(beforeAllHooks), IdsOf(afterAllHooks)]
    }

    /** Ids are distinct across all six lists, increase within each list in
        registration order, and are all below the counter; the undefined
        parameter types form a well-formed map. */
    ghost predicate Valid()
      reads this
    {
      IdListsValid(IdLists(), nextId) && WellFormed(undefinedParameterTypes)
    }

    /** `new SupportCodeBuilderImpl(newId)`, with `newId` counting from `firstId`. */
    constructor (engine: ExpressionEngine, firstId: Id)
      ensures Valid()
      ensures this.engine == engine && nextId == firstId
      ensures parameterTypeRegistry == [] && undefinedParameterTypes == []
      ensures parameterTypes == [] && steps == [] && beforeHooks == [] && afterHooks == []
      ensures beforeAllHooks == [] && afterAllHooks == []
    {
      this.engine := engine;
      nextId := firstId;
      parameterTypeRegistry := [];
      undefinedParameterTypes := [];
      parameterTypes := [];
      steps := [];
      beforeHooks := [];
      afterHooks := [];
      beforeAllHooks := [];
      afterAllHooks := [];
    }

    /** `parameterType(options)` */
    method ParameterType(options: NewParameterType) returns (b: Builder)
      requires Valid()
      modifies this`parameterTypes, this`nextId
      ensures Valid() && b == this
      ensures parameterTypes == old(parameterTypes) + [WithId(old(nextId), options)]
      ensures nextId == old(nextId) + 1
    {
      var w := WithId(nextId, options);
      ghost var lists := IdLists();
      IdListsAppend(lists, 0, nextId);
      IdsOfAppend(parameterTypes, w);
      parameterTypes := parameterTypes + [w];
      nextId := nextId + 1;
      assert IdLists() == lists[0 := lists[0] + [w.id]];
      b := this;
    }

    /** `beforeHook(options)` */
    method BeforeHook(options: NewTestCaseHook) returns (b: Builder)
      requires Valid()
      modifies this`beforeHooks, this`nextId
      ensures Valid() && b == this
      ensures beforeHooks == old(beforeHooks) + [WithId(old(nextId), options)]
      ensures nextId == old(nextId) + 1
    {
      var w := WithId(nextId, options);
      ghost var lists := IdLists();
      IdListsAppend(lists, 2, nextId);
      IdsOfAppend(beforeHooks, w);
      beforeHooks := beforeHooks + [w];
      nextId := nextId + 1;
      assert IdLists() == lists[2 := lists[2] + [w.id]];
      b := this;
    }

    /** `afterHook(options)` */
    method AfterHook(options: NewTestCaseHook) returns (b: Builder)
      requires Valid()
      modifies this`afterHooks, this`nextId
      ensures Valid() && b == this
      ensures afterHooks == old(afterHooks) + [WithId(old(nextId), options)]
      ensures nextId == old(nextId) + 1
    {
      var w := WithId(nextId, options);
      ghost var lists := IdLists();
      IdListsAppend(lists, 3, nextId);
      IdsOfAppend(afterHooks, w);
      afterHooks := afterHooks + [w];
      nextId := nextId + 1;
      assert IdLists() == lists[3 := lists[3] + [w.id]];
      b := this;
    }

    /** `step(options)` */
    method Step(options: NewStep) returns (b: Builder)
      requires Valid()
      modifies this`steps, this`nextId
      ensures Valid() && b == this
      ensures steps == old(steps) + [WithId(old(nextId), options)]
      ensures nextId == old(nextId) + 1
    {
      var w := WithId(nextId, options);
      ghost var lists := IdLists();
      IdListsAppend(lists, 1, nextId);
      IdsOfAppend(steps, w);
      steps := steps + [w];
      nextId := nextId + 1;
      assert IdLists() == lists[1 := lists[1] + [w.id]];
      b := this;
    }

    /** `beforeAllHook(options)` */
    method BeforeAllHook(options: NewTestRunHook) returns (b: Builder)
      requires Valid()
      modifies this`beforeAllHooks, this`nextId
      ensures Valid() && b == this
      ensures beforeAllHooks == old(beforeAllHooks) + [WithId(old(nextId), options)]
      ensures nextId == old(nextId) + 1
    {
      var w := WithId(nextId, options);
      ghost var lists := IdLists();
      IdListsAppend(lists, 4, nextId);
      IdsOfAppend(beforeAllHooks, w);
      beforeAllHooks := beforeAllHooks + [w];
      nextId := nextId + 1;
      assert IdLists() == lists[4 := lists[4] + [w.id]];
      b := this;
    }

    /** `afterAllHook(options)` */
    method AfterAllHook(options: NewTestRunHook) returns (b: Builder)
      requires Valid()
      modifies this`afterAllHooks, this`nextId
      ensures Valid() && b == this
      ensures afterAllHooks == old(afterAllHooks) + [WithId(old(nextId), options)]
      ensures nextId == old(nextId) + 1
    {
      var w := WithId(nextId, options);
      ghost var lists := IdLists();
      IdListsAppend(lists, 5, nextId);
      IdsOfAppend(afterAllHooks, w);
      afterAllHooks := afterAllHooks + [w];
      nextId := nextId + 1;
      assert IdLists() == lists[5 := lists[5] + [w.id]];
      b := this;
    }

    /** `buildParameterTypes()`: defines each registered type in the registry
        and returns its record. */
    method BuildParameterTypes() returns (r: Result<seq<DefinedParameterType>, Error>)
      modifies this`parameterTypeRegistry
      ensures var o := DefineParameterTypes(engine, old(parameterTypeRegistry), parameterTypes);
        r == o.result && parameterTypeRegistry == o.registry
    {
      var defined: seq<DefinedParameterType> := [];
      var i := 0;
      while i < |parameterTypes|
        invariant i <= |parameterTypes|
        invariant DefineParameterTypes(engine, old(parameterTypeRegistry), parameterTypes[..i])
               == ParameterTypesOutcome(Success(defined), parameterTypeRegistry)
      {
        var registered := parameterTypes[i];
        var args := ArgsOf(registered.options);
        var regexpStrings := engine.defineParameterType(parameterTypeRegistry, args);
        assert parameterTypes[..i + 1][..i] == parameterTypes[..i];
        if regexpStrings.Failure? {
          DefineParameterTypesStops(engine, old(parameterTypeRegistry), parameterTypes, i + 1);
          return Failure(regexpStrings.error);
        }
        parameterTypeRegistry := parameterTypeRegistry + [RegisteredParameterType(args, regexpStrings.value)];
        defined := defined + [DefinedParameterTypeOf(registered, regexpStrings.value)];
        i := i + 1;
      }
      assert parameterTypes[..i] == parameterTypes;
      r := Success(defined);
    }

    /** `compileCucumberExpression(text)`: an undefined parameter type is
        recorded against the text and yields `undefined`; any other error is
        rethrown. */
    method CompileCucumberExpression(text: string) returns (r: Result<Option<CompiledExpression>, Error>)
      modifies this`undefinedParameterTypes
      ensures var c := CompilePattern(engine, parameterTypeRegistry, StringPattern(text));
        r == CompileResult(c) && undefinedParameterTypes == Recorded(old(undefinedParameterTypes), StringPattern(text), c)
    {
      var c := engine.compileCucumberExpression(text, parameterTypeRegistry);
      match c
      case Compiled(m) =>
        r := Success(Some(CompiledExpression(CucumberExpressionKind, m)));
      case UndefinedParameterTypeError(name) =>
        undefinedParameterTypes := AddUndefined(undefinedParameterTypes, name, text);
        r := Success(None);
      case OtherError(e) =>
        r := Failure(e);
    }

    /** `compileExpression(pattern)` */
    method CompileExpression(pattern: StepPattern) returns (r: Result<Option<CompiledExpression>, Error>)
      modifies this`undefinedParameterTypes
      ensures var c := CompilePattern(engine, parameterTypeRegistry, pattern);
        r == CompileResult(c) && undefinedParameterTypes == Recorded(old(undefinedParameterTypes), pattern, c)
    {
      match pattern
      case StringPattern(text) =>
        r := CompileCucumberExpression(text);
      case RegExpPattern(re) =>
        var m := engine.compileRegularExpression(re, parameterTypeRegistry);
        r := if m.Success? then Success(Some(CompiledExpression(RegularExpressionKind, m.value))) else Failure(m.error);
    }

    /** `buildSteps()`: compiles every registered step in order and keeps
        those that compiled. */
    method BuildSteps() returns (r: Result<seq<DefinedStep>, Error>)
      modifies this`undefinedParameterTypes
      ensures var o := CompileSteps(engine, parameterTypeRegistry, old(undefinedParameterTypes), steps);
        r == o.result && undefinedParameterTypes == o.undefined
    {
      var defined: seq<DefinedStep> := [];
      var i := 0;
      while i < |steps|
        invariant i <= |steps|
        invariant CompileSteps(engine, parameterTypeRegistry, old(undefinedParameterTypes), steps[..i])
               == StepsOutcome(Success(defined), undefinedParameterTypes)
      {
        var s := steps[i];
        var compiled := CompileExpression(s.options.pattern);
        assert steps[..i + 1][..i] == steps[..i];
        if compiled.Failure? {
          CompileStepsStops(engine, parameterTypeRegistry, old(undefinedParameterTypes), steps, i + 1);
          return Failure(compiled.error);
        }
        if compiled.value.Some? {
          defined := defined + [DefineStep(engine, s, compiled.value.value)];
        }
        i := i + 1;
      }
      assert steps[..i] == steps;
      r := Success(defined);
    }

    /** `build()`: the call order of the side effects is the one the
        specification function fixes. */
    method Build() returns (r: Result<Library, Error>)
      requires Valid()
      modifies this`parameterTypeRegistry, this`undefinedParameterTypes
      ensures Valid()
      ensures var o := BuildLibrary(engine, old(parameterTypeRegistry), old(undefinedParameterTypes),
                                    parameterTypes, steps, beforeHooks, afterHooks);
        r == o.result && parameterTypeRegistry == o.registry && undefinedParameterTypes == o.undefined
    {
      var definedParameterTypes := BuildParameterTypes();
      if definedParameterTypes.Failure? {
        return Failure(definedParameterTypes.error);
      }
      CompileStepsWellFormed(engine, parameterTypeRegistry, undefinedParameterTypes, steps);
      var definedSteps := BuildSteps();
      if definedSteps.Failure? {
        return Failure(definedSteps.error);
      }
      var undefinedTypes := BuildUndefinedParameterTypes(undefinedParameterTypes);
      var before := BuildTestCaseHooks(engine, beforeHooks, BEFORE_TEST_CASE);
      if before.Failure? {
        return Failure(before.error);
      }
      var after := BuildTestCaseHooks(engine, afterHooks, AFTER_TEST_CASE);
      if after.Failure? {
        return Failure(after.error);
      }
      var beforeAll := BuildTestRunHooks(beforeAllHooks, BEFORE_TEST_RUN);
      var afterAll := BuildTestRunHooks(afterAllHooks, AFTER_TEST_RUN);
      r := Success(Library(definedParameterTypes.value, definedSteps.value, undefinedTypes, before.value, after.value));
    }
  }
}
