/** The message of `UndefinedError` (src/UndefinedError.ts). */
module UndefinedError {

  const Prefix: string := "No matching step definitions found for text \""

  /** `No matching step definitions found for text "<text>"`: the fixed
      prefix, the text itself, and a closing double quote. */
  function Message(text: string): (m: string)
    ensures |m| == |Prefix| + |text| + 1
    ensures m[..|Prefix|] == Prefix
    ensures m[|Prefix|..|m| - 1] == text
    ensures m[|m| - 1] == '"'
  {
    Prefix + text + "\""
  }

  /** The step text can be read back from the message. */
  function TextOf(m: string): string
    requires |m| > |Prefix|
  {
    m[|Prefix|..|m| - 1]
  }

  lemma TextOfMessage(text: string)
    ensures TextOf(Message(text)) == text
  {
  }

  /** Distinct step texts give distinct messages. */
  lemma {:induction false} MessageInjective(t1: string, t2: string)
    requires Message(t1) == Message(t2)
    ensures t1 == t2
  {
    calc {
      t1;
      TextOf(Message(t1));
      TextOf(Message(t2));
      t2;
    }
  }
}

/** The message of `AmbiguousError` (src/AmbiguousError.ts). */
module AmbiguousError {
  import opened Wrappers
  import opened Types
  import opened Strings

  const HeaderStart: string := "Multiple matching step definitions found for text \""

  function Header(text: string): string {
    HeaderStart + text + "\":"
  }

  /** `${x}` of an optional string: an absent value prints as "undefined". */
  function Interpolate(s: Option<string>): string {
    s.GetOr("undefined")
  }

  /** `${location?.line ?? '?'}` */
  function LineText(location: Option<Location>): string {
    if location.Some? then NatToString(location.value.line) else "?"
  }

  /** `${location?.column ?? '?'}` */
  function ColumnText(location: Option<Location>): string {
    if location.Some? && location.value.column.Some? then NatToString(location.value.column.value) else "?"
  }

  /** The line for the match at position `index`: `<index+1>) uri:line:column`. */
  function ReferenceLine(index: nat, ref: SourceReference): string {
    NatToString(index + 1) + ") " + Interpolate(ref.uri) + ":" + LineText(ref.location) + ":" + ColumnText(ref.location)
  }

  function ReferenceLines(refs: seq<SourceReference>): (lines: seq<string>)
    ensures |lines| == |refs|
  {
    seq(|refs|, i requires 0 <= i < |refs| => ReferenceLine(i, refs[i]))
  }

  /** The header naming the step text, a newline, and one numbered line per
      matching definition. */
  function Message(text: string, refs: seq<SourceReference>): (m: string)
    ensures |m| > |Header(text)|
    ensures m[..|Header(text)| + 1] == Header(text) + "\n"
  {
    Header(text) + "\n" + Join(ReferenceLines(refs), "\n")
  }

  /** What `new AmbiguousError(step)` can be handed: an `AmbiguousStep`,
      reduced to the `pickleStep.text` and match references the constructor
      reads, or a bare string, which has no `pickleStep` property. */
  datatype ConstructorArgument =
    | StepArgument(text: string, refs: seq<SourceReference>)
    | StringArgument(s: string)

  datatype Construction = Constructed(message: string) | ThrowsTypeError

  /** The constructor as written: on a string, `step.pickleStep` is
      `undefined` and reading its `text` throws a TypeError before any
      message is built. */
  function ConstructAsWritten(arg: ConstructorArgument): (c: Construction)
    ensures c.Constructed? <==> arg.StepArgument?
    ensures arg.StepArgument? ==> c.message == Message(arg.text, arg.refs)
  {
    match arg
    case StepArgument(text, refs) => Constructed(Message(text, refs))
    case StringArgument(_) => ThrowsTypeError
  }

  predicate NoNewline(s: string) {
    '\n' !in s
  }

  lemma ReferenceLineHasNoNewline(index: nat, ref: SourceReference)
    requires NoNewline(Interpolate(ref.uri))
    ensures NoNewline(ReferenceLine(index, ref))
  {
    var n := NatToString(index + 1);
    assert forall i :: 0 <= i < |n| ==> IsDigit(n[i]);
    var l, c := LineText(ref.location), ColumnText(ref.location);
    assert forall i :: 0 <= i < |l| ==> l[i] == '?' || IsDigit(l[i]);
    assert forall i :: 0 <= i < |c| ==> c[i] == '?' || IsDigit(c[i]);
  }

  /** After the header and its newline, the message splits at newlines into
      exactly one line per match, in match order, provided no uri contains a
      newline. */
  lemma MessageLines(text: string, refs: seq<SourceReference>)
    requires |refs| > 0
    requires forall i :: 0 <= i < |refs| ==> NoNewline(Interpolate(refs[i].uri))
    ensures Split(Message(text, refs)[|Header(text)| + 1..], '\n') == ReferenceLines(refs)
  {
    var lines := ReferenceLines(refs);
    forall i | 0 <= i < |lines| ensures '\n' !in lines[i] {
      ReferenceLineHasNoNewline(i, refs[i]);
    }
    SplitJoin(lines, '\n');
    assert Message(text, refs)[|Header(text)| + 1..] == Join(lines, ['\n']);
  }

  /** A reference without a location prints "?" for both line and column. */
  lemma MissingLocationLine(index: nat, uri: Option<string>)
    ensures ReferenceLine(index, SourceReference(uri, None))
         == NatToString(index + 1) + ") " + Interpolate(uri) + ":?:?"
  {
  }

  /** The line number printed for a match is its one-based position. */
  lemma LineNumbering(refs: seq<SourceReference>, i: nat)
    requires i < |refs|
    ensures var n := NatToString(i + 1);
      var line := ReferenceLines(refs)[i];
      && |line| > |n| + 1 && line[..|n| + 2] == n + ") "
      && ParseNat(n) == i + 1
  {
    ParseNatToString(i + 1);
  }
}
