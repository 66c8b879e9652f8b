/**
 Parsed PassThru expressions, and the construction of a PTDisconnect
 expression from the output of its regular expression. The regular
 expression engine and the base class's property setter are not modelled:
 their results are inputs.
 */
module PassThruExpressions {
  import opened Base

  /** The kind of command an expression was parsed as; NONE marks an unclassified block. */
  datatype ExpressionType = NONE | PTDisconnect | OtherCommand(name: string)

  /** One reflected field of an expression: its member name and its string value. */
  datatype Field = Field(name: string, value: string)

  /** An expression: its kind, the log text it came from, and its fields in declaration order. */
  datatype Expression = Expression(typeOfExpression: ExpressionType, commandLines: string, fields: seq<Field>)

  /** What `PassThruRegex.Evaluate` reports: whether the pattern matched, and the group strings (index 0 is the whole match). */
  datatype RegexEvaluation = RegexEvaluation(matched: bool, strings: seq<string>)

  datatype ExpressionError =
    | CaptureIndexOutOfRange(index: int) // indexing the group strings throws IndexOutOfRangeException
    | SetPropertiesFailed                // the property setter reported failure: InvalidOperationException

  /** The member names of a PTDisconnect expression, and the declared default of its channel id. */
  const DisconnectFieldNames: seq<string> := ["PtCommand", "ChannelId"]
  const DisconnectChannelIdDefault: string := "-1"

  // ---------------------------------------------------------------------------
  // Capture selection as written: keep an index when it is at most the number of strings

  /** The configured group indices the source keeps: those with `index <= limit`, in order. */
  function KeptIndices(groups: seq<int>, limit: nat): (r: seq<int>)
    ensures |r| <= |groups|
    ensures forall j :: 0 <= j < |r| ==> r[j] <= limit && r[j] in groups
  {
    if |groups| == 0 then []
    else if groups[0] <= limit then [groups[0]] + KeptIndices(groups[1..], limit)
    else KeptIndices(groups[1..], limit)
  }

  /** Every kept index names an existing group string. */
  predicate KeptInRange(groups: seq<int>, count: nat) {
    forall j :: 0 <= j < |groups| && groups[j] <= count ==> 0 <= groups[j] < count
  }

  /**
   The group strings appended after the whole match: `strings[i]` for each kept
   index `i`, in configured order; the first kept index outside the array throws.
   */
  function AppendedCaptures(strings: seq<string>, groups: seq<int>): (r: Result<seq<string>, ExpressionError>)
    ensures r.Success? <==> KeptInRange(groups, |strings|)
    ensures r.Failure? ==> r.error.CaptureIndexOutOfRange?
    ensures r.Success? ==> |r.value| == |KeptIndices(groups, |strings|)|
    ensures r.Success? ==> forall j :: 0 <= j < |r.value| ==>
              0 <= KeptIndices(groups, |strings|)[j] < |strings| && r.value[j] == strings[KeptIndices(groups, |strings|)[j]]
  {
    if |groups| == 0 then Success([])
    else
      var i := groups[0];
      assert forall j :: 1 <= j < |groups| ==> groups[j] == groups[1..][j - 1];
      if i <= |strings| then
        if 0 <= i < |strings| then
          var rest :- AppendedCaptures(strings, groups[1..]);
          Success([strings[i]] + rest)
        else Failure(CaptureIndexOutOfRange(i))
      else AppendedCaptures(strings, groups[1..])
  }

  /** The value list the constructor applies: the whole match, then the selected group strings. */
  function CaptureValues(strings: seq<string>, groups: seq<int>): (r: Result<seq<string>, ExpressionError>)
    ensures r.Success? <==> |strings| > 0 && KeptInRange(groups, |strings|)
    ensures r.Failure? ==> r.error.CaptureIndexOutOfRange?
    ensures r.Success? ==> |r.value| == 1 + |KeptIndices(groups, |strings|)| && r.value[0] == strings[0]
    ensures r.Success? ==> forall j :: 0 <= j < |KeptIndices(groups, |strings|)| ==>
              0 <= KeptIndices(groups, |strings|)[j] < |strings| && r.value[j + 1] == strings[KeptIndices(groups, |strings|)[j]]
  {
    if |strings| == 0 then Failure(CaptureIndexOutOfRange(0))
    else
      var rest :- AppendedCaptures(strings, groups);
      Success([strings[0]] + rest)
  }

  /** A configured index equal to the number of group strings passes the filter and then throws. */
  lemma {:induction false} IndexAtLengthThrows(strings: seq<string>, groups: seq<int>, j: nat)
    requires j < |groups| && groups[j] == |strings|
    ensures CaptureValues(strings, groups).Failure?
  {
    assert !KeptInRange(groups, |strings|);
  }

  // ---------------------------------------------------------------------------
  // Capture selection as intended: keep an index only when it names an existing string

  function InRangeIndices(groups: seq<int>, count: nat): (r: seq<int>)
    ensures |r| <= |groups|
    ensures forall j :: 0 <= j < |r| ==> 0 <= r[j] < count && r[j] in groups
  {
    if |groups| == 0 then []
    else if 0 <= groups[0] < count then [groups[0]] + InRangeIndices(groups[1..], count)
    else InRangeIndices(groups[1..], count)
  }

  /** The corrected appended captures: `strings[i]` for each index that names an existing string. */
  function AppendedCapturesCorrected(strings: seq<string>, groups: seq<int>): (r: seq<string>)
    ensures |r| == |InRangeIndices(groups, |strings|)|
    ensures forall j :: 0 <= j < |r| ==> r[j] == strings[InRangeIndices(groups, |strings|)[j]]
  {
    if |groups| == 0 then []
    else if 0 <= groups[0] < |strings| then [strings[groups[0]]] + AppendedCapturesCorrected(strings, groups[1..])
    else AppendedCapturesCorrected(strings, groups[1..])
  }

  /** The corrected selection: fails only when there is no whole-match string at all. */
  function CaptureValuesCorrected(strings: seq<string>, groups: seq<int>): (r: Result<seq<string>, ExpressionError>)
    ensures r.Success? <==> |strings| > 0
    ensures r.Success? ==> |r.value| == 1 + |InRangeIndices(groups, |strings|)| && r.value[0] == strings[0]
    ensures r.Success? ==> forall j :: 0 <= j < |InRangeIndices(groups, |strings|)| ==>
              r.value[j + 1] == strings[InRangeIndices(groups, |strings|)[j]]
  {
    if |strings| == 0 then Failure(CaptureIndexOutOfRange(0))
    else Success([strings[0]] + AppendedCapturesCorrected(strings, groups))
  }

  /** Where the source's filter only lets in existing indices, both selections append the same strings. */
  lemma {:induction false} AppendedAgree(strings: seq<string>, groups: seq<int>)
    requires KeptInRange(groups, |strings|)
    ensures AppendedCaptures(strings, groups) == Success(AppendedCapturesCorrected(strings, groups))
    decreases |groups|
  {
    if |groups| > 0 {
      assert KeptInRange(groups[1..], |strings|) by {
        forall j | 0 <= j < |groups[1..]| && groups[1..][j] <= |strings|
          ensures 0 <= groups[1..][j] < |strings|
        {
          assert groups[1..][j] == groups[j + 1];
        }
      }
      AppendedAgree(strings, groups[1..]);
    }
  }

  /** Wherever the source's selection succeeds, the corrected selection yields the same values. */
  lemma CorrectedAgrees(strings: seq<string>, groups: seq<int>)
    requires CaptureValues(strings, groups).Success?
    ensures CaptureValuesCorrected(strings, groups) == CaptureValues(strings, groups)
  {
    AppendedAgree(strings, groups);
  }

  /** The index the source lets through is handled by the corrected selection, which simply skips it. */
  lemma CorrectedSkipsIndexAtLength(strings: seq<string>, groups: seq<int>, j: nat)
    requires |strings| > 0 && j < |groups| && groups[j] == |strings|
    ensures CaptureValues(strings, groups).Failure?
    ensures CaptureValuesCorrected(strings, groups).Success?
  {
    IndexAtLengthThrows(strings, groups, j);
  }

  // ---------------------------------------------------------------------------
  // The PTDisconnect constructor

  /**
   `new PassThruDisconnectExpression(CommandInput)`: a failed match is only
   logged; the value list is built with the selection as written, so a kept
   index outside the group strings throws, and the list is handed to the
   property setter, whose failure is an InvalidOperationException.
   */
  function NewDisconnectExpression(
    commandInput: string,
    evaluation: RegexEvaluation,
    valueGroups: seq<int>,
    setProperties: seq<string> -> Option<seq<Field>>): (r: Result<Expression, ExpressionError>)
    ensures (r.Failure? && r.error.CaptureIndexOutOfRange?) <==>
              (|evaluation.strings| == 0 || !KeptInRange(valueGroups, |evaluation.strings|))
    ensures r.Success? <==> CaptureValues(evaluation.strings, valueGroups).Success?
                            && setProperties(CaptureValues(evaluation.strings, valueGroups).value).Some?
    ensures r.Success? ==> r.value.typeOfExpression == PTDisconnect && r.value.commandLines == commandInput
    ensures r.Success? ==> Some(r.value.fields) == setProperties(CaptureValues(evaluation.strings, valueGroups).value)
    ensures r == Failure(SetPropertiesFailed) <==>
              (CaptureValues(evaluation.strings, valueGroups).Success?
               && setProperties(CaptureValues(evaluation.strings, valueGroups).value).None?)
  {
    var values :- CaptureValues(evaluation.strings, valueGroups);
    match setProperties(values)
    case None => Failure(SetPropertiesFailed)
    case Some(fields) => Success(Expression(PTDisconnect, commandInput, fields))
  }

  /** The constructor with the corrected selection: only a missing whole match is an index error. */
  function NewDisconnectExpressionCorrected(
    commandInput: string,
    evaluation: RegexEvaluation,
    valueGroups: seq<int>,
    setProperties: seq<string> -> Option<seq<Field>>): (r: Result<Expression, ExpressionError>)
    ensures (r.Failure? && r.error.CaptureIndexOutOfRange?) <==> |evaluation.strings| == 0
    ensures r.Success? <==> |evaluation.strings| > 0
                            && setProperties(CaptureValuesCorrected(evaluation.strings, valueGroups).value).Some?
    ensures r.Success? ==> r.value.typeOfExpression == PTDisconnect && r.value.commandLines == commandInput
    ensures r.Success? ==> Some(r.value.fields) == setProperties(CaptureValuesCorrected(evaluation.strings, valueGroups).value)
  {
    var values :- CaptureValuesCorrected(evaluation.strings, valueGroups);
    match setProperties(values)
    case None => Failure(SetPropertiesFailed)
    case Some(fields) => Success(Expression(PTDisconnect, commandInput, fields))
  }

  /**
   The two constructors differ only where the written selection throws: on
   every other input they build the same expression or report the same error.
   */
  lemma ConstructorsAgree(
    commandInput: string,
    evaluation: RegexEvaluation,
    valueGroups: seq<int>,
    setProperties: seq<string> -> Option<seq<Field>>)
    requires |evaluation.strings| > 0 && KeptInRange(valueGroups, |evaluation.strings|)
    ensures NewDisconnectExpression(commandInput, evaluation, valueGroups, setProperties)
            == NewDisconnectExpressionCorrected(commandInput, evaluation, valueGroups, setProperties)
  {
    CorrectedAgrees(evaluation.strings, valueGroups);
  }

  /**
   A configured group index equal to the number of group strings makes the
   constructor throw, while the corrected constructor reaches the setter.
   */
  lemma ConstructorThrowsAtLength(
    commandInput: string,
    evaluation: RegexEvaluation,
    valueGroups: seq<int>,
    setProperties: seq<string> -> Option<seq<Field>>,
    j: nat)
    requires j < |valueGroups| && valueGroups[j] == |evaluation.strings|
    ensures NewDisconnectExpression(commandInput, evaluation, valueGroups, setProperties).Failure?
    ensures NewDisconnectExpression(commandInput, evaluation, valueGroups, setProperties).error.CaptureIndexOutOfRange?
    ensures |evaluation.strings| > 0 && setProperties(CaptureValuesCorrected(evaluation.strings, valueGroups).value).Some? ==>
              NewDisconnectExpressionCorrected(commandInput, evaluation, valueGroups, setProperties).Success?
  {
    IndexAtLengthThrows(evaluation.strings, valueGroups, j);
  }
}
