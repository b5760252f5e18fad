/**
 The formatting-change collector behind the reformat inspection: a formatting
 model that records the changes the formatter asks for instead of applying
 them, and the test that lets a whitespace change through when it only alters
 blank lines.
 */
module Reformat {
  import opened Opt
  import opened KotlinText

  datatype TextRange = TextRange(startOffset: int, endOffset: int)

  /** The identity of a syntax-tree node. */
  type AstNode = nat

  datatype FormattingChange =
    | ShiftIndentInsideRange(node: Option<AstNode>, range: TextRange, indent: int)
    | ReplaceWhiteSpace(textRange: TextRange, whiteSpace: string)

  /** `CollectChangesWithoutApplyModel`: only the set of requested changes is modelled. */
  datatype CollectChangesWithoutApplyModel = CollectChangesWithoutApplyModel(changes: set<FormattingChange>)

  const EmptyModel := CollectChangesWithoutApplyModel({})

  function RequestedChanges(m: CollectChangesWithoutApplyModel): set<FormattingChange>
  {
    m.changes
  }

  /** `changes.add(change)` on the backing `HashSet`. */
  function Record(m: CollectChangesWithoutApplyModel, change: FormattingChange): (r: CollectChangesWithoutApplyModel)
    ensures change in RequestedChanges(r)
    ensures RequestedChanges(m) <= RequestedChanges(r)
    ensures RequestedChanges(r) - RequestedChanges(m) <= {change}
  {
    m.(changes := m.changes + {change})
  }

  /** `shiftIndentInsideRange`: records the change and hands back the range untouched. */
  function ShiftIndent(m: CollectChangesWithoutApplyModel, node: Option<AstNode>, range: TextRange, indent: int)
    : (r: (CollectChangesWithoutApplyModel, TextRange))
    ensures r.1 == range
    ensures RequestedChanges(r.0) - RequestedChanges(m) <= {ShiftIndentInsideRange(node, range, indent)}
    ensures ShiftIndentInsideRange(node, range, indent) in RequestedChanges(r.0)
    ensures RequestedChanges(m) <= RequestedChanges(r.0)
  {
    (Record(m, ShiftIndentInsideRange(node, range, indent)), range)
  }

  /** `replaceWhiteSpace`: records the change and hands back the range untouched. */
  function ReplaceWhiteSpaceIn(m: CollectChangesWithoutApplyModel, textRange: TextRange, whiteSpace: string)
    : (r: (CollectChangesWithoutApplyModel, TextRange))
    ensures r.1 == textRange
    ensures RequestedChanges(r.0) - RequestedChanges(m) <= {ReplaceWhiteSpace(textRange, whiteSpace)}
    ensures ReplaceWhiteSpace(textRange, whiteSpace) in RequestedChanges(r.0)
    ensures RequestedChanges(m) <= RequestedChanges(r.0)
  {
    (Record(m, ReplaceWhiteSpace(textRange, whiteSpace)), textRange)
  }

  /** `commitChanges` does nothing. */
  function CommitChanges(m: CollectChangesWithoutApplyModel): (r: CollectChangesWithoutApplyModel)
    ensures RequestedChanges(r) == RequestedChanges(m)
  {
    m
  }

  /** A call the formatter makes on the model. */
  datatype ModelCall =
    | ShiftIndentCall(node: Option<AstNode>, range: TextRange, indent: int)
    | ReplaceWhiteSpaceCall(textRange: TextRange, whiteSpace: string)
    | CommitCall

  function Perform(m: CollectChangesWithoutApplyModel, call: ModelCall): CollectChangesWithoutApplyModel
  {
    match call
    case ShiftIndentCall(node, range, indent) => ShiftIndent(m, node, range, indent).0
    case ReplaceWhiteSpaceCall(textRange, whiteSpace) => ReplaceWhiteSpaceIn(m, textRange, whiteSpace).0
    case CommitCall => CommitChanges(m)
  }

  /** A whole formatting pass: the calls performed in order. */
  function Replay(m: CollectChangesWithoutApplyModel, calls: seq<ModelCall>): CollectChangesWithoutApplyModel
    decreases |calls|
  {
    if |calls| == 0 then m else Replay(Perform(m, calls[0]), calls[1..])
  }

  /** The change a recording call asks for. */
  function ChangeOf(call: ModelCall): FormattingChange
    requires !call.CommitCall?
  {
    match call
    case ShiftIndentCall(node, range, indent) => ShiftIndentInsideRange(node, range, indent)
    case ReplaceWhiteSpaceCall(textRange, whiteSpace) => ReplaceWhiteSpace(textRange, whiteSpace)
  }

  /** The changes asked for by the recording calls among `calls`. */
  function AskedFor(calls: seq<ModelCall>): set<FormattingChange>
  {
    set call | call in calls && !call.CommitCall? :: ChangeOf(call)
  }

  /**
   After a formatting pass the model holds exactly the changes asked for, so
   neither the order of the calls nor repeated calls make a difference.
   */
  lemma {:induction false} ReplayCollectsAskedFor(m: CollectChangesWithoutApplyModel, calls: seq<ModelCall>)
    ensures RequestedChanges(Replay(m, calls)) == RequestedChanges(m) + AskedFor(calls)
    decreases |calls|
  {
    if |calls| > 0 {
      ReplayCollectsAskedFor(Perform(m, calls[0]), calls[1..]);
      assert calls == [calls[0]] + calls[1..];
      assert AskedFor(calls) == AskedFor([calls[0]]) + AskedFor(calls[1..]);
      if calls[0].CommitCall? {
        assert AskedFor([calls[0]]) == {};
      } else {
        assert AskedFor([calls[0]]) == {ChangeOf(calls[0])};
      }
      assert RequestedChanges(Perform(m, calls[0])) == RequestedChanges(m) + AskedFor([calls[0]]);
    }
  }

  /** Recording a change twice is recording it once. */
  lemma RecordTwiceIsRecordOnce(m: CollectChangesWithoutApplyModel, change: FormattingChange)
    ensures Record(Record(m, change), change) == Record(m, change)
  {
  }

  /** Two passes that ask for the same changes leave the same set, whatever the order or repetitions. */
  lemma ReplayOrderIrrelevant(m: CollectChangesWithoutApplyModel, calls: seq<ModelCall>, calls': seq<ModelCall>)
    requires forall call :: call in calls <==> call in calls'
    ensures Replay(m, calls) == Replay(m, calls')
  {
    ReplayCollectsAskedFor(m, calls);
    ReplayCollectsAskedFor(m, calls');
    assert AskedFor(calls) == AskedFor(calls');
  }

  /** A commit anywhere in a pass changes nothing. */
  lemma CommitIsTransparent(m: CollectChangesWithoutApplyModel, before: seq<ModelCall>, after: seq<ModelCall>)
    ensures Replay(m, before + [CommitCall] + after) == Replay(m, before + after)
  {
    var calls, calls' := before + [CommitCall] + after, before + after;
    ReplayCollectsAskedFor(m, calls);
    ReplayCollectsAskedFor(m, calls');
    assert AskedFor(calls) == AskedFor(calls');
  }

  /** Whitespace strings that differ only inside their blank lines: same line count and same last line. */
  predicate SameLinesAndIndent(text: string, replacedWith: string)
  {
    && Count(text, '\n') == Count(replacedWith, '\n')
    && SubstringAfterLast(text, '\n') == SubstringAfterLast(replacedWith, '\n')
  }

  /** `ReformatInspection.isEmptyLineReformat`, over the text of the whitespace element. */
  function IsEmptyLineReformat(whitespaceText: string, change: FormattingChange): (r: bool)
    ensures change.ShiftIndentInsideRange? ==> !r
    ensures r ==> Count(whitespaceText, '\n') == Count(change.whiteSpace, '\n')
    ensures change.ReplaceWhiteSpace? && '\n' !in whitespaceText && '\n' !in change.whiteSpace
            ==> (r <==> whitespaceText == change.whiteSpace)
    ensures r && '\n' in whitespaceText ==>
              var indent := SubstringAfterLast(whitespaceText, '\n');
              && whitespaceText == SubstringBeforeLast(whitespaceText, '\n') + "\n" + indent
              && change.whiteSpace == SubstringBeforeLast(change.whiteSpace, '\n') + "\n" + indent
  {
    match change
    case ShiftIndentInsideRange(_, _, _) => false
    case ReplaceWhiteSpace(_, replacedWith) => SameLinesAndIndent(whitespaceText, replacedWith)
  }

  /** The test is an equivalence on whitespace strings. */
  lemma SameLinesAndIndentIsEquivalence(a: string, b: string, c: string, range: TextRange)
    ensures IsEmptyLineReformat(a, ReplaceWhiteSpace(range, a))
    ensures IsEmptyLineReformat(a, ReplaceWhiteSpace(range, b)) <==> IsEmptyLineReformat(b, ReplaceWhiteSpace(range, a))
    ensures IsEmptyLineReformat(a, ReplaceWhiteSpace(range, b)) && IsEmptyLineReformat(b, ReplaceWhiteSpace(range, c))
            ==> IsEmptyLineReformat(a, ReplaceWhiteSpace(range, c))
  {
  }

  /**
   Changing only what comes before the last line break, while keeping the number
   of line breaks, is an empty-line reformat.
   */
  lemma BlankLineChangeIsEmptyLineReformat(p: string, q: string, indent: string, range: TextRange)
    requires Count(p, '\n') == Count(q, '\n')
    requires '\n' !in indent
    ensures IsEmptyLineReformat(p + "\n" + indent, ReplaceWhiteSpace(range, q + "\n" + indent))
  {
    SubstringAfterLastOfSuffix(p, indent, '\n');
    SubstringAfterLastOfSuffix(q, indent, '\n');
    CountConcat(p + "\n", indent, '\n');
    CountConcat(p, "\n", '\n');
    CountConcat(q + "\n", indent, '\n');
    CountConcat(q, "\n", '\n');
  }

  /** A different indentation after the last line break is always reported. */
  lemma IndentChangeIsReported(p: string, q: string, indent: string, indent': string, range: TextRange)
    requires '\n' !in indent && '\n' !in indent' && indent != indent'
    ensures !IsEmptyLineReformat(p + "\n" + indent, ReplaceWhiteSpace(range, q + "\n" + indent'))
  {
    SubstringAfterLastOfSuffix(p, indent, '\n');
    SubstringAfterLastOfSuffix(q, indent', '\n');
  }
}
