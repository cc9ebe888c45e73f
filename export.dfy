/**
 * generate_formatted_output in main.py: the questions written as a text file
 * of `@tag` lines. The model is the sequence of texts passed to `f.write`, in
 * order; the file holds their concatenation. A text may hold several physical
 * lines (a counting question embeds its table).
 */
module Export {
  import opened Wrappers
  import opened PyText
  import opened SeqFacts
  import opened Questions

  const Title: string := "@title " + "Middle School Mathematics Problem Solving Assessment\n"
  const Description: string :=
    "@description " + "This assessment contains multiple-choice questions designed to test students' problem-solving abilities in counting arrangements and geometric spatial reasoning.\n\n"

  const MarkedTag: string := "@@option "
  const OptionTag: string := "@option "

  /** The two writes before any question: the title, and the description followed by a blank line. */
  function Preamble(): seq<string> {
    [Title, Description]
  }

  /** One option's write: the correct one carries the doubled tag. */
  function OptionWrite(option: string, marked: bool): string {
    (if marked then MarkedTag else OptionTag) + option + "\n"
  }

  /** The option writes, in the order of the options. */
  function OptionWrites(options: seq<string>, correctIndex: int): (ws: seq<string>)
    ensures |ws| == |options|
  {
    if |options| == 0 then []
    else
      var n := |options| - 1;
      OptionWrites(options[..n], correctIndex) + [OptionWrite(options[n], n == correctIndex)]
  }

  /** The write for option j marks it exactly when j is the correct index. */
  lemma {:induction false} OptionWriteAt(options: seq<string>, correctIndex: int, j: nat)
    requires j < |options|
    ensures OptionWrites(options, correctIndex)[j] == OptionWrite(options[j], j == correctIndex)
  {
    var n := |options| - 1;
    if j < n {
      OptionWriteAt(options[..n], correctIndex, j);
    }
  }

  /** The writes before the options: the question, instruction, difficulty and order number. */
  function BlockHead(q: Question, order: int): seq<string> {
    ["@question " + q.question + "\n",
     "@instruction Choose the correct answer.\n",
     "@difficulty moderate\n",
     "@Order " + IntToString(order) + "\n"]
  }

  /** The writes after the options, ending with a blank line. */
  function BlockTail(q: Question): seq<string> {
    ["@explanation\n",
     q.explanation + "\n",
     "@subject " + q.subject + "\n",
     "@unit " + q.unit + "\n",
     "@topic " + q.topic + "\n",
     "@plusmarks 1\n\n"]
  }

  /** Everything written for the question numbered `order`. */
  function Block(q: Question, order: int): seq<string> {
    BlockHead(q, order) + OptionWrites(q.options, q.correctIndex) + BlockTail(q)
  }

  /** The blocks of `enumerate(questions, 1)`, in order. */
  function Blocks(qs: seq<Question>): seq<string> {
    if |qs| == 0 then [] else Blocks(qs[..|qs| - 1]) + Block(qs[|qs| - 1], |qs|)
  }

  /** Every write of the export, in order. */
  function FormattedOutput(qs: seq<Question>): seq<string> {
    Preamble() + Blocks(qs)
  }

  /** The text of the written file. */
  function Concat(ws: seq<string>): string {
    if |ws| == 0 then "" else Concat(ws[..|ws| - 1]) + ws[|ws| - 1]
  }

  /** The inner loop: one write per option, the correct one tagged `@@option`. */
  method WriteOptions(options: seq<string>, correctIndex: int) returns (writes: seq<string>)
    ensures writes == OptionWrites(options, correctIndex)
  {
    writes := [];
    for j := 0 to |options|
      invariant writes == OptionWrites(options[..j], correctIndex)
    {
      assert options[..j + 1][..j] == options[..j];
      if j == correctIndex {
        writes := writes + ["@@option " + options[j] + "\n"];
      } else {
        writes := writes + ["@option " + options[j] + "\n"];
      }
    }
    assert options[..|options|] == options;
  }

  /** The body of the outer loop: the writes for the question numbered `order`. */
  method WriteBlock(q: Question, order: int) returns (writes: seq<string>)
    ensures writes == Block(q, order)
  {
    writes := ["@question " + q.question + "\n"];
    writes := writes + ["@instruction Choose the correct answer.\n"];
    writes := writes + ["@difficulty moderate\n"];
    writes := writes + ["@Order " + IntToString(order) + "\n"];
    assert writes == BlockHead(q, order);
    var options := WriteOptions(q.options, q.correctIndex);
    writes := writes + options;
    ghost var body := writes;
    writes := writes + ["@explanation\n"];
    writes := writes + [q.explanation + "\n"];
    writes := writes + ["@subject " + q.subject + "\n"];
    writes := writes + ["@unit " + q.unit + "\n"];
    writes := writes + ["@topic " + q.topic + "\n"];
    writes := writes + ["@plusmarks 1\n\n"];
    assert writes == body + BlockTail(q);
  }

  /** The writes `generate_formatted_output` makes: the preamble, then one block per question. */
  method WriteFormattedOutput(qs: seq<Question>) returns (writes: seq<string>)
    ensures writes == FormattedOutput(qs)
  {
    writes := [Title, Description];
    for i := 0 to |qs|
      invariant writes == Preamble() + Blocks(qs[..i])
    {
      var block := WriteBlock(qs[i], i + 1);
      BlocksStep(qs, i);
      AppendAssoc(Preamble(), Blocks(qs[..i]), block);
      writes := writes + block;
    }
    assert qs[..|qs|] == qs;
  }

  // ---------------------------------------------------------------------------
  // Layout

  /** The number of writes for one question: ten fixed ones and one per option. */
  function BlockSize(q: Question): nat {
    10 + |q.options|
  }

  /** The number of writes for the questions before position k. */
  function Offset(qs: seq<Question>, k: nat): nat
    requires k <= |qs|
  {
    if k == 0 then 0 else Offset(qs, k - 1) + BlockSize(qs[k - 1])
  }

  lemma {:induction false} OffsetOfPrefix(qs: seq<Question>, m: nat, k: nat)
    requires k <= m <= |qs|
    ensures Offset(qs[..m], k) == Offset(qs, k)
  {
    if k > 0 {
      OffsetOfPrefix(qs, m, k - 1);
      assert qs[..m][k - 1] == qs[k - 1];
    }
  }

  lemma {:induction false} BlocksLength(qs: seq<Question>)
    ensures |Blocks(qs)| == Offset(qs, |qs|)
  {
    if |qs| > 0 {
      var n := |qs| - 1;
      BlocksLength(qs[..n]);
      OffsetOfPrefix(qs, n, n);
    }
  }

  /** The blocks of the first m questions begin the blocks of all of them. */
  lemma {:induction false} BlocksPrefix(qs: seq<Question>, m: nat)
    requires m <= |qs|
    ensures Blocks(qs[..m]) <= Blocks(qs)
  {
    if m < |qs| {
      var n := |qs| - 1;
      BlocksPrefix(qs[..n], m);
      assert qs[..n][..m] == qs[..m];
    } else {
      assert qs[..m] == qs;
    }
  }

  /** The export holds the two preamble writes and then the blocks, one per question. */
  lemma OutputLength(qs: seq<Question>)
    ensures |FormattedOutput(qs)| == 2 + Offset(qs, |qs|)
    ensures FormattedOutput(qs)[..2] == [Title, Description]
  {
    BlocksLength(qs);
  }

  lemma BlockLength(q: Question, order: int)
    ensures |Block(q, order)| == BlockSize(q)
  {
  }

  lemma BlocksStep(qs: seq<Question>, k: nat)
    requires k < |qs|
    ensures Blocks(qs[..k + 1]) == Blocks(qs[..k]) + Block(qs[k], k + 1)
  {
    assert qs[..k + 1][..k] == qs[..k];
  }

  lemma Nested<T>(out: seq<T>, pre: seq<T>, all: seq<T>, before: seq<T>, block: seq<T>)
    requires out == pre + all && before + block <= all
    ensures |pre| + |before| + |block| <= |out|
    ensures out[|pre| + |before|..|pre| + |before| + |block|] == block
  {
    var start := |pre| + |before|;
    forall i | 0 <= i < |block|
      ensures out[start + i] == block[i]
    {
      assert out[start + i] == all[|before| + i] == (before + block)[|before| + i];
    }
  }

  /** Question k's block sits right after the preamble and the blocks before it. */
  lemma {:induction false} BlockAt(qs: seq<Question>, k: nat)
    requires k < |qs|
    ensures 2 + Offset(qs, k) + BlockSize(qs[k]) <= |FormattedOutput(qs)|
    ensures FormattedOutput(qs)[2 + Offset(qs, k)..2 + Offset(qs, k) + BlockSize(qs[k])] == Block(qs[k], k + 1)
  {
    var before := Blocks(qs[..k]);
    var block := Block(qs[k], k + 1);
    assert |before| == Offset(qs, k) by {
      BlocksLength(qs[..k]);
      OffsetOfPrefix(qs, k, k);
    }
    assert |block| == BlockSize(qs[k]) by {
      BlockLength(qs[k], k + 1);
    }
    assert before + block <= Blocks(qs) by {
      BlocksPrefix(qs, k + 1);
      BlocksStep(qs, k);
    }
    Nested(FormattedOutput(qs), Preamble(), Blocks(qs), before, block);
  }

  /** The order write states k + 1, and int() reads it back. */
  lemma OrderReadsBack(q: Question, order: int)
    ensures var w := Block(q, order)[3];
      StartsWith(w, "@Order ") && ParseInt(w[7..]) == Some(order)
  {
    var w := Block(q, order)[3];
    assert w == "@Order " + IntToString(order) + "\n";
    assert w[7..] == "" + IntToString(order) + "\n";
    ParseIntOfString("", order, "\n");
  }

  // ---------------------------------------------------------------------------
  // The marked option

  predicate IsMarked(w: string) {
    StartsWith(w, MarkedTag)
  }

  /** How many writes carry the correct-option tag. */
  function CountMarked(ws: seq<string>): nat {
    if |ws| == 0 then 0 else CountMarked(ws[..|ws| - 1]) + (if IsMarked(ws[|ws| - 1]) then 1 else 0)
  }

  lemma {:induction false} CountMarkedAppend(a: seq<string>, b: seq<string>)
    ensures CountMarked(a + b) == CountMarked(a) + CountMarked(b)
    decreases |b|
  {
    if |b| == 0 {
      assert a + b == a;
    } else {
      var n := |b| - 1;
      CountMarkedAppend(a, b[..n]);
      assert (a + b)[..|a + b| - 1] == a + b[..n];
      assert (a + b)[|a + b| - 1] == b[n];
    }
  }

  lemma OptionWriteMarked(option: string, marked: bool)
    ensures IsMarked(OptionWrite(option, marked)) <==> marked
  {
    var w := OptionWrite(option, marked);
    if !marked {
      assert w[1] == 'o';
    }
  }

  /**
   * Among the option writes, the one at the correct index, and no other, is
   * tagged `@@option`: exactly one when the index is in range, none otherwise.
   */
  lemma {:induction false} MarkedOptions(options: seq<string>, correctIndex: int)
    ensures forall j :: 0 <= j < |options| ==>
      (IsMarked(OptionWrites(options, correctIndex)[j]) <==> j == correctIndex)
    ensures CountMarked(OptionWrites(options, correctIndex)) ==
      if 0 <= correctIndex < |options| then 1 else 0
  {
    var ws := OptionWrites(options, correctIndex);
    forall j | 0 <= j < |options|
      ensures IsMarked(ws[j]) <==> j == correctIndex
    {
      OptionWriteAt(options, correctIndex, j);
      OptionWriteMarked(options[j], j == correctIndex);
    }
    if |options| > 0 {
      var n := |options| - 1;
      MarkedOptions(options[..n], correctIndex);
      assert ws[..n] == OptionWrites(options[..n], correctIndex);
    }
  }

  /** The option text an option write carries, and whether it is marked. */
  function ReadOption(w: string): (string, bool) {
    if StartsWith(w, MarkedTag) && |w| > |MarkedTag| then (w[|MarkedTag|..|w| - 1], true)
    else if StartsWith(w, OptionTag) && |w| > |OptionTag| then (w[|OptionTag|..|w| - 1], false)
    else (w, false)
  }

  /** Reading the option writes gives back the options and which one is correct. */
  lemma OptionsReadBack(options: seq<string>, correctIndex: int)
    ensures forall j :: 0 <= j < |options| ==>
      ReadOption(OptionWrites(options, correctIndex)[j]) == (options[j], j == correctIndex)
  {
    forall j | 0 <= j < |options|
      ensures ReadOption(OptionWrites(options, correctIndex)[j]) == (options[j], j == correctIndex)
    {
      var w := OptionWrite(options[j], j == correctIndex);
      OptionWriteAt(options, correctIndex, j);
      OptionWriteMarked(options[j], j == correctIndex);
      if j == correctIndex {
        assert w[|MarkedTag|..|w| - 1] == options[j];
      } else {
        assert w[|OptionTag|..|w| - 1] == options[j];
      }
    }
  }

  lemma {:induction false} CountMarkedNone(ws: seq<string>)
    requires forall k :: 0 <= k < |ws| ==> !IsMarked(ws[k])
    ensures CountMarked(ws) == 0
  {
    if |ws| > 0 {
      CountMarkedNone(ws[..|ws| - 1]);
    }
  }

  /** A write whose second character is not `@` is not marked. */
  lemma UnmarkedBySecondChar(w: string)
    requires |w| >= 2 && w[1] != '@'
    ensures !IsMarked(w)
  {
  }

  /** An explanation that does not start with the tag does not get it from its newline. */
  lemma ExplanationUnmarked(e: string)
    requires !StartsWith(e, MarkedTag)
    ensures !IsMarked(e + "\n")
  {
    var w := e + "\n";
    if |e| >= |MarkedTag| {
      assert w[..|MarkedTag|] == e[..|MarkedTag|];
    } else if |w| >= |MarkedTag| {
      assert w[|e|] == '\n' && MarkedTag[|e|] == ' ';
      assert w[..|MarkedTag|][|e|] != MarkedTag[|e|];
    }
  }

  lemma HeadUnmarked(q: Question, order: int)
    ensures CountMarked(BlockHead(q, order)) == 0
  {
    var head := BlockHead(q, order);
    assert |head| == 4;
    forall k | 0 <= k < 4
      ensures !IsMarked(head[k])
    {
      var w := head[k];
      var pre := if k == 0 then "@question " else if k == 1 then "@instruction Choose the correct answer.\n"
        else if k == 2 then "@difficulty moderate\n" else "@Order ";
      assert w[..|pre|] == pre;
      assert w[1] == pre[1];
      UnmarkedBySecondChar(w);
    }
    CountMarkedNone(head);
  }

  lemma TailUnmarked(q: Question)
    requires !StartsWith(q.explanation, MarkedTag)
    ensures CountMarked(BlockTail(q)) == 0
  {
    var tail := BlockTail(q);
    UnmarkedBySecondChar(tail[0]);
    ExplanationUnmarked(q.explanation);
    UnmarkedBySecondChar(tail[2]);
    UnmarkedBySecondChar(tail[3]);
    UnmarkedBySecondChar(tail[4]);
    UnmarkedBySecondChar(tail[5]);
    CountMarkedNone(tail);
  }

  /** Outside the options, only an explanation that itself starts with the tag is marked. */
  lemma BlockMarked(q: Question, order: int)
    requires !StartsWith(q.explanation, MarkedTag)
    ensures CountMarked(Block(q, order)) == if 0 <= q.correctIndex < |q.options| then 1 else 0
  {
    var head := BlockHead(q, order);
    var tail := BlockTail(q);
    HeadUnmarked(q, order);
    TailUnmarked(q);
    MarkedOptions(q.options, q.correctIndex);
    CountMarkedAppend(head, OptionWrites(q.options, q.correctIndex));
    CountMarkedAppend(head + OptionWrites(q.options, q.correctIndex), tail);
  }

  /** How many questions have a correct index among their options. */
  function CountAnswerable(qs: seq<Question>): nat {
    if |qs| == 0 then 0
    else CountAnswerable(qs[..|qs| - 1]) + (if 0 <= qs[|qs| - 1].correctIndex < |qs[|qs| - 1].options| then 1 else 0)
  }

  /**
   * The whole export marks one option per question whose correct index is in
   * range, and nothing else, as long as no explanation starts with the tag.
   */
  lemma {:induction false} OutputMarked(qs: seq<Question>)
    requires forall k :: 0 <= k < |qs| ==> !StartsWith(qs[k].explanation, MarkedTag)
    ensures CountMarked(FormattedOutput(qs)) == CountAnswerable(qs)
  {
    BlocksMarked(qs);
    CountMarkedAppend(Preamble(), Blocks(qs));
    PreambleUnmarked();
  }

  lemma PreambleUnmarked()
    ensures CountMarked(Preamble()) == 0
  {
    UnmarkedBySecondChar(Title);
    UnmarkedBySecondChar(Description);
    CountMarkedNone(Preamble());
  }

  lemma {:induction false} BlocksMarked(qs: seq<Question>)
    requires forall k :: 0 <= k < |qs| ==> !StartsWith(qs[k].explanation, MarkedTag)
    ensures CountMarked(Blocks(qs)) == CountAnswerable(qs)
  {
    if |qs| > 0 {
      var n := |qs| - 1;
      BlocksMarked(qs[..n]);
      BlockMarked(qs[n], |qs|);
      CountMarkedAppend(Blocks(qs[..n]), Block(qs[n], |qs|));
    }
  }

  // ---------------------------------------------------------------------------
  // The file text

  lemma {:induction false} ConcatAppend(a: seq<string>, b: seq<string>)
    ensures Concat(a + b) == Concat(a) + Concat(b)
    decreases |b|
  {
    if |b| == 0 {
      assert a + b == a;
    } else {
      var n := |b| - 1;
      ConcatAppend(a, b[..n]);
      assert (a + b)[..|a + b| - 1] == a + b[..n];
      assert (a + b)[|a + b| - 1] == b[n];
      assert Concat(a + b) == Concat(a + b[..n]) + b[n];
      AppendAssoc(Concat(a), Concat(b[..n]), b[n]);
    }
  }

  lemma StartsWithAppend(a: string, b: string)
    ensures StartsWith(a + b, a)
  {
    assert (a + b)[..|a|] == a;
  }

  lemma ConcatPair(a: string, b: string)
    ensures Concat([a, b]) == a + b
  {
    assert [a][..0] == [];
    assert Concat([a]) == "" + a == a;
    assert [a, b][..1] == [a];
    assert Concat([a, b]) == Concat([a]) + b;
  }

  /** The file opens with the title line, the description line and a blank line. */
  lemma FileOpening(qs: seq<Question>)
    ensures StartsWith(Concat(FormattedOutput(qs)), Title + Description)
  {
    ConcatAppend(Preamble(), Blocks(qs));
    ConcatPair(Title, Description);
    StartsWithAppend(Title + Description, Concat(Blocks(qs)));
  }
}
