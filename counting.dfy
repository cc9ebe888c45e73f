/**
 * MathQuestionGenerator.generate_counting_question: a counting question built
 * from a scenario whose components each offer a list of options. The answer is
 * the product of the list lengths (the fundamental counting principle); the
 * question shows the options as a Markdown table; the five choices are the
 * answer and four distractors in shuffled order.
 */
module Counting {
  import opened Wrappers
  import opened PyText
  import opened PyList
  import opened Questions

  /** A counting scenario: for each component, the list of options it offers. */
  datatype CountingContext = CountingContext(
    scenario: string,
    item: string,
    components: seq<string>,
    componentOptions: seq<seq<string>>)

  /** The counting contexts the generator is built with. */
  const CountingContexts: seq<CountingContext> := [
    CountingContext(
      "pizza restaurant",
      "pizza",
      ["size", "crust", "topping"],
      [["Small", "Medium", "Large"],
       ["Thin", "Thick", "Stuffed"],
       ["Pepperoni", "Mushroom", "Sausage"]])
  ]

  const Unit: string := "Data Analysis & Probability"
  const Topic: string := "Counting & Arrangement Problems"

  // ---------------------------------------------------------------------------
  // The answer

  /** `[len(opts) for opts in ctx["component_options"]]` */
  function Lengths<T>(lists: seq<seq<T>>): (r: seq<nat>)
    ensures |r| == |lists|
    ensures forall j :: 0 <= j < |lists| ==> r[j] == |lists[j]|
  {
    seq(|lists|, j requires 0 <= j < |lists| => |lists[j]|)
  }

  function Product(xs: seq<nat>): nat {
    if |xs| == 0 then 1 else Product(xs[..|xs| - 1]) * xs[|xs| - 1]
  }

  function Sum(xs: seq<nat>): nat {
    if |xs| == 0 then 0 else Sum(xs[..|xs| - 1]) + xs[|xs| - 1]
  }

  /** A choice of one option per component, in component order. */
  ghost predicate IsCombo<T>(c: seq<T>, lists: seq<seq<T>>) {
    |c| == |lists| && forall j :: 0 <= j < |lists| ==> c[j] in lists[j]
  }

  /** Every combination, enumerated outright: an independent reference for the answer. */
  function Combos<T>(lists: seq<seq<T>>): seq<seq<T>> {
    if |lists| == 0 then [[]]
    else Extend(Combos(lists[..|lists| - 1]), lists[|lists| - 1])
  }

  /** Each prefix followed by each choice. */
  function Extend<T>(prefixes: seq<seq<T>>, choices: seq<T>): (r: seq<seq<T>>)
    ensures |r| == |prefixes| * |choices|
  {
    if |prefixes| == 0 then []
    else
      seq(|choices|, i requires 0 <= i < |choices| => prefixes[0] + [choices[i]])
        + Extend(prefixes[1..], choices)
  }

  lemma {:induction false} ExtendMembers<T>(prefixes: seq<seq<T>>, choices: seq<T>, x: seq<T>)
    ensures x in Extend(prefixes, choices) <==>
      |x| >= 1 && x[..|x| - 1] in prefixes && x[|x| - 1] in choices
  {
    if |prefixes| > 0 {
      var head := seq(|choices|, i requires 0 <= i < |choices| => prefixes[0] + [choices[i]]);
      ExtendMembers(prefixes[1..], choices, x);
      assert Extend(prefixes, choices) == head + Extend(prefixes[1..], choices);
      if x in head {
        var i :| 0 <= i < |choices| && head[i] == x;
        assert x[..|x| - 1] == prefixes[0];
      }
      if |x| >= 1 && x[..|x| - 1] == prefixes[0] && x[|x| - 1] in choices {
        var i :| 0 <= i < |choices| && choices[i] == x[|x| - 1];
        assert head[i] == x;
      }
      assert prefixes == [prefixes[0]] + prefixes[1..];
    }
  }

  /** The enumeration holds exactly the combinations. */
  lemma {:induction false} CombosAreCombinations<T>(lists: seq<seq<T>>, c: seq<T>)
    ensures c in Combos(lists) <==> IsCombo(c, lists)
  {
    if |lists| > 0 {
      var n := |lists| - 1;
      ExtendMembers(Combos(lists[..n]), lists[n], c);
      if |c| >= 1 {
        CombosAreCombinations(lists[..n], c[..|c| - 1]);
      }
      if IsCombo(c, lists) {
        assert IsCombo(c[..|c| - 1], lists[..n]);
      }
    } else {
      assert Combos(lists) == [[]];
    }
  }

  /** No element occurs twice. */
  predicate Distinct<T(==)>(s: seq<T>) {
    forall i, j :: 0 <= i < j < |s| ==> s[i] != s[j]
  }

  /** Extending distinct prefixes by distinct choices gives distinct sequences. */
  lemma {:induction false} ExtendDistinct<T>(prefixes: seq<seq<T>>, choices: seq<T>)
    requires Distinct(prefixes) && Distinct(choices)
    ensures Distinct(Extend(prefixes, choices))
  {
    if |prefixes| > 0 {
      var head := seq(|choices|, i requires 0 <= i < |choices| => prefixes[0] + [choices[i]]);
      var tail := Extend(prefixes[1..], choices);
      ExtendDistinct(prefixes[1..], choices);
      assert Extend(prefixes, choices) == head + tail;
      forall i, j | 0 <= i < j < |head + tail|
        ensures (head + tail)[i] != (head + tail)[j]
      {
        if j < |head| {
          assert head[i][|head[i]| - 1] == choices[i];
          assert head[j][|head[j]| - 1] == choices[j];
        } else if i < |head| {
          var y := tail[j - |head|];
          ExtendMembers(prefixes[1..], choices, y);
          assert head[i][..|head[i]| - 1] == prefixes[0];
          assert prefixes[0] !in prefixes[1..];
        } else {
          assert (head + tail)[i] == tail[i - |head|];
          assert (head + tail)[j] == tail[j - |head|];
        }
      }
    }
  }

  /**
   * When no component lists an option twice, the enumeration lists every
   * combination once, so its length is the number of distinct combinations.
   */
  lemma {:induction false} CombosDistinct<T>(lists: seq<seq<T>>)
    requires forall j :: 0 <= j < |lists| ==> Distinct(lists[j])
    ensures Distinct(Combos(lists))
  {
    if |lists| > 0 {
      var n := |lists| - 1;
      CombosDistinct(lists[..n]);
      ExtendDistinct(Combos(lists[..n]), lists[n]);
    }
  }

  /** The fundamental counting principle: there are as many combinations as the product of the counts. */
  lemma {:induction false} CountingPrinciple<T>(lists: seq<seq<T>>)
    ensures |Combos(lists)| == Product(Lengths(lists))
  {
    if |lists| > 0 {
      var n := |lists| - 1;
      CountingPrinciple(lists[..n]);
      assert Lengths(lists)[..n] == Lengths(lists[..n]);
    }
  }

  // ---------------------------------------------------------------------------
  // The table

  /** A Markdown row: `"| " + " | ".join(cells) + " |"`. */
  function TableRow(cells: seq<string>): string {
    "| " + Join(" | ", cells) + " |"
  }

  /** The row under the header: `"|" + " :---: |" * n`. */
  function AlignmentRow(n: int): string {
    "|" + Repeat(" :---: |", n)
  }

  /** How many rows `zip(*lists)` yields: the length of the shortest list, none for no lists. */
  function ZipLength<T>(lists: seq<seq<T>>): (n: nat)
    ensures forall j :: 0 <= j < |lists| ==> n <= |lists[j]|
    ensures |lists| > 0 ==> exists j :: 0 <= j < |lists| && n == |lists[j]|
  {
    if |lists| == 0 then 0
    else if |lists| == 1 then |lists[0]|
    else
      var m := ZipLength(lists[1..]);
      if |lists[0]| <= m then |lists[0]| else m
  }

  /** Row k of `zip(*lists)`: the k-th option of every list. */
  function ZipRow<T>(lists: seq<seq<T>>, k: nat): (row: seq<T>)
    requires k < ZipLength(lists)
    ensures |row| == |lists|
    ensures forall j :: 0 <= j < |lists| ==> row[j] == lists[j][k]
  {
    seq(|lists|, j requires 0 <= j < |lists| => lists[j][k])
  }

  /** The table's rows: header, alignment row, then one row per `zip` row. */
  function TableLines(components: seq<string>, lists: seq<seq<string>>): seq<string> {
    [TableRow(components), AlignmentRow(|components|)]
      + seq(ZipLength(lists), k requires 0 <= k < ZipLength(lists) => TableRow(ZipRow(lists, k)))
  }

  // ---------------------------------------------------------------------------
  // The question

  /** `[correct, correct+1, correct-1, correct*2, sum(counts)]` */
  function Candidates(counts: seq<nat>): seq<int> {
    var correct := Product(counts);
    [correct, correct + 1, correct - 1, correct * 2, Sum(counts)]
  }

  function Prompt(ctx: CountingContext): string {
    "A " + ctx.scenario + " offers " + Join(", ", ctx.components) + ". How many combos?\n\n"
      + Unlines(TableLines(ctx.components, ctx.componentOptions))
  }

  function Explanation(counts: seq<nat>): string {
    "Multiply: " + Join(" × ", StrAll(counts)) + " = " + IntToString(Product(counts))
  }

  /** The question generated for context ctx when the shuffle draws are `draws`. */
  function CountingQuestionOf(ctx: CountingContext, draws: seq<nat>): Question
    requires ShuffleDraws(draws, 5)
  {
    var counts := Lengths(ctx.componentOptions);
    var candidates := Candidates(counts);
    var opts := Shuffled(candidates, draws);
    ShuffledPermutes(candidates, draws);
    assert candidates[0] in multiset(opts);
    Question(
      Prompt(ctx),
      StrAll(opts),
      IndexOf(opts, Product(counts)).value,
      Explanation(counts),
      Subject, Unit, Topic,
      None)
  }

  /** `correct = 1; for c in counts: correct *= c` */
  method MultiplyCounts(counts: seq<nat>) returns (correct: nat)
    ensures correct == Product(counts)
  {
    correct := 1;
    for i := 0 to |counts|
      invariant correct == Product(counts[..i])
    {
      assert counts[..i + 1][..i] == counts[..i];
      correct := correct * counts[i];
    }
    assert counts[..|counts|] == counts;
  }

  /** The table text, grown row by row over `zip(*lists)`. */
  method BuildTable(components: seq<string>, lists: seq<seq<string>>) returns (table: string)
    ensures table == Unlines(TableLines(components, lists))
  {
    ghost var lines := TableLines(components, lists);
    table := "| " + Join(" | ", components) + " |\n";
    table := table + "|" + Repeat(" :---: |", |components|) + "\n";
    assert table == Unlines(lines[..2]) by {
      assert lines[..2][..1] == lines[..1] && lines[..1][..0] == [];
      assert Unlines(lines[..1]) == lines[0] + "\n";
      assert Unlines(lines[..2]) == Unlines(lines[..1]) + lines[1] + "\n";
    }
    var rows := ZipLength(lists);
    for k := 0 to rows
      invariant table == Unlines(lines[..2 + k])
    {
      TableLineStep(components, lists, k);
      table := table + "| " + Join(" | ", ZipRow(lists, k)) + " |\n";
    }
    assert lines[..2 + rows] == lines;
  }

  /** Appending the k-th zip row's text extends the table by its next line. */
  lemma TableLineStep(components: seq<string>, lists: seq<seq<string>>, k: nat)
    requires k < ZipLength(lists)
    ensures var lines := TableLines(components, lists);
      Unlines(lines[..2 + k + 1]) == Unlines(lines[..2 + k]) + "| " + Join(" | ", ZipRow(lists, k)) + " |\n"
  {
    var lines := TableLines(components, lists);
    var j := Join(" | ", ZipRow(lists, k));
    assert lines[..2 + k + 1][..2 + k] == lines[..2 + k];
    assert lines[2 + k] == "| " + j + " |";
    assert Unlines(lines[..2 + k + 1]) == Unlines(lines[..2 + k]) + lines[2 + k] + "\n";
  }

  /**
   * `generate_counting_question()`: `pick` is the index random.choice draws
   * and `draws` are random.shuffle's; an empty context list raises IndexError.
   */
  method GenerateCountingQuestion(contexts: seq<CountingContext>, pick: nat, draws: seq<nat>)
    returns (r: Result<Question, GenerationError>)
    requires |contexts| == 0 || pick < |contexts|
    requires ShuffleDraws(draws, 5)
    ensures |contexts| == 0 ==> r == Err(EmptyChoice)
    ensures |contexts| > 0 ==> r == Ok(CountingQuestionOf(contexts[pick], draws))
  {
    if |contexts| == 0 {
      return Err(EmptyChoice);
    }
    var ctx := contexts[pick];
    var counts := Lengths(ctx.componentOptions);
    var correct := MultiplyCounts(counts);
    var table := BuildTable(ctx.components, ctx.componentOptions);
    var answer: int := correct;
    var opts := [answer, answer + 1, answer - 1, answer * 2, Sum(counts)];
    assert answer in multiset(opts) by { assert opts[0] == answer; }
    opts := Shuffle(opts, draws);
    var index := IndexOf(opts, correct);
    r := Ok(Question(
      "A " + ctx.scenario + " offers " + Join(", ", ctx.components) + ". How many combos?\n\n" + table,
      StrAll(opts),
      index.value,
      "Multiply: " + Join(" × ", StrAll(counts)) + " = " + IntToString(correct),
      Subject, Unit, Topic,
      None));
  }

  // ---------------------------------------------------------------------------
  // What the question promises

  lemma StrAllSwap(s: seq<int>, i: nat, j: nat)
    requires i < |s| && j < |s|
    ensures StrAll(Swap(s, i, j)) == Swap(StrAll(s), i, j)
  {
    var l := StrAll(Swap(s, i, j));
    var r := Swap(StrAll(s), i, j);
    forall n | 0 <= n < |s|
      ensures l[n] == r[n]
    {
      assert Swap(s, i, j)[n] == if n == j then s[i] else if n == i then s[j] else s[n];
    }
  }

  lemma {:induction false} StrAllShuffled(xs: seq<int>, draws: seq<nat>)
    requires DrawsFit(draws, |xs|)
    ensures StrAll(Shuffled(xs, draws)) == Shuffled(StrAll(xs), draws)
  {
    if |draws| > 0 {
      var k := |draws| - 1;
      var i := |xs| - 1 - k;
      var j := draws[k];
      assert DrawsFit(draws[..k], |xs|);
      var prev := Shuffled(xs, draws[..k]);
      assert Shuffled(xs, draws) == Swap(prev, i, j);
      assert Shuffled(StrAll(xs), draws) == Swap(Shuffled(StrAll(xs), draws[..k]), i, j);
      StrAllShuffled(xs, draws[..k]);
      StrAllSwap(prev, i, j);
    }
  }

  /**
   * The five options are the answer and its four distractors, shuffled; the
   * correct index holds the answer and is its first occurrence, as list.index
   * finds it.
   */
  lemma CountingOptions(ctx: CountingContext, draws: seq<nat>)
    requires ShuffleDraws(draws, 5)
    ensures var q := CountingQuestionOf(ctx, draws);
      var counts := Lengths(ctx.componentOptions);
      && |q.options| == 5
      && multiset(q.options) == multiset(StrAll(Candidates(counts)))
      && 0 <= q.correctIndex < 5
      && q.options[q.correctIndex] == IntToString(Product(counts))
      && forall j :: 0 <= j < q.correctIndex ==> q.options[j] != q.options[q.correctIndex]
  {
    var q := CountingQuestionOf(ctx, draws);
    var counts := Lengths(ctx.componentOptions);
    var candidates := Candidates(counts);
    var opts := Shuffled(candidates, draws);
    ShuffledPermutes(candidates, draws);
    assert candidates[0] in multiset(opts);
    StrAllShuffled(candidates, draws);
    ShuffledPermutes(StrAll(candidates), draws);
    var i := q.correctIndex;
    assert q.options == StrAll(opts);
    assert i == IndexOf(opts, Product(counts)).value;
    assert |q.options| == 5 && 0 <= i < 5;
    forall j | 0 <= j < i
      ensures q.options[j] != q.options[i]
    {
      assert opts[j] in opts[..i];
      IntToStringInjective(opts[j], opts[i]);
    }
  }

  /** The marked answer is the number of ways to choose one option per component. */
  lemma CountingAnswerCountsCombos(ctx: CountingContext, draws: seq<nat>)
    requires ShuffleDraws(draws, 5)
    ensures var q := CountingQuestionOf(ctx, draws);
      && 0 <= q.correctIndex < |q.options|
      && q.options[q.correctIndex] == IntToString(|Combos(ctx.componentOptions)|)
  {
    CountingOptions(ctx, draws);
    CountingPrinciple(ctx.componentOptions);
  }

  // ---------------------------------------------------------------------------
  // Reading the table back

  /** A table cell that reads back as itself: no `|` and no whitespace at its ends. */
  predicate PlainCell(c: string) {
    |c| > 0 && '|' !in c && !IsSpace(c[0]) && !IsSpace(c[|c| - 1])
  }

  /** The cells of a Markdown row: the text between the outer bars, each stripped. */
  function ReadRow(line: string): (cells: seq<string>) {
    var parts := Split(line, '|');
    if |parts| < 2 then []
    else seq(|parts| - 2, k requires 0 <= k < |parts| - 2 => Strip(parts[k + 1]))
  }

  /** Each cell with the single spaces that surround it inside a row. */
  function Padded(cells: seq<string>): (r: seq<string>)
    ensures |r| == |cells|
    ensures forall k :: 0 <= k < |cells| ==> r[k] == " " + cells[k] + " "
  {
    seq(|cells|, k requires 0 <= k < |cells| => " " + cells[k] + " ")
  }

  lemma {:induction false} SplitRowBody(cells: seq<string>)
    requires |cells| >= 1
    requires forall k :: 0 <= k < |cells| ==> '|' !in cells[k]
    ensures Split(" " + Join(" | ", cells) + " |", '|') == Padded(cells) + [""]
  {
    var c := cells[0];
    assert '|' !in " " + c + " ";
    if |cells| == 1 {
      assert " " + Join(" | ", cells) + " |" == (" " + c + " ") + ['|'] + "";
      SplitAtFirstSep(" " + c + " ", "", '|');
    } else {
      var rest := cells[1..];
      SplitRowBody(rest);
      assert " " + Join(" | ", cells) + " |" == (" " + c + " ") + ['|'] + (" " + Join(" | ", rest) + " |");
      SplitAtFirstSep(" " + c + " ", " " + Join(" | ", rest) + " |", '|');
      assert Padded(cells) == [" " + c + " "] + Padded(rest);
    }
  }

  /** The parts of a row between its bars are its padded cells. */
  lemma RowParts(cells: seq<string>)
    requires |cells| >= 1
    requires forall k :: 0 <= k < |cells| ==> '|' !in cells[k]
    ensures Split(TableRow(cells), '|') == [""] + Padded(cells) + [""]
  {
    SplitRowBody(cells);
    assert TableRow(cells) == "" + ['|'] + (" " + Join(" | ", cells) + " |");
    SplitAtFirstSep("", " " + Join(" | ", cells) + " |", '|');
  }

  /** A line whose parts are padded plain cells reads back as those cells. */
  lemma {:induction false} ReadPadded(line: string, cells: seq<string>)
    requires Split(line, '|') == [""] + Padded(cells) + [""]
    requires forall k :: 0 <= k < |cells| ==> PlainCell(cells[k])
    ensures ReadRow(line) == cells
  {
    var parts := Split(line, '|');
    var r := ReadRow(line);
    assert |parts| - 2 == |cells|;
    assert r == seq(|cells|, k requires 0 <= k < |cells| => Strip(parts[k + 1]));
    forall k | 0 <= k < |cells|
      ensures r[k] == cells[k]
    {
      assert r[k] == Strip(parts[k + 1]);
      PartReadsBack(parts, cells, k);
    }
  }

  lemma {:induction false} PartReadsBack(parts: seq<string>, cells: seq<string>, k: nat)
    requires parts == [""] + Padded(cells) + [""]
    requires k < |cells| && PlainCell(cells[k])
    ensures Strip(parts[k + 1]) == cells[k]
  {
    assert parts[k + 1] == " " + cells[k] + " ";
    StripPadded(" ", cells[k], " ");
  }

  /** A row written by the generator reads back as its cells. */
  lemma RowRoundTrip(cells: seq<string>)
    requires |cells| >= 1
    requires forall k :: 0 <= k < |cells| ==> PlainCell(cells[k])
    ensures ReadRow(TableRow(cells)) == cells
  {
    RowParts(cells);
    ReadPadded(TableRow(cells), cells);
  }

  lemma {:induction false} SplitAlignment(n: nat)
    ensures Split(Repeat(" :---: |", n), '|') == seq(n, _ => " :---: ") + [""]
  {
    if n == 0 {
      assert Repeat(" :---: |", 0) == "";
    } else {
      SplitAlignment(n - 1);
      assert Repeat(" :---: |", n) == " :---: " + ['|'] + Repeat(" :---: |", n - 1);
      SplitAtFirstSep(" :---: ", Repeat(" :---: |", n - 1), '|');
      assert seq(n, _ => " :---: ") == [" :---: "] + seq(n - 1, _ => " :---: ");
    }
  }

  /** The row under the header has one centred-alignment cell per column. */
  lemma AlignmentRoundTrip(n: nat)
    ensures ReadRow(AlignmentRow(n)) == seq(n, _ => ":---:")
  {
    SplitAlignment(n);
    assert AlignmentRow(n) == "" + ['|'] + Repeat(" :---: |", n);
    SplitAtFirstSep("", Repeat(" :---: |", n), '|');
    var parts := Split(AlignmentRow(n), '|');
    assert parts == [""] + seq(n, _ => " :---: ") + [""];
    forall k | 1 <= k <= n
      ensures Strip(parts[k]) == ":---:"
    {
      assert parts[k] == " " + ":---:" + " ";
      StripPadded(" ", ":---:", " ");
    }
  }

  /** Every option of every component reads back from a table cell. */
  predicate PlainOptions(lists: seq<seq<string>>) {
    forall j, k :: 0 <= j < |lists| && 0 <= k < |lists[j]| ==> PlainCell(lists[j][k])
  }

  /**
   * The table has a header naming the components, an alignment row with one
   * `:---:` per component, and one row per index below the shortest option
   * list (zip stops there), whose cells are the options at that index.
   */
  lemma TableShape(components: seq<string>, lists: seq<seq<string>>)
    requires |components| >= 1
    requires forall j :: 0 <= j < |components| ==> PlainCell(components[j])
    requires PlainOptions(lists)
    ensures var lines := TableLines(components, lists);
      && |lines| == 2 + ZipLength(lists)
      && ReadRow(lines[0]) == components
      && ReadRow(lines[1]) == seq(|components|, _ => ":---:")
      && forall k :: 0 <= k < ZipLength(lists) ==> ReadRow(lines[2 + k]) == ZipRow(lists, k)
  {
    var lines := TableLines(components, lists);
    RowRoundTrip(components);
    AlignmentRoundTrip(|components|);
    forall k | 0 <= k < ZipLength(lists)
      ensures ReadRow(lines[2 + k]) == ZipRow(lists, k)
    {
      var row := ZipRow(lists, k);
      assert lines[2 + k] == TableRow(row);
      forall j | 0 <= j < |row|
        ensures PlainCell(row[j])
      {
        assert row[j] == lists[j][k];
      }
      RowRoundTrip(row);
    }
  }

  // ---------------------------------------------------------------------------
  // Reading the explanation back

  /** int() of each text, failing if any fails. */
  function ParseAll(parts: seq<string>): (r: Option<seq<int>>)
    ensures r.Some? ==> |r.value| == |parts|
  {
    if |parts| == 0 then Some([])
    else match (ParseInt(parts[0]), ParseAll(parts[1..]))
      case (Some(x), Some(xs)) => Some([x] + xs)
      case _ => None
  }

  /** The factors and the product an explanation states. */
  function ReadExplanation(e: string): Option<(seq<int>, int)> {
    var prefix := "Multiply: ";
    if !StartsWith(e, prefix) then None
    else
      var halves := Split(e[|prefix|..], '=');
      if |halves| != 2 then None
      else match (ParseAll(Split(halves[0], '×')), ParseInt(halves[1]))
        case (Some(factors), Some(total)) => Some((factors, total))
        case _ => None
  }

  lemma ParseCons(t: string, x: int, rest: seq<string>, xs: seq<int>)
    requires ParseInt(t) == Some(x) && ParseAll(rest) == Some(xs)
    ensures ParseAll([t] + rest) == Some([x] + xs)
  {
    assert ([t] + rest)[0] == t && ([t] + rest)[1..] == rest;
  }

  /** Whitespace, a number and a space: no multiplication sign. */
  lemma TimesFree(pre: string, n: int, t: string)
    requires AllSpace(pre) && t == pre + IntToString(n) + " "
    ensures '×' !in t
  {
    var x := IntToString(n);
    NotInNumber(n, '×');
    forall i | 0 <= i < |t|
      ensures t[i] != '×'
    {
      if i < |pre| {
        assert t[i] == pre[i];
      } else if i < |pre| + |x| {
        assert t[i] == x[i - |pre|];
      }
    }
  }

  lemma RegroupTimes(pre: string, x: string, j: string)
    ensures pre + (x + " × " + j) + " " == (pre + x + " ") + ['×'] + (" " + j + " ")
  {
    assert " × " == " " + ['×'] + " ";
  }

  lemma {:induction false} ReadLastFactor(xs: seq<int>, pre: string)
    requires |xs| == 1 && AllSpace(pre)
    ensures ParseAll(Split(pre + Join(" × ", StrAll(xs)) + " ", '×')) == Some(xs)
  {
    var x := IntToString(xs[0]);
    var first := pre + x + " ";
    TimesFree(pre, xs[0], first);
    ParsePadded(xs[0], pre, " ", first);
    assert StrAll(xs) == [x];
    assert pre + Join(" × ", StrAll(xs)) + " " == first;
    SplitWithoutSep(first, '×');
    ParseCons(first, xs[0], [], []);
    assert [first] + [] == [first] && [xs[0]] + [] == xs;
  }

  /** The factor list splits at its first multiplication sign into the first padded factor and the rest. */
  lemma {:induction false} SplitFirstFactor(xs: seq<int>, pre: string)
    requires |xs| >= 2 && AllSpace(pre)
    ensures Split(pre + Join(" × ", StrAll(xs)) + " ", '×')
      == [pre + IntToString(xs[0]) + " "] + Split(" " + Join(" × ", StrAll(xs[1..])) + " ", '×')
  {
    var x := IntToString(xs[0]);
    var first := pre + x + " ";
    var j := Join(" × ", StrAll(xs[1..]));
    assert StrAll(xs)[1..] == StrAll(xs[1..]);
    assert Join(" × ", StrAll(xs)) == x + " × " + j;
    RegroupTimes(pre, x, j);
    TimesFree(pre, xs[0], first);
    SplitAtFirstSep(first, " " + j + " ", '×');
  }

  lemma {:induction false} ReadFactorStep(xs: seq<int>, pre: string)
    requires |xs| >= 2 && AllSpace(pre)
    requires ParseAll(Split(" " + Join(" × ", StrAll(xs[1..])) + " ", '×')) == Some(xs[1..])
    ensures ParseAll(Split(pre + Join(" × ", StrAll(xs)) + " ", '×')) == Some(xs)
  {
    var first := pre + IntToString(xs[0]) + " ";
    SplitFirstFactor(xs, pre);
    ParsePadded(xs[0], pre, " ", first);
    ReadSplitCons(Split(pre + Join(" × ", StrAll(xs)) + " ", '×'), Split(" " + Join(" × ", StrAll(xs[1..])) + " ", '×'), first, xs);
  }

  /** Parts made of a number's text and then a list of numbers' texts parse to the whole list. */
  lemma ReadSplitCons(parts: seq<string>, rest: seq<string>, first: string, xs: seq<int>)
    requires |xs| >= 1
    requires parts == [first] + rest
    requires ParseInt(first) == Some(xs[0]) && ParseAll(rest) == Some(xs[1..])
    ensures ParseAll(parts) == Some(xs)
  {
    ParseCons(first, xs[0], rest, xs[1..]);
    assert xs == [xs[0]] + xs[1..];
  }

  /** The factors, split at the multiplication signs, parse back to the counts. */
  lemma {:induction false} ReadFactors(xs: seq<int>, pre: string)
    requires |xs| >= 1 && AllSpace(pre)
    ensures ParseAll(Split(pre + Join(" × ", StrAll(xs)) + " ", '×')) == Some(xs)
  {
    if |xs| == 1 {
      ReadLastFactor(xs, pre);
    } else {
      ReadFactors(xs[1..], " ");
      ReadFactorStep(xs, pre);
    }
  }

  lemma FactorsReadBack(xs: seq<int>)
    requires |xs| >= 1
    ensures ParseAll(Split(Join(" × ", StrAll(xs)) + " ", '×')) == Some(xs)
  {
    var j := Join(" × ", StrAll(xs));
    ReadFactors(xs, "");
    assert "" + j == j;
  }

  lemma NoEqualsInFactors(xs: seq<int>)
    ensures '=' !in Join(" × ", StrAll(xs)) + " "
  {
    var t := Join(" × ", StrAll(xs)) + " ";
    if '=' in t {
      var i :| 0 <= i < |t| && t[i] == '=';
      NoEqualsInJoin(StrAll(xs), i);
    }
  }

  lemma {:induction false} NoEqualsInJoin(parts: seq<string>, i: int)
    requires forall k :: 0 <= k < |parts| ==> exists n :: parts[k] == IntToString(n)
    requires 0 <= i < |Join(" × ", parts) + " "|
    ensures (Join(" × ", parts) + " ")[i] != '='
  {
    if |parts| > 1 {
      var n :| parts[0] == IntToString(n);
      NotInNumber(n, '=');
      var t := Join(" × ", parts[1..]) + " ";
      assert Join(" × ", parts) + " " == parts[0] + " × " + t;
      if i >= |parts[0]| + 3 {
        NoEqualsInJoin(parts[1..], i - |parts[0]| - 3);
      }
    } else if |parts| == 1 {
      var n :| parts[0] == IntToString(n);
      NotInNumber(n, '=');
    }
  }

  /** "Multiply: " + factors + "=" + total splits at its one '=' into the factors and the total. */
  lemma ExplanationHalves(e: string, factors: string, total: string)
    requires e == "Multiply: " + factors + "=" + total
    requires '=' !in factors && '=' !in total
    ensures StartsWith(e, "Multiply: ") && Split(e[10..], '=') == [factors, total]
  {
    assert e[10..] == factors + ['='] + total;
    SplitAtFirstSep(factors, total, '=');
    SplitWithoutSep(total, '=');
  }

  /** Reading "Multiply: " + factors + "=" + total, with no '=' in the factors or the total. */
  lemma ReadHalves(e: string, factors: string, total: string, fs: seq<int>, t: int)
    requires e == "Multiply: " + factors + "=" + total
    requires '=' !in factors && '=' !in total
    requires ParseAll(Split(factors, '×')) == Some(fs) && ParseInt(total) == Some(t)
    ensures ReadExplanation(e) == Some((fs, t))
  {
    ExplanationHalves(e, factors, total);
  }

  lemma Regroup(j: string, i: string)
    ensures "Multiply: " + j + " = " + i == "Multiply: " + (j + " ") + "=" + (" " + i)
  {
    assert " = " == " " + "=" + " ";
  }

  /** Reading a statement of factors xs with product p. */
  lemma ReadStatement(xs: seq<int>, p: int, e: string)
    requires |xs| >= 1
    requires e == "Multiply: " + Join(" × ", StrAll(xs)) + " = " + IntToString(p)
    ensures ReadExplanation(e) == Some((xs, p))
  {
    var j := Join(" × ", StrAll(xs));
    var factors := j + " ";
    var total := " " + IntToString(p);
    assert e == "Multiply: " + factors + "=" + total by {
      Regroup(j, IntToString(p));
    }
    assert '=' !in factors by {
      NoEqualsInFactors(xs);
    }
    assert '=' !in total by {
      NotInNumber(p, '=');
    }
    FactorsReadBack(xs);
    assert ParseInt(total) == Some(p) by {
      ParsePadded(p, " ", "", total);
    }
    ReadHalves(e, factors, total, xs, p);
  }

  /**
   * The explanation states the counts, as factors, and their product: read
   * back, it gives the component counts and the answer.
   */
  lemma ExplanationRoundTrip(counts: seq<nat>)
    requires |counts| >= 1
    ensures ReadExplanation(Explanation(counts)) == Some((counts, Product(counts)))
  {
    ReadStatement(counts, Product(counts), Explanation(counts));
  }

  // ---------------------------------------------------------------------------
  // When the answer is unambiguous

  /** No distractor renders like the answer iff the answer is not zero and differs from the sum. */
  lemma DistractorsDiffer(counts: seq<nat>)
    ensures var texts := StrAll(Candidates(counts));
      texts[0] !in texts[1..] <==> Product(counts) != 0 && Sum(counts) != Product(counts)
  {
    var p: int := Product(counts);
    var texts := StrAll(Candidates(counts));
    assert texts[0] == IntToString(p);
    assert texts[1..] == [IntToString(p + 1), IntToString(p - 1), IntToString(p * 2), IntToString(Sum(counts))];
    IntToStringInjective(p, p + 1);
    IntToStringInjective(p, p - 1);
    IntToStringInjective(p, p * 2);
    IntToStringInjective(p, Sum(counts));
  }

  /**
   * The answer appears exactly once among the options iff it is not zero (when
   * doubling it changes nothing) and the sum of the counts differs from it.
   */
  lemma CorrectAnswerOnce(ctx: CountingContext, draws: seq<nat>)
    requires ShuffleDraws(draws, 5)
    ensures var q := CountingQuestionOf(ctx, draws);
      var counts := Lengths(ctx.componentOptions);
      && 0 <= q.correctIndex < |q.options|
      && (multiset(q.options)[q.options[q.correctIndex]] == 1 <==>
          Product(counts) != 0 && Sum(counts) != Product(counts))
  {
    var counts := Lengths(ctx.componentOptions);
    var texts := StrAll(Candidates(counts));
    CountingOptions(ctx, draws);
    FirstOccursOnce(texts);
    DistractorsDiffer(counts);
  }

  // ---------------------------------------------------------------------------
  // The shipped context

  lemma PizzaCounts()
    ensures Lengths(CountingContexts[0].componentOptions) == [3, 3, 3]
    ensures Product([3, 3, 3]) == 27 && Sum([3, 3, 3]) == 9
  {
    assert [3, 3, 3][..2] == [3, 3] && [3, 3][..1] == [3] && [3][..0] == [];
  }

  /** The pizza context has 27 different combinations of size, crust and topping. */
  lemma PizzaCombinations()
    ensures |Combos(CountingContexts[0].componentOptions)| == 27
    ensures Distinct(Combos(CountingContexts[0].componentOptions))
  {
    var lists := CountingContexts[0].componentOptions;
    PizzaCounts();
    CountingPrinciple(lists);
    CombosDistinct(lists);
  }

  /**
   * The pizza context: 3 sizes, 3 crusts and 3 toppings give 27 combinations;
   * the options are 27, 28, 26, 54 and 9 in some order, and 27 occurs once,
   * at the correct index.
   */
  lemma PizzaOptions(draws: seq<nat>)
    requires ShuffleDraws(draws, 5)
    ensures multiset(CountingQuestionOf(CountingContexts[0], draws).options) == multiset(["27", "28", "26", "54", "9"])
    ensures 0 <= CountingQuestionOf(CountingContexts[0], draws).correctIndex < 5
    ensures CountingQuestionOf(CountingContexts[0], draws).options[CountingQuestionOf(CountingContexts[0], draws).correctIndex] == "27"
    ensures multiset(CountingQuestionOf(CountingContexts[0], draws).options)["27"] == 1
  {
    var ctx := CountingContexts[0];
    var counts := Lengths(ctx.componentOptions);
    var q := CountingQuestionOf(ctx, draws);
    PizzaCounts();
    SmallIntStrings();
    assert counts == [3, 3, 3] && Product(counts) == 27;
    var texts := StrAll(Candidates(counts));
    assert texts == ["27", "28", "26", "54", "9"] by {
      assert Candidates(counts) == [27, 28, 26, 54, 9];
    }
    assert multiset(q.options) == multiset(texts) && q.options[q.correctIndex] == IntToString(27) by {
      CountingOptions(ctx, draws);
    }
    assert multiset(q.options)[q.options[q.correctIndex]] == 1 by {
      CorrectAnswerOnce(ctx, draws);
    }
  }

  /** `" × ".join(["3", "3", "3"])` */
  lemma PizzaFactors()
    ensures Join(" × ", StrAll([3, 3, 3])) == "3 × 3 × 3"
  {
    SmallIntStrings();
    var t := StrAll([3, 3, 3]);
    assert t == ["3", "3", "3"];
    assert t[1..][1..] == ["3"];
    assert Join(" × ", t[1..]) == "3" + " × " + "3";
  }

  /** The explanation for counts 3, 3 and 3. */
  lemma PizzaExplanationText()
    ensures Explanation([3, 3, 3]) == "Multiply: " + "3 × 3 × 3" + " = 27"
  {
    PizzaCounts();
    SmallIntStrings();
    PizzaFactors();
  }

  /**
   * The pizza explanation is `Multiply: 3 × 3 × 3 = 27`, and it reads back as
   * the counts 3, 3 and 3 and the answer 27.
   */
  lemma PizzaExplanation(draws: seq<nat>)
    requires ShuffleDraws(draws, 5)
    ensures CountingQuestionOf(CountingContexts[0], draws).explanation == "Multiply: " + "3 × 3 × 3" + " = 27"
    ensures ReadExplanation(CountingQuestionOf(CountingContexts[0], draws).explanation) == Some(([3, 3, 3], 27))
  {
    var counts := Lengths(CountingContexts[0].componentOptions);
    PizzaCounts();
    assert CountingQuestionOf(CountingContexts[0], draws).explanation == Explanation([3, 3, 3]);
    PizzaExplanationText();
    ExplanationRoundTrip([3, 3, 3]);
  }
}
