/**
 * MathQuestionGenerator.generate_geometry_question: circles of one radius
 * packed in a rows × cols grid; the question asks for the dimensions of the
 * rectangle around them. The arrangement comes as text "R×C".
 *
 * The source computes with floats. Here a radius is a whole number of tenths
 * of a centimetre (1.4 cm is 14), so every length is exact in tenths, and
 * Python's int() of a float is division rounding toward zero.
 */
module Geometry {
  import opened Wrappers
  import opened PyText
  import opened PyList
  import opened SeqFacts
  import opened Questions

  /** A packing scenario; the radius range is in tenths of a centimetre. */
  datatype GeometryContext = GeometryContext(
    objects: string,
    container: string,
    arrangements: seq<string>,
    radiusRange: (int, int))

  /** The geometry contexts the generator is built with. */
  const GeometryContexts: seq<GeometryContext> := [
    GeometryContext("spherical balls", "cylindrical container", ["4×2"], (14, 14))
  ]

  const Unit: string := "Geometry and Measurement"
  const Topic: string := "Area & Volume"

  /** `os.path.join("images", "geometry_question_1.png")` */
  const DefaultImagePath: string := PathJoin("images", "geometry_question_1.png")

  // ---------------------------------------------------------------------------
  // Arithmetic and text

  /** `int(t / den)`: the quotient rounded toward zero, as int() truncates a float. */
  function TruncDiv(t: int, den: nat): (q: int)
    requires den > 0
    ensures t >= 0 ==> 0 <= q && q * den <= t < q * den + den
    ensures t < 0 ==> q <= 0 && q * den - den < t <= q * den
  {
    if t >= 0 then t / den else -((-t) / den)
  }

  /** `str(x)` of a float whose value is t tenths: digits, a point, one decimal. */
  function TenthsText(t: int): string {
    var a := if t < 0 then -t else t;
    (if t < 0 then "-" else "") + NatToString(a / 10) + "." + [DigitChar(a % 10)]
  }

  /** `f"{w} × {l}"`: the text of one option. */
  function DimsText(w: int, l: int): string {
    IntToString(w) + " × " + IntToString(l)
  }

  /**
   * `rows, cols = map(int, s.split("×"))`. Unpacking pulls items from the lazy
   * map one at a time, so int() runs on each part it reaches before the
   * unpacking complains: a part that is not decimal text raises first.
   */
  function ParseArrangement(s: string): Result<(int, int), GenerationError> {
    var parts := Split(s, '×');
    match ParseInt(parts[0])
    case None => Err(NotAnInteger(parts[0]))
    case Some(rows) =>
      if |parts| < 2 then Err(UnpackMismatch)
      else match ParseInt(parts[1])
        case None => Err(NotAnInteger(parts[1]))
        case Some(cols) =>
          if |parts| == 2 then Ok((rows, cols))
          else if ParseInt(parts[2]).None? then Err(NotAnInteger(parts[2]))
          else Err(UnpackMismatch)
  }

  /** The pairs random.randint(2, 12) can produce. */
  predicate RandIntPairs(pads: seq<(int, int)>) {
    forall k :: 0 <= k < |pads| ==> 2 <= pads[k].0 <= 12 && 2 <= pads[k].1 <= 12
  }

  // ---------------------------------------------------------------------------
  // The question

  /** `d = r * 2` */
  function Diameter(r: int): int { r * 2 }

  /** A side of the rectangle, in tenths: n diameters laid side by side. */
  function Side(n: int, r: int): int { n * Diameter(r) }

  /** The correct option, the halved dimensions, and the transposed ones. */
  function FixedOptions(rows: int, cols: int, r: int): seq<string> {
    var width := Side(rows, r);
    var length := Side(cols, r);
    [DimsText(TruncDiv(width, 10), TruncDiv(length, 10)),
     DimsText(TruncDiv(width, 20), TruncDiv(length, 20)),
     DimsText(TruncDiv(length, 10), TruncDiv(width, 10))]
  }

  /** The options the padding loop appends, one per pair of randint draws. */
  function PadOptions(pads: seq<(int, int)>): (r: seq<string>)
    ensures |r| == |pads|
  {
    if |pads| == 0 then [] else PadOptions(pads[..|pads| - 1]) + [DimsText(pads[|pads| - 1].0, pads[|pads| - 1].1)]
  }

  /** Two pairs of draws give two options, in draw order. */
  lemma PadTwo(pads: seq<(int, int)>)
    requires |pads| >= 2
    ensures PadOptions(pads[..2]) == [DimsText(pads[0].0, pads[0].1), DimsText(pads[1].0, pads[1].1)]
  {
    assert pads[..2][..1] == pads[..1] && pads[..1][..0] == [];
  }

  /** The five options before shuffling. */
  function GeometryCandidates(rows: int, cols: int, r: int, pads: seq<(int, int)>): seq<string>
    requires |pads| >= 2
  {
    FixedOptions(rows, cols, r) + PadOptions(pads[..2])
  }

  function Prompt(ctx: GeometryContext, rows: int, cols: int): string {
    "The top view of a " + ctx.container + " holding " + IntToString(rows * cols)
      + " tightly packed " + ctx.objects + " is shown. Radius = "
      + TenthsText(ctx.radiusRange.0) + " cm. Find base dimensions."
  }

  function Explanation(rows: int, cols: int, r: int): string {
    var d := Diameter(r);
    IntToString(rows) + " × " + TenthsText(d) + " cm = " + TenthsText(Side(rows, r)) + " cm and "
      + IntToString(cols) + " × " + TenthsText(d) + " cm = " + TenthsText(Side(cols, r)) + " cm"
  }

  /** The question for an arrangement that parsed as rows × cols. */
  function PackingQuestion(ctx: GeometryContext, rows: int, cols: int, pads: seq<(int, int)>, draws: seq<nat>)
    : Question
    requires |pads| >= 2 && ShuffleDraws(draws, 5)
  {
    var candidates := GeometryCandidates(rows, cols, ctx.radiusRange.0, pads);
    var opts := Shuffled(candidates, draws);
    ShuffledPermutes(candidates, draws);
    assert candidates[0] in multiset(opts);
    Question(
      Prompt(ctx, rows, cols),
      opts,
      IndexOf(opts, candidates[0]).value,
      Explanation(rows, cols, ctx.radiusRange.0),
      Subject, Unit, Topic,
      Some(DefaultImagePath))
  }

  /**
   * The question generated for ctx when randint yields `pads` and shuffle
   * draws `draws`, or the exception the source raises.
   */
  function GeometryQuestionOf(ctx: GeometryContext, pads: seq<(int, int)>, draws: seq<nat>)
    : Result<Question, GenerationError>
    requires |pads| >= 2 && ShuffleDraws(draws, 5)
  {
    if |ctx.arrangements| == 0 then Err(NoArrangement)
    else match ParseArrangement(ctx.arrangements[0])
      case Err(e) => Err(e)
      case Ok((rows, cols)) => Ok(PackingQuestion(ctx, rows, cols, pads, draws))
  }

  /** Appending the option drawn from pads[k] extends the padding by one pair. */
  lemma PadOptionsStep(opts: seq<string>, pads: seq<(int, int)>, k: nat)
    requires k < |pads|
    ensures opts + PadOptions(pads[..k]) + [DimsText(pads[k].0, pads[k].1)] == opts + PadOptions(pads[..k + 1])
  {
    assert pads[..k + 1][..k] == pads[..k];
    AppendAssoc(opts, PadOptions(pads[..k]), [DimsText(pads[k].0, pads[k].1)]);
  }

  /** `while len(opts) < 5: opts.append(f"{randint(2,12)} × {randint(2,12)}")` */
  method PadToFive(opts: seq<string>, pads: seq<(int, int)>) returns (padded: seq<string>)
    requires |opts| <= 5 && |pads| >= 5 - |opts|
    ensures padded == opts + PadOptions(pads[..5 - |opts|])
    ensures |padded| == 5
  {
    padded := opts;
    var k := 0;
    while |padded| < 5
      invariant 0 <= k <= 5 - |opts| && |padded| == |opts| + k
      invariant padded == opts + PadOptions(pads[..k])
    {
      PadOptionsStep(opts, pads, k);
      padded := padded + [DimsText(pads[k].0, pads[k].1)];
      k := k + 1;
    }
    assert k == 5 - |opts|;
  }

  /** The options list of generate_geometry_question before it is shuffled. */
  method CandidateOptions(rows: int, cols: int, r: int, pads: seq<(int, int)>) returns (opts: seq<string>)
    requires |pads| >= 2
    ensures opts == GeometryCandidates(rows, cols, r, pads)
  {
    var d := r * 2;
    var width := rows * d;
    var length := cols * d;
    assert width == Side(rows, r) && length == Side(cols, r);
    var correctDims := DimsText(TruncDiv(width, 10), TruncDiv(length, 10));
    opts := [correctDims,
             DimsText(TruncDiv(width, 20), TruncDiv(length, 20)),
             DimsText(TruncDiv(length, 10), TruncDiv(width, 10))];
    assert opts == FixedOptions(rows, cols, r);
    opts := PadToFive(opts, pads);
  }

  /**
   * `generate_geometry_question()`: `pick` is random.choice's index, `pads` the
   * randint pairs the padding loop draws, `draws` random.shuffle's.
   */
  method GenerateGeometryQuestion(
    contexts: seq<GeometryContext>, pick: nat, pads: seq<(int, int)>, draws: seq<nat>)
    returns (result: Result<Question, GenerationError>)
    requires |contexts| == 0 || pick < |contexts|
    requires |pads| >= 2 && RandIntPairs(pads)
    requires ShuffleDraws(draws, 5)
    ensures |contexts| == 0 ==> result == Err(EmptyChoice)
    ensures |contexts| > 0 ==> result == GeometryQuestionOf(contexts[pick], pads, draws)
  {
    if |contexts| == 0 {
      return Err(EmptyChoice);
    }
    var ctx := contexts[pick];
    if |ctx.arrangements| == 0 {
      return Err(NoArrangement);
    }
    var parsed := ParseArrangement(ctx.arrangements[0]);
    if parsed.Err? {
      return Err(parsed.error);
    }
    var (rows, cols) := parsed.value;
    var r := ctx.radiusRange.0;
    var opts := CandidateOptions(rows, cols, r, pads);
    var correctDims := opts[0];
    assert correctDims in multiset(opts);
    opts := Shuffle(opts, draws);
    var index := IndexOf(opts, correctDims);
    result := Ok(Question(
      Prompt(ctx, rows, cols), opts, index.value, Explanation(rows, cols, r),
      Subject, Unit, Topic, Some(DefaultImagePath)));
    assert result == Ok(PackingQuestion(ctx, rows, cols, pads, draws));
  }

  // ---------------------------------------------------------------------------
  // What the question promises

  lemma ParseTwoParts(s: string, a: int, b: int)
    requires |Split(s, '×')| == 2
    requires ParseInt(Split(s, '×')[0]) == Some(a) && ParseInt(Split(s, '×')[1]) == Some(b)
    ensures ParseArrangement(s) == Ok((a, b))
  {
  }

  lemma SplitBetweenNumbers(a: int, b: int, sp: string)
    requires AllSpace(sp)
    ensures Split(IntToString(a) + sp + "×" + sp + IntToString(b), '×') == [IntToString(a) + sp, sp + IntToString(b)]
  {
    var left := IntToString(a) + sp;
    var right := sp + IntToString(b);
    NotInNumber(a, '×');
    NotInNumber(b, '×');
    assert '×' !in sp;
    assert '×' !in left;
    assert '×' !in right;
    assert IntToString(a) + sp + "×" + sp + IntToString(b) == left + ['×'] + right;
    SplitAtFirstSep(left, right, '×');
    SplitWithoutSep(right, '×');
  }

  /** `f"{a}{sp}×{sp}{b}"` splits on "×" and reads back as (a, b). */
  lemma ArrangementRoundTrip(a: int, b: int, sp: string, s: string)
    requires AllSpace(sp)
    requires s == IntToString(a) + sp + "×" + sp + IntToString(b)
    ensures ParseArrangement(s) == Ok((a, b))
  {
    var parts := Split(s, '×');
    SplitBetweenNumbers(a, b, sp);
    assert parts == [IntToString(a) + sp, sp + IntToString(b)];
    ParsePadded(a, "", sp, parts[0]);
    ParsePadded(b, sp, "", parts[1]);
    ParseTwoParts(s, a, b);
  }

  lemma DimsTextShape(w: int, l: int)
    ensures DimsText(w, l) == IntToString(w) + " " + "×" + " " + IntToString(l)
  {
  }

  /** Every option text reads back as the pair it was made from. */
  lemma DimsRoundTrip(w: int, l: int)
    ensures ParseArrangement(DimsText(w, l)) == Ok((w, l))
  {
    DimsTextShape(w, l);
    ArrangementRoundTrip(w, l, " ", DimsText(w, l));
  }

  /** Two options read alike exactly when their dimensions agree. */
  lemma DimsTextInjective(w: int, l: int, w': int, l': int)
    ensures DimsText(w, l) == DimsText(w', l') <==> w == w' && l == l'
  {
    DimsRoundTrip(w, l);
    DimsRoundTrip(w', l');
  }

  /**
   * Generation fails exactly when there is no arrangement, or the first one
   * does not split on "×" into two integers.
   */
  lemma GeometryErrors(ctx: GeometryContext, pads: seq<(int, int)>, draws: seq<nat>)
    requires |pads| >= 2 && ShuffleDraws(draws, 5)
    ensures GeometryQuestionOf(ctx, pads, draws).Err? <==>
      || |ctx.arrangements| == 0
      || |Split(ctx.arrangements[0], '×')| != 2
      || ParseInt(Split(ctx.arrangements[0], '×')[0]).None?
      || ParseInt(Split(ctx.arrangements[0], '×')[1]).None?
  {
  }

  /**
   * The five options are the correct dimensions, the halved ones, the
   * transposed ones and two randint pairs, shuffled; the correct index holds
   * the correct dimensions and is their first occurrence.
   */
  lemma GeometryOptions(ctx: GeometryContext, rows: int, cols: int, pads: seq<(int, int)>, draws: seq<nat>)
    requires |pads| >= 2 && ShuffleDraws(draws, 5)
    ensures var q := PackingQuestion(ctx, rows, cols, pads, draws);
      var candidates := GeometryCandidates(rows, cols, ctx.radiusRange.0, pads);
      && |q.options| == 5
      && multiset(q.options) == multiset(candidates)
      && 0 <= q.correctIndex < 5
      && q.options[q.correctIndex] == candidates[0]
      && candidates[0] == DimsText(TruncDiv(Side(rows, ctx.radiusRange.0), 10), TruncDiv(Side(cols, ctx.radiusRange.0), 10))
      && forall j :: 0 <= j < q.correctIndex ==> q.options[j] != candidates[0]
  {
    var candidates := GeometryCandidates(rows, cols, ctx.radiusRange.0, pads);
    var opts := Shuffled(candidates, draws);
    ShuffledPermutes(candidates, draws);
    assert candidates[0] in multiset(opts);
    var q := PackingQuestion(ctx, rows, cols, pads, draws);
    assert q.options == opts;
    assert q.correctIndex == IndexOf(opts, candidates[0]).value;
    forall j | 0 <= j < q.correctIndex
      ensures q.options[j] != candidates[0]
    {
      assert opts[j] in opts[..q.correctIndex];
    }
  }

  /** The two padding options read back as randint pairs, both numbers in [2, 12]. */
  lemma PaddingInRange(rows: int, cols: int, r: int, pads: seq<(int, int)>)
    requires |pads| >= 2 && RandIntPairs(pads)
    ensures var candidates := GeometryCandidates(rows, cols, r, pads);
      forall k :: 3 <= k < 5 ==>
        && ParseArrangement(candidates[k]).Ok?
        && 2 <= ParseArrangement(candidates[k]).value.0 <= 12
        && 2 <= ParseArrangement(candidates[k]).value.1 <= 12
  {
    var candidates := GeometryCandidates(rows, cols, r, pads);
    forall k | 3 <= k < 5
      ensures ParseArrangement(candidates[k]) == Ok(pads[k - 3])
    {
      PaddingReadsBack(rows, cols, r, pads, k - 3);
    }
  }

  /** The padding option drawn from pads[j] reads back as that pair. */
  lemma PaddingReadsBack(rows: int, cols: int, r: int, pads: seq<(int, int)>, j: nat)
    requires |pads| >= 2 && j < 2
    ensures ParseArrangement(GeometryCandidates(rows, cols, r, pads)[3 + j]) == Ok(pads[j])
  {
    PadTwo(pads);
    assert GeometryCandidates(rows, cols, r, pads)[3 + j] == DimsText(pads[j].0, pads[j].1);
    DimsRoundTrip(pads[j].0, pads[j].1);
  }

  /**
   * Before shuffling: no distractor coincides with the correct dimensions iff
   * the whole-centimetre sides int(width) and int(length) differ, the halved
   * whole-centimetre pair differs from them, and neither randint pair equals them.
   */
  lemma DistractorsDiffer(rows: int, cols: int, r: int, pads: seq<(int, int)>)
    requires |pads| >= 2
    ensures var candidates := GeometryCandidates(rows, cols, r, pads);
      var w := TruncDiv(Side(rows, r), 10);
      var l := TruncDiv(Side(cols, r), 10);
      candidates[0] !in candidates[1..] <==>
        && w != l
        && (TruncDiv(Side(rows, r), 20), TruncDiv(Side(cols, r), 20)) != (w, l)
        && pads[0] != (w, l)
        && pads[1] != (w, l)
  {
    var w := TruncDiv(Side(rows, r), 10);
    var l := TruncDiv(Side(cols, r), 10);
    var hw := TruncDiv(Side(rows, r), 20);
    var hl := TruncDiv(Side(cols, r), 20);
    var candidates := GeometryCandidates(rows, cols, r, pads);
    PadTwo(pads);
    assert candidates[1..] == [DimsText(hw, hl), DimsText(l, w), DimsText(pads[0].0, pads[0].1), DimsText(pads[1].0, pads[1].1)];
    DimsTextInjective(w, l, hw, hl);
    DimsTextInjective(w, l, l, w);
    DimsTextInjective(w, l, pads[0].0, pads[0].1);
    DimsTextInjective(w, l, pads[1].0, pads[1].1);
  }

  /**
   * The correct dimensions appear exactly once among the shuffled options iff
   * no distractor coincides with them.
   */
  lemma CorrectDimsOnce(ctx: GeometryContext, rows: int, cols: int, pads: seq<(int, int)>, draws: seq<nat>)
    requires |pads| >= 2 && ShuffleDraws(draws, 5)
    ensures var q := PackingQuestion(ctx, rows, cols, pads, draws);
      var candidates := GeometryCandidates(rows, cols, ctx.radiusRange.0, pads);
      && 0 <= q.correctIndex < |q.options|
      && (multiset(q.options)[q.options[q.correctIndex]] == 1 <==> candidates[0] !in candidates[1..])
  {
    var q := PackingQuestion(ctx, rows, cols, pads, draws);
    var candidates := GeometryCandidates(rows, cols, ctx.radiusRange.0, pads);
    GeometryOptions(ctx, rows, cols, pads, draws);
    FirstOccursOnce(candidates);
  }

  lemma ShippedArrangement()
    ensures ParseArrangement(GeometryContexts[0].arrangements[0]) == Ok((4, 2))
  {
    SmallIntStrings();
    ArrangementRoundTrip(4, 2, "", GeometryContexts[0].arrangements[0]);
  }

  /** The shipped context always yields a question. */
  lemma ShippedNeverRaises(pads: seq<(int, int)>, draws: seq<nat>)
    requires |pads| >= 2 && ShuffleDraws(draws, 5)
    ensures GeometryQuestionOf(GeometryContexts[0], pads, draws).Ok?
  {
    ShippedArrangement();
  }

  lemma ShippedOptions()
    ensures FixedOptions(4, 2, 14) == ["11 × 5", "5 × 2", "5 × 11"]
  {
    SmallIntStrings();
    assert Side(4, 14) == 112 && Side(2, 14) == 56;
    assert TruncDiv(112, 10) == 11 && TruncDiv(56, 10) == 5;
    assert TruncDiv(112, 20) == 5 && TruncDiv(56, 20) == 2;
    assert DimsText(11, 5) == "11 × 5";
    assert DimsText(5, 2) == "5 × 2";
    assert DimsText(5, 11) == "5 × 11";
  }

  lemma ShippedTenths()
    ensures TenthsText(14) == "1.4" && TenthsText(28) == "2.8"
    ensures TenthsText(112) == "11.2" && TenthsText(56) == "5.6"
  {
    SmallIntStrings();
    assert NatToString(1) == "1" && NatToString(2) == "2" && NatToString(5) == "5" && NatToString(11) == "11";
    assert DigitChar(2) == '2' && DigitChar(4) == '4' && DigitChar(6) == '6' && DigitChar(8) == '8';
  }

  lemma ShippedFirstHalf()
    ensures IntToString(4) + " × " + TenthsText(28) + " cm = " + TenthsText(112) + " cm and " == "4 × 2.8 cm = 11.2 cm and "
  {
    SmallIntStrings();
    ShippedTenths();
  }

  lemma ShippedSecondHalf()
    ensures IntToString(2) + " × " + TenthsText(28) + " cm = " + TenthsText(56) + " cm" == "2 × 2.8 cm = 5.6 cm"
  {
    SmallIntStrings();
    ShippedTenths();
  }

  lemma ShippedExplanation()
    ensures Explanation(4, 2, 14) == "4 × 2.8 cm = 11.2 cm and " + "2 × 2.8 cm = 5.6 cm"
  {
    var first := IntToString(4) + " × " + TenthsText(28) + " cm = " + TenthsText(112) + " cm and ";
    var second := IntToString(2) + " × " + TenthsText(28) + " cm = " + TenthsText(56) + " cm";
    assert Explanation(4, 2, 14) == first + second by {
      assert Diameter(14) == 28 && Side(4, 14) == 112 && Side(2, 14) == 56;
    }
    ShippedFirstHalf();
    ShippedSecondHalf();
  }



  /**
   * The shipped context: "4×2" balls of radius 1.4 cm give a 11 × 5 base
   * (11.2 cm and 5.6 cm, truncated), with distractors 5 × 2 and 5 × 11.
   */
  lemma ShippedGeometryQuestion(pads: seq<(int, int)>, draws: seq<nat>)
    requires |pads| >= 2 && ShuffleDraws(draws, 5)
    ensures var result := GeometryQuestionOf(GeometryContexts[0], pads, draws);
      && result.Ok?
      && result.value.question == Prompt(GeometryContexts[0], 4, 2)
      && result.value.explanation == "4 × 2.8 cm = 11.2 cm and " + "2 × 2.8 cm = 5.6 cm"
      && 0 <= result.value.correctIndex < 5
      && result.value.options[result.value.correctIndex] == "11 × 5"
      && multiset(result.value.options) == multiset(["11 × 5", "5 × 2", "5 × 11"] + PadOptions(pads[..2]))
  {
    var ctx := GeometryContexts[0];
    ShippedArrangement();
    ShippedOptions();
    ShippedExplanation();
    GeometryOptions(ctx, 4, 2, pads, draws);
    assert GeometryQuestionOf(ctx, pads, draws) == Ok(PackingQuestion(ctx, 4, 2, pads, draws));
  }

  /** Two rows and four columns of radius 1.5 cm fit a 6 × 12 base. */
  lemma TwoByFourScenario()
    ensures FixedOptions(2, 4, 15)[0] == "6 × 12"
  {
    SmallIntStrings();
  }
}
