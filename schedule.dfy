/**
 * The question list `main` in main.py builds before exporting. Dynamic mode
 * asks the generator for `count` questions, a counting question at every odd
 * position and a geometry question, with its own image file, at every even
 * one. Fixed mode keeps the first `count` questions of the fixed table.
 *
 * Each call's random choices are an input: a `Roll` per position. The
 * generator's return value at each position (`Call`) is kept apart from what
 * the loop does with it (`Run`), so that the loop's properties are proved
 * once for any sequence of call results.
 */
module Schedule {
  import opened Wrappers
  import opened PyText
  import opened PyList
  import opened Questions
  import Counting
  import Geometry

  /**
   * The random choices one generator call makes: random.choice's index into
   * the counting contexts and into the geometry contexts (the call uses the
   * one its position asks for), the randint pairs and the shuffle draws.
   */
  datatype Roll = Roll(countingPick: nat, geometryPick: nat, pads: seq<(int, int)>, draws: seq<nat>)

  /** Choices the random module can produce for a call over these contexts. */
  predicate ValidRoll(roll: Roll, counting: seq<Counting.CountingContext>, geometry: seq<Geometry.GeometryContext>) {
    && (|counting| == 0 || roll.countingPick < |counting|)
    && (|geometry| == 0 || roll.geometryPick < |geometry|)
    && |roll.pads| >= 2 && Geometry.RandIntPairs(roll.pads)
    && ShuffleDraws(roll.draws, 5)
  }

  /** Choices for every call of a run. */
  predicate ValidRolls(rolls: seq<Roll>, counting: seq<Counting.CountingContext>, geometry: seq<Geometry.GeometryContext>) {
    forall k :: 0 <= k < |rolls| ==> ValidRoll(rolls[k], counting, geometry)
  }

  /** `f'geometry_question_{n}.png'` */
  function ImageName(n: int): string {
    "geometry_question_" + IntToString(n) + ".png"
  }

  /** `os.path.join(images_dir, f'geometry_question_{i//2}.png')` for position i. */
  function ImagePath(imagesDir: string, i: int): string {
    PathJoin(imagesDir, ImageName(i / 2))
  }

  /**
   * What the generator call at loop position i (counted from 1) returns:
   * generate_counting_question at odd i, generate_geometry_question at even i,
   * or the exception it raises.
   */
  function Call(
    counting: seq<Counting.CountingContext>, geometry: seq<Geometry.GeometryContext>,
    roll: Roll, i: int): Result<Question, GenerationError>
    requires ValidRoll(roll, counting, geometry)
  {
    if i % 2 == 1 then
      if |counting| == 0 then Err(EmptyChoice)
      else Ok(Counting.CountingQuestionOf(counting[roll.countingPick], roll.draws))
    else if |geometry| == 0 then Err(EmptyChoice)
    else Geometry.GeometryQuestionOf(geometry[roll.geometryPick], roll.pads, roll.draws)
  }

  /** The calls the loop makes for positions 1 to n, had none of them raised. */
  function Calls(
    counting: seq<Counting.CountingContext>, geometry: seq<Geometry.GeometryContext>,
    rolls: seq<Roll>, n: nat): (calls: seq<Result<Question, GenerationError>>)
    requires n <= |rolls| && ValidRolls(rolls, counting, geometry)
    ensures |calls| == n
  {
    if n == 0 then []
    else Calls(counting, geometry, rolls, n - 1) + [Call(counting, geometry, rolls[n - 1], n)]
  }

  lemma {:induction false} CallsAt(
    counting: seq<Counting.CountingContext>, geometry: seq<Geometry.GeometryContext>,
    rolls: seq<Roll>, n: nat, k: nat)
    requires k < n <= |rolls| && ValidRolls(rolls, counting, geometry)
    ensures Calls(counting, geometry, rolls, n)[k] == Call(counting, geometry, rolls[k], k + 1)
  {
    var prev := Calls(counting, geometry, rolls, n - 1);
    var last := Call(counting, geometry, rolls[n - 1], n);
    assert Calls(counting, geometry, rolls, n) == prev + [last];
    if k < n - 1 {
      CallsAt(counting, geometry, rolls, n - 1, k);
      assert (prev + [last])[k] == prev[k];
    } else {
      assert k + 1 == n && rolls[k] == rolls[n - 1];
      assert (prev + [last])[k] == last;
    }
  }

  /** The calls of a run are linked to its rolls. */
  lemma CallsLinked(
    counting: seq<Counting.CountingContext>, geometry: seq<Geometry.GeometryContext>,
    rolls: seq<Roll>, n: nat)
    requires n <= |rolls| && ValidRolls(rolls, counting, geometry)
    ensures Linked(Calls(counting, geometry, rolls, n), counting, geometry, rolls)
  {
    forall k | 0 <= k < n
      ensures Calls(counting, geometry, rolls, n)[k] == Call(counting, geometry, rolls[k], k + 1)
    {
      CallsAt(counting, geometry, rolls, n, k);
    }
  }

  /** calls[k] is what the call at position k + 1 returns. */
  predicate Linked(
    calls: seq<Result<Question, GenerationError>>,
    counting: seq<Counting.CountingContext>, geometry: seq<Geometry.GeometryContext>, rolls: seq<Roll>)
  {
    && |calls| <= |rolls| && ValidRolls(rolls, counting, geometry)
    && forall k :: 0 <= k < |calls| ==> calls[k] == Call(counting, geometry, rolls[k], k + 1)
  }

  /** The loop body's handling of a returned question: at even i it gets its image file. */
  function Place(q: Question, imagesDir: string, i: int): Question {
    if i % 2 == 1 then q else q.(imagePath := Some(ImagePath(imagesDir, i)))
  }

  /**
   * One more call of a run: the questions so far extended by the call's
   * question, or the first exception, which ends the run.
   */
  function Then<T, E>(run: Result<seq<T>, E>, call: Result<T, E>): Result<seq<T>, E> {
    match run
    case Err(e) => Err(e)
    case Ok(xs) => (match call case Err(e) => Err(e) case Ok(x) => Ok(xs + [x]))
  }

  /** A call's result as the loop body leaves it. */
  function Placed<E>(call: Result<Question, E>, imagesDir: string, i: int): Result<Question, E> {
    if call.Ok? then Ok(Place(call.value, imagesDir, i)) else Err(call.error)
  }

  /** The dynamic-mode loop over the calls' results: the question list, or the first exception. */
  function Run<E>(calls: seq<Result<Question, E>>, imagesDir: string): Result<seq<Question>, E> {
    if |calls| == 0 then Ok([])
    else Then(Run(calls[..|calls| - 1], imagesDir), Placed(calls[|calls| - 1], imagesDir, |calls|))
  }

  /** How many times `range(1, count + 1)` runs. */
  function Positions(count: int): nat {
    if count < 0 then 0 else count
  }

  /** The body of the loop at position i: one generator call, and the image file for a geometry question. */
  method NextQuestion(
    counting: seq<Counting.CountingContext>, geometry: seq<Geometry.GeometryContext>,
    imagesDir: string, roll: Roll, i: int)
    returns (r: Result<Question, GenerationError>)
    requires ValidRoll(roll, counting, geometry)
    ensures r == Placed(Call(counting, geometry, roll, i), imagesDir, i)
  {
    if i % 2 == 1 {
      r := Counting.GenerateCountingQuestion(counting, roll.countingPick, roll.draws);
    } else {
      var geo := Geometry.GenerateGeometryQuestion(geometry, roll.geometryPick, roll.pads, roll.draws);
      if geo.Err? {
        return Err(geo.error);
      }
      var imgFile := ImagePath(imagesDir, i);
      return Ok(geo.value.(imagePath := Some(imgFile)));
    }
  }

  /** The dynamic-mode loop of `main`: one generator call per position, in order. */
  method DynamicQuestions(
    counting: seq<Counting.CountingContext>, geometry: seq<Geometry.GeometryContext>,
    imagesDir: string, count: int, rolls: seq<Roll>)
    returns (result: Result<seq<Question>, GenerationError>)
    requires Positions(count) <= |rolls| && ValidRolls(rolls, counting, geometry)
    ensures result == Run(Calls(counting, geometry, rolls, Positions(count)), imagesDir)
  {
    ghost var calls := Calls(counting, geometry, rolls, Positions(count));
    var questions: seq<Question> := [];
    for i := 1 to Positions(count) + 1
      invariant Run(calls[..i - 1], imagesDir) == Ok(questions)
    {
      var r := NextQuestion(counting, geometry, imagesDir, rolls[i - 1], i);
      LoopStep(counting, geometry, imagesDir, rolls, Positions(count), i, questions, r);
      if r.Err? {
        return Err(r.error);
      }
      questions := questions + [r.value];
    }
    assert calls[..Positions(count)] == calls;
    return Ok(questions);
  }

  /** One iteration of the dynamic-mode loop: it either ends the run with the call's exception or extends the list. */
  lemma LoopStep(
    counting: seq<Counting.CountingContext>, geometry: seq<Geometry.GeometryContext>,
    imagesDir: string, rolls: seq<Roll>, n: nat, i: nat,
    questions: seq<Question>, r: Result<Question, GenerationError>)
    requires 0 < i <= n <= |rolls| && ValidRolls(rolls, counting, geometry)
    requires Run(Calls(counting, geometry, rolls, n)[..i - 1], imagesDir) == Ok(questions)
    requires r == Placed(Call(counting, geometry, rolls[i - 1], i), imagesDir, i)
    ensures r.Err? ==> Run(Calls(counting, geometry, rolls, n), imagesDir) == Err(r.error)
    ensures r.Ok? ==> Run(Calls(counting, geometry, rolls, n)[..i], imagesDir) == Ok(questions + [r.value])
  {
    var calls := Calls(counting, geometry, rolls, n);
    CallsAt(counting, geometry, rolls, n, i - 1);
    assert calls[i - 1] == Call(counting, geometry, rolls[i - 1], i);
    RunStep(calls, imagesDir, i);
    if r.Err? {
      RunStops(calls, imagesDir, i);
    }
  }

  // ---------------------------------------------------------------------------
  // The loop, for any call results

  lemma RunStep<E>(calls: seq<Result<Question, E>>, imagesDir: string, i: nat)
    requires 0 < i <= |calls|
    ensures Run(calls[..i], imagesDir) == Then(Run(calls[..i - 1], imagesDir), Placed(calls[i - 1], imagesDir, i))
  {
    assert calls[..i][..i - 1] == calls[..i - 1];
  }

  /** A run that raised within its first i calls makes no further call: it ends with that exception. */
  lemma {:induction false} RunStops<E>(calls: seq<Result<Question, E>>, imagesDir: string, i: nat)
    requires i <= |calls|
    requires Run(calls[..i], imagesDir).Err?
    ensures Run(calls, imagesDir) == Run(calls[..i], imagesDir)
    decreases |calls| - i
  {
    if i < |calls| {
      RunStep(calls, imagesDir, i + 1);
      RunStops(calls, imagesDir, i + 1);
    } else {
      assert calls[..i] == calls;
    }
  }

  /** A run succeeds exactly when every call returns. */
  lemma {:induction false} RunOkIff<E>(calls: seq<Result<Question, E>>, imagesDir: string)
    ensures Run(calls, imagesDir).Ok? <==> forall k :: 0 <= k < |calls| ==> calls[k].Ok?
  {
    var n := |calls|;
    if n > 0 {
      var init := calls[..n - 1];
      assert Run(calls, imagesDir) == Then(Run(init, imagesDir), Placed(calls[n - 1], imagesDir, n));
      RunOkIff(init, imagesDir);
      if Run(calls, imagesDir).Ok? {
        forall k | 0 <= k < n
          ensures calls[k].Ok?
        {
          if k < n - 1 {
            assert init[k] == calls[k];
          }
        }
      } else if Run(init, imagesDir).Err? {
        var k :| 0 <= k < n - 1 && !init[k].Ok?;
        assert init[k] == calls[k];
      }
    }
  }

  /** A successful run holds one question per call, in call order, geometry ones with their image file. */
  lemma {:induction false} RunOk<E>(calls: seq<Result<Question, E>>, imagesDir: string)
    requires Run(calls, imagesDir).Ok?
    ensures |Run(calls, imagesDir).value| == |calls|
    ensures forall k :: 0 <= k < |calls| ==> calls[k].Ok? &&
                                             Run(calls, imagesDir).value[k] == Place(calls[k].value, imagesDir, k + 1)
  {
    var n := |calls|;
    if n > 0 {
      var init := calls[..n - 1];
      assert Run(calls, imagesDir) == Then(Run(init, imagesDir), Placed(calls[n - 1], imagesDir, n));
      RunOk(init, imagesDir);
      var qs := Run(init, imagesDir).value;
      var last := Place(calls[n - 1].value, imagesDir, n);
      assert Run(calls, imagesDir).value == qs + [last];
      forall k | 0 <= k < n
        ensures calls[k].Ok? && Run(calls, imagesDir).value[k] == Place(calls[k].value, imagesDir, k + 1)
      {
        if k < n - 1 {
          assert init[k] == calls[k];
          assert (qs + [last])[k] == qs[k];
        } else {
          assert (qs + [last])[k] == last;
        }
      }
    }
  }

  /** The exception a failed run ends with is that of its first failing call. */
  lemma {:induction false} RunError<E>(calls: seq<Result<Question, E>>, imagesDir: string)
    requires Run(calls, imagesDir).Err?
    ensures exists k ::
      && 0 <= k < |calls| && calls[k].Err? && Run(calls, imagesDir).error == calls[k].error
      && (forall j :: 0 <= j < k ==> calls[j].Ok?)
  {
    var n := |calls|;
    var init := calls[..n - 1];
    assert Run(calls, imagesDir) == Then(Run(init, imagesDir), Placed(calls[n - 1], imagesDir, n));
    if Run(init, imagesDir).Err? {
      RunError(init, imagesDir);
      var k :| 0 <= k < |init| && init[k].Err? && Run(init, imagesDir).error == init[k].error &&
        (forall j :: 0 <= j < k ==> init[j].Ok?);
      assert calls[k] == init[k];
      assert forall j :: 0 <= j < k ==> calls[j] == init[j];
    } else {
      RunOkIff(init, imagesDir);
      assert forall j :: 0 <= j < n - 1 ==> calls[j] == init[j];
      assert calls[n - 1].Err? && Run(calls, imagesDir).error == calls[n - 1].error;
    }
  }

  // ---------------------------------------------------------------------------
  // What the schedule promises

  /** A question produced by the counting generator. */
  predicate IsCounting(q: Question) {
    q.unit == Counting.Unit && q.topic == Counting.Topic && q.imagePath.None?
  }

  /** A question produced by the geometry generator, with its image at `path`. */
  predicate IsGeometry(q: Question, path: string) {
    q.unit == Geometry.Unit && q.topic == Geometry.Topic && q.imagePath == Some(path)
  }

  /** The call at an odd position returns a counting question, at an even one a geometry question. */
  lemma CallKind(
    counting: seq<Counting.CountingContext>, geometry: seq<Geometry.GeometryContext>,
    imagesDir: string, roll: Roll, i: int)
    requires ValidRoll(roll, counting, geometry)
    requires Call(counting, geometry, roll, i).Ok?
    ensures i % 2 == 1 ==> IsCounting(Place(Call(counting, geometry, roll, i).value, imagesDir, i))
    ensures i % 2 == 0 ==> IsGeometry(Place(Call(counting, geometry, roll, i).value, imagesDir, i), ImagePath(imagesDir, i))
  {
  }

  /** CallKind for the call at index k of a run. */
  lemma LinkedKind(
    counting: seq<Counting.CountingContext>, geometry: seq<Geometry.GeometryContext>,
    imagesDir: string, rolls: seq<Roll>, calls: seq<Result<Question, GenerationError>>, k: nat)
    requires Linked(calls, counting, geometry, rolls) && k < |calls| && calls[k].Ok?
    ensures (k + 1) % 2 == 1 ==> IsCounting(Place(calls[k].value, imagesDir, k + 1))
    ensures (k + 1) % 2 == 0 ==> IsGeometry(Place(calls[k].value, imagesDir, k + 1), ImagePath(imagesDir, k + 1))
  {
    CallKind(counting, geometry, imagesDir, rolls[k], k + 1);
  }

  /**
   * When no call raises there is one question per position; the one at
   * position i = k + 1 is a counting question when i is odd and a geometry
   * question whose image is numbered i // 2 when i is even.
   */
  lemma DynamicShape(
    counting: seq<Counting.CountingContext>, geometry: seq<Geometry.GeometryContext>,
    imagesDir: string, rolls: seq<Roll>, calls: seq<Result<Question, GenerationError>>)
    requires Linked(calls, counting, geometry, rolls)
    requires Run(calls, imagesDir).Ok?
    ensures |Run(calls, imagesDir).value| == |calls|
    ensures forall k :: 0 <= k < |calls| && (k + 1) % 2 == 1 ==> IsCounting(Run(calls, imagesDir).value[k])
    ensures forall k :: 0 <= k < |calls| && (k + 1) % 2 == 0 ==>
      IsGeometry(Run(calls, imagesDir).value[k], ImagePath(imagesDir, k + 1))
  {
    RunOk(calls, imagesDir);
    var qs := Run(calls, imagesDir).value;
    forall k | 0 <= k < |calls|
      ensures (k + 1) % 2 == 1 ==> IsCounting(qs[k])
      ensures (k + 1) % 2 == 0 ==> IsGeometry(qs[k], ImagePath(imagesDir, k + 1))
    {
      LinkedKind(counting, geometry, imagesDir, rolls, calls, k);
    }
  }

  /** Dynamic mode with `count` requested yields exactly max(count, 0) questions when no call raises. */
  lemma DynamicCount(
    counting: seq<Counting.CountingContext>, geometry: seq<Geometry.GeometryContext>,
    imagesDir: string, count: int, rolls: seq<Roll>)
    requires Positions(count) <= |rolls| && ValidRolls(rolls, counting, geometry)
    requires Run(Calls(counting, geometry, rolls, Positions(count)), imagesDir).Ok?
    ensures count >= 0 ==> |Run(Calls(counting, geometry, rolls, Positions(count)), imagesDir).value| == count
    ensures count < 0 ==> Run(Calls(counting, geometry, rolls, Positions(count)), imagesDir).value == []
  {
    RunOk(Calls(counting, geometry, rolls, Positions(count)), imagesDir);
  }

  lemma ShippedCall(roll: Roll, i: int)
    requires ValidRoll(roll, Counting.CountingContexts, Geometry.GeometryContexts)
    ensures Call(Counting.CountingContexts, Geometry.GeometryContexts, roll, i).Ok?
  {
    if i % 2 == 0 {
      assert roll.geometryPick == 0;
      Geometry.ShippedNeverRaises(roll.pads, roll.draws);
    }
  }

  /** With the shipped contexts no call raises: dynamic mode always yields its questions. */
  lemma ShippedNeverFails(imagesDir: string, rolls: seq<Roll>, calls: seq<Result<Question, GenerationError>>)
    requires Linked(calls, Counting.CountingContexts, Geometry.GeometryContexts, rolls)
    ensures Run(calls, imagesDir).Ok?
  {
    forall k | 0 <= k < |calls|
      ensures calls[k].Ok?
    {
      ShippedLinkedCall(rolls, calls, k);
    }
    RunOkIff(calls, imagesDir);
  }

  /** ShippedCall for the call at index k of a run. */
  lemma ShippedLinkedCall(rolls: seq<Roll>, calls: seq<Result<Question, GenerationError>>, k: nat)
    requires Linked(calls, Counting.CountingContexts, Geometry.GeometryContexts, rolls)
    requires k < |calls|
    ensures calls[k].Ok?
  {
    assert calls[k] == Call(Counting.CountingContexts, Geometry.GeometryContexts, rolls[k], k + 1);
    ShippedCall(rolls[k], k + 1);
  }

  lemma ImageNameInjective(a: int, b: int)
    ensures ImageName(a) == ImageName(b) <==> a == b
  {
    if ImageName(a) == ImageName(b) {
      var pre := "geometry_question_";
      var x := IntToString(a);
      var y := IntToString(b);
      assert |x| == |y|;
      assert x == ImageName(a)[|pre|..|pre| + |x|];
      assert y == ImageName(b)[|pre|..|pre| + |y|];
      IntToStringInjective(a, b);
    }
  }

  /** Distinct geometry positions write distinct image files. */
  lemma ImagePathsDistinct(imagesDir: string, i: int, j: int)
    requires i > 0 && j > 0 && i % 2 == 0 && j % 2 == 0
    ensures ImagePath(imagesDir, i) == ImagePath(imagesDir, j) <==> i == j
  {
    ImageNameInjective(i / 2, j / 2);
    PathJoinInjective(imagesDir, ImageName(i / 2), ImageName(j / 2));
  }

  /** Two questions of a run, the first with an image, have different image files. */
  lemma PairDistinct(imagesDir: string, qs: seq<Question>, k: nat, m: nat)
    requires forall k :: 0 <= k < |qs| && (k + 1) % 2 == 1 ==> IsCounting(qs[k])
    requires forall k :: 0 <= k < |qs| && (k + 1) % 2 == 0 ==> IsGeometry(qs[k], ImagePath(imagesDir, k + 1))
    requires k < m < |qs| && qs[k].imagePath.Some?
    ensures qs[k].imagePath != qs[m].imagePath
  {
    assert (k + 1) % 2 == 0;
    var a := ImagePath(imagesDir, k + 1);
    assert qs[k].imagePath == Some(a);
    if (m + 1) % 2 == 0 {
      var b := ImagePath(imagesDir, m + 1);
      ImagePathsDistinct(imagesDir, k + 1, m + 1);
      assert a != b;
      assert qs[m].imagePath == Some(b);
    } else {
      assert qs[m].imagePath.None?;
    }
  }

  /** Images numbered by loop position never collide. */
  lemma ImagesDistinct(imagesDir: string, qs: seq<Question>)
    requires forall k :: 0 <= k < |qs| && (k + 1) % 2 == 1 ==> IsCounting(qs[k])
    requires forall k :: 0 <= k < |qs| && (k + 1) % 2 == 0 ==> IsGeometry(qs[k], ImagePath(imagesDir, k + 1))
    ensures forall k, m :: 0 <= k < m < |qs| && qs[k].imagePath.Some? ==> qs[k].imagePath != qs[m].imagePath
  {
    forall k, m | 0 <= k < m < |qs| && qs[k].imagePath.Some?
      ensures qs[k].imagePath != qs[m].imagePath
    {
      PairDistinct(imagesDir, qs, k, m);
    }
  }

  /** No two questions of one run share an image file. */
  lemma DynamicImagesDistinct(
    counting: seq<Counting.CountingContext>, geometry: seq<Geometry.GeometryContext>,
    imagesDir: string, rolls: seq<Roll>, calls: seq<Result<Question, GenerationError>>)
    requires Linked(calls, counting, geometry, rolls)
    requires Run(calls, imagesDir).Ok?
    ensures forall k, m :: 0 <= k < m < |Run(calls, imagesDir).value| && Run(calls, imagesDir).value[k].imagePath.Some? ==>
      Run(calls, imagesDir).value[k].imagePath != Run(calls, imagesDir).value[m].imagePath
  {
    DynamicShape(counting, geometry, imagesDir, rolls, calls);
    ImagesDistinct(imagesDir, Run(calls, imagesDir).value);
  }

  /**
   * The dynamic-mode loop's own result, when no call raises: one question per
   * position, counting at odd positions and geometry at even ones, and no
   * image file used twice.
   */
  lemma DynamicResult(
    counting: seq<Counting.CountingContext>, geometry: seq<Geometry.GeometryContext>,
    imagesDir: string, count: int, rolls: seq<Roll>)
    requires Positions(count) <= |rolls| && ValidRolls(rolls, counting, geometry)
    requires Run(Calls(counting, geometry, rolls, Positions(count)), imagesDir).Ok?
    ensures var qs := Run(Calls(counting, geometry, rolls, Positions(count)), imagesDir).value;
      && |qs| == Positions(count)
      && (forall k :: 0 <= k < |qs| && (k + 1) % 2 == 1 ==> IsCounting(qs[k]))
      && (forall k :: 0 <= k < |qs| && (k + 1) % 2 == 0 ==> IsGeometry(qs[k], ImagePath(imagesDir, k + 1)))
      && (forall k, m :: 0 <= k < m < |qs| && qs[k].imagePath.Some? ==> qs[k].imagePath != qs[m].imagePath)
  {
    var calls := Calls(counting, geometry, rolls, Positions(count));
    CallsLinked(counting, geometry, rolls, Positions(count));
    DynamicShape(counting, geometry, imagesDir, rolls, calls);
    DynamicImagesDistinct(counting, geometry, imagesDir, rolls, calls);
  }

  /** With the shipped contexts the dynamic-mode loop always yields max(count, 0) questions. */
  lemma ShippedDynamic(imagesDir: string, count: int, rolls: seq<Roll>)
    requires Positions(count) <= |rolls| && ValidRolls(rolls, Counting.CountingContexts, Geometry.GeometryContexts)
    ensures Run(Calls(Counting.CountingContexts, Geometry.GeometryContexts, rolls, Positions(count)), imagesDir).Ok?
    ensures |Run(Calls(Counting.CountingContexts, Geometry.GeometryContexts, rolls, Positions(count)), imagesDir).value|
      == Positions(count)
  {
    var calls := Calls(Counting.CountingContexts, Geometry.GeometryContexts, rolls, Positions(count));
    CallsLinked(Counting.CountingContexts, Geometry.GeometryContexts, rolls, Positions(count));
    ShippedNeverFails(imagesDir, rolls, calls);
    RunOk(calls, imagesDir);
  }

  // ---------------------------------------------------------------------------
  // Fixed mode

  /** `questions[:count]`: Python's slice, where a negative bound counts from the end. */
  function FixedMode(table: seq<Question>, count: int): (qs: seq<Question>)
    ensures qs <= table
    ensures 0 <= count ==> |qs| == if count < |table| then count else |table|
    ensures count < 0 ==> |qs| == if |table| + count < 0 then 0 else |table| + count
  {
    var stop := if count < 0 then |table| + count else count;
    if stop < 0 then [] else if stop < |table| then table[..stop] else table
  }
}
