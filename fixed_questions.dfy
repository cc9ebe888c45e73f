/**
 * MathQuestionGenerator._load_fixed_questions: the constant list of
 * hand-written multiple-choice questions that fixed mode exports. An image
 * path is None when the entry has none, "" when the entry leaves it blank, and
 * `os.path.join("images", name)` otherwise.
 */
module FixedQuestions {
  import opened Wrappers
  import opened PyText
  import opened Questions

  // src/question_generator.py:48-57
  const Entry01: Question :=
    Question(
      "If n+5=5, what is the value of n?",
      ["0", "1/5", "1", "5", "10"],
      0,
      "Subtract 5 from both sides: n = 0",
      "Quantitative Math", "Algebra", "Linear Equations",
      None)

  // src/question_generator.py:58-67
  const Entry02: Question :=
    Question(
      "The sequence of shapes above repeats indefinitely. Which shape is the 12th shape in the sequence?",
      ["Shape A", "Shape B", "Shape C", "Shape D", "Shape E"],
      1,
      "Determine cycle length and find 12th term via remainder.",
      "Quantitative Math", "Patterns", "Sequences",
      Some(PathJoin("images", "q2_shapes_sequence.png")))

  // src/question_generator.py:68-77
  const Entry03: Question :=
    Question(
      "If a triangle has a base of 10 cm and a height of 5 cm, what is its area?",
      ["25 cm²", "30 cm²", "35 cm²", "40 cm²", "45 cm²"],
      0,
      "Area = 1/2 × base × height = 1/2 × 10 × 5 = 25 cm²",
      "Quantitative Math", "Geometry and Measurement", "Area & Volume",
      None)

  // src/question_generator.py:78-87
  const Entry04: Question :=
    Question(
      "If n + 5 = 5, what is the value of n?",
      ["0", "1/5", "1", "5", "10"],
      0,
      "Subtract 5 from both sides: n = 0.",
      "Quantitative Math", "Algebra", "Linear Equations",
      Some(""))

  // src/question_generator.py:88-97
  const Entry05: Question :=
    Question(
      "The sequence of shapes above repeats indefinitely as shown. Which shape is the 12th shape in the sequence?",
      ["Shape A", "Shape B", "Shape C", "Shape D", "Shape E"],
      1,
      "The sequence length is 5; 12 mod 5 = 2, so 2nd shape in sequence is correct.",
      "Quantitative Math", "Patterns", "Sequences",
      Some(PathJoin("images", "q2_shapes_sequence.png")))

  // src/question_generator.py:98-107
  const Entry06: Question :=
    Question(
      "Julio starts with 20 illustrations. He draws x more illustrations during his museum visit. Which expression represents the total?",
      ["x/20", "20/x", "20x", "20 - x", "20 + x"],
      4,
      "Initial total 20 + new x illustrations = 20 + x.",
      "Quantitative Math", "Algebra", "Expressions",
      Some(""))

  // src/question_generator.py:108-117
  const Entry07: Question :=
    Question(
      "In 4,□86 the square represents a digit. If the number is less than 4,486, what is the greatest possible value of □?",
      ["0", "3", "4", "7", "9"],
      1,
      "For number < 4486, hundreds digit must be ≤ 3. Largest possible is 3.",
      "Quantitative Math", "Number Sense", "Place Value",
      Some(""))

  // src/question_generator.py:118-127
  const Entry08: Question :=
    Question(
      "Which is the sum of 3/8 and 4/7?",
      ["1/8", "3/14", "7/15", "33/56", "53/56"],
      4,
      "LCD 56: (3×7)+(4×8)=21+32=53, so 53/56.",
      "Quantitative Math", "Fractions", "Addition",
      Some(""))

  // src/question_generator.py:128-137
  const Entry09: Question :=
    Question(
      "Based on the graph, what is the altitude of the scenic lookout above the campsite?",
      ["100", "200", "300", "400", "500"],
      3,
      "Final altitude minus starting altitude = 400 meters.",
      "Quantitative Math", "Data Interpretation", "Graphs",
      Some(PathJoin("images", "q6_hike_altitude.png")))

  // src/question_generator.py:138-147
  const Entry10: Question :=
    Question(
      "What is the value of 0.5 × 23.5 × 0.2?",
      ["0.0235", "0.235", "2.35", "23.5", "235"],
      2,
      "0.5×23.5=11.75; ×0.2=2.35.",
      "Quantitative Math", "Arithmetic", "Multiplication",
      Some(""))

  // src/question_generator.py:148-157
  const Entry11: Question :=
    Question(
      "Edith needs exactly 36 cents using the least coins. She has 1c, 5c, 10c, 25c coins.",
      ["Two", "Three", "Four", "Five", "Six"],
      1,
      "25c+10c+1c = 36c with 3 coins.",
      "Quantitative Math", "Optimization", "Making Change",
      Some(""))

  // src/question_generator.py:158-167
  const Entry12: Question :=
    Question(
      "What is the value of (1/2) × (3/4 × 1/3)?",
      ["1/8", "5/24", "2/9", "13/24", "19/12"],
      0,
      "3/4×1/3=1/4; ×1/2=1/8.",
      "Quantitative Math", "Fractions", "Multiplication",
      Some(""))

  // src/question_generator.py:168-177
  const Entry13: Question :=
    Question(
      "In the figure above, ST = 12, T midpoint of RV, S midpoint of RT. What is length of SV?",
      ["12", "18", "24", "36", "48"],
      2,
      "RT = 24, RV = 48, SV = 24.",
      "Quantitative Math", "Geometry", "Segments",
      Some(PathJoin("images", "q10_segment_length.png")))

  // src/question_generator.py:178-187
  const Entry14: Question :=
    Question(
      "Let a be defined by a = a² + 1, where a is a whole number. What is the value of a³?",
      ["16", "10", "8", "7", "6"],
      0,
      "a² - a + 1 = 0 has solution a=1, then a³=1, but given whole number misprint—assuming intended value yields 16.",
      "Quantitative Math", "Algebra", "Equations",
      Some(""))

  // src/question_generator.py:188-197
  const Entry15: Question :=
    Question(
      "Each student chooses 1 shirt and 1 pants color from the table. How many different uniforms are possible?",
      ["Three", "Four", "Seven", "Ten", "Twelve"],
      4,
      "4 shirts × 3 pants = 12.",
      "Quantitative Math", "Counting", "Combinations",
      Some(PathJoin("images", "q12_uniform_choices.png")))

  // src/question_generator.py:198-207
  const Entry16: Question :=
    Question(
      "If n is a positive odd integer, which of the following must be even?",
      ["3n-1", "2n+3", "2n-1", "n+2", "3n/2"],
      0,
      "Odd×odd=odd; odd-1=even.",
      "Quantitative Math", "Number Properties", "Parity",
      Some(""))

  // src/question_generator.py:208-217
  const Entry17: Question :=
    Question(
      "Joseph drives 232 miles for $32 gas. How many miles for $40 at same rate?",
      ["240", "288", "290", "320", "332"],
      1,
      "232/32 = 7.25 miles per $; ×40 = 290, wait check—actually 7.25×40=290, so index 2.",
      "Quantitative Math", "Proportions", "Unit Rates",
      Some(""))

  // src/question_generator.py:218-227
  const Entry18: Question :=
    Question(
      "Of the following fractions, which is closest to 37%?",
      ["1/3", "1/4", "2/5", "3/7", "3/8"],
      3,
      "3/7≈42.86%, closest to 37%.",
      "Quantitative Math", "Fractions", "Estimation",
      Some(""))

  // src/question_generator.py:228-237
  const Entry19: Question :=
    Question(
      "100 students split into 3 clubs with sizes differing by at most 1. Least possible size of one club?",
      ["15", "20", "21", "33", "34"],
      3,
      "Even split: 33,33,34 so least is 33.",
      "Quantitative Math", "Optimization", "Distribution",
      Some(""))

  // src/question_generator.py:238-247
  const Entry20: Question :=
    Question(
      "The rectangle shown is divided into 6 congruent squares. What fraction is shaded?",
      ["3/8", "5/8", "5/9", "7/12", "2/3"],
      4,
      "4 of 6 squares shaded = 2/3.",
      "Quantitative Math", "Geometry", "Area",
      Some(PathJoin("images", "q17_shaded_rectangle.png")))

  // src/question_generator.py:248-257
  const Entry21: Question :=
    Question(
      "In a game, 2 gold = 6 silver, 7 silver = 42 copper. How many copper for 5 gold?",
      ["10", "18", "36", "72", "90"],
      4,
      "1 gold=3 silver, 5 gold=15 silver, 7 silver=42 copper => 15 silver=(15×42)/7=90 copper.",
      "Quantitative Math", "Ratios", "Unit Conversions",
      Some(""))

  // src/question_generator.py:258-267
  const Entry22: Question :=
    Question(
      "Figure with two squares and three segments; find n.",
      ["18", "20", "22", "24", "26"],
      4,
      "Add all given segment lengths and square sides to find n=26.",
      "Quantitative Math", "Geometry", "Perimeter",
      Some(PathJoin("images", "q19_two_squares_segments.png")))

  // src/question_generator.py:268-277
  const Entry23: Question :=
    Question(
      "Calculate: 3 + 6 × 2³ ÷ 3 + 3²",
      ["21", "24", "27", "28", "33"],
      3,
      "Order: 2³=8; 6×8=48; 48÷3=16; 3+16+9=28.",
      "Quantitative Math", "Arithmetic", "Order of Operations",
      Some(""))

  // src/question_generator.py:278-287
  const Entry24: Question :=
    Question(
      "A punched square card is flipped. Which orientation is NOT possible?",
      ["Option A", "Option B", "Option C", "Option D", "Option E"],
      2,
      "By symmetry, one pattern cannot be formed.",
      "Quantitative Math", "Spatial Reasoning", "Transformations",
      Some(PathJoin("images", "q21_punched_card.png")))

  // src/question_generator.py:288-297
  const Entry25: Question :=
    Question(
      "If n is even, which expression must be an integer?",
      ["3n/2", "3n/4", "(n+4)/4", "(n+2)/3", "3(n+1)/2"],
      0,
      "n even → n=2k, 3n/2 = 3k integer.",
      "Quantitative Math", "Number Properties", "Divisibility",
      Some(""))

  // src/question_generator.py:298-307
  const Entry26: Question :=
    Question(
      "Aidan reads 1/3 of a book Monday, 1/4 of remainder Tuesday. 60 pages left. Total pages?",
      ["720", "360", "144", "120", "72"],
      2,
      "After Monday, 2/3 remain; after Tuesday, (3/4)×(2/3)=1/2 remain = 60 pages, so total=120. Wait—correct: remainder after Tue=1/2 total=60→total=120, so index 3.",
      "Quantitative Math", "Fractions", "Word Problems",
      Some(""))

  // src/question_generator.py:308-317
  const Entry27: Question :=
    Question(
      "Square of area 144 in². Circumference of largest inscribed circle?",
      ["12π", "24π", "36π", "72π", "144π"],
      2,
      "Side=12, diameter=12, radius=6, circumference=12π, wait check—largest circle diameter=12, so circumference=12π, index 0.",
      "Quantitative Math", "Geometry", "Circles",
      Some(""))

  // src/question_generator.py:318-327
  const Entry28: Question :=
    Question(
      "120 increased by 50%, then decreased by 30%. Find result.",
      ["174", "162", "144", "136", "126"],
      2,
      "Increase: 120×1.5=180; decrease: 180×0.7=126, index 4.",
      "Quantitative Math", "Percentages", "Successive Changes",
      Some(""))

  /** The questions in the order the source lists them, in four runs of seven. */
  const FirstSeven: seq<Question> := [Entry01, Entry02, Entry03, Entry04, Entry05, Entry06, Entry07]
  const SecondSeven: seq<Question> := [Entry08, Entry09, Entry10, Entry11, Entry12, Entry13, Entry14]
  const ThirdSeven: seq<Question> := [Entry15, Entry16, Entry17, Entry18, Entry19, Entry20, Entry21]
  const LastSeven: seq<Question> := [Entry22, Entry23, Entry24, Entry25, Entry26, Entry27, Entry28]

  const FixedTable: seq<Question> := FirstSeven + SecondSeven + ThirdSeven + LastSeven

  /** Five options, pairwise different, and a correct index among them. */
  predicate WellFormed(q: Question) {
    && |q.options| == 5
    && 0 <= q.correctIndex < 5
    && (forall i, j :: 0 <= i < j < 5 ==> q.options[i] != q.options[j])
  }

  /** Seven questions, each well formed and on the table's subject. */
  predicate SoundRun(run: seq<Question>) {
    |run| == 7 && forall k :: 0 <= k < 7 ==> WellFormed(run[k]) && run[k].subject == Subject
  }

  lemma FirstSevenSound()
    ensures SoundRun(FirstSeven)
  {
  }

  lemma SecondSevenSound()
    ensures SoundRun(SecondSeven)
  {
  }

  lemma ThirdSevenSound()
    ensures SoundRun(ThirdSeven)
  {
  }

  lemma LastSevenSound()
    ensures SoundRun(LastSeven)
  {
  }

  /** Four sound runs of seven, one after another, make 28 sound questions. */
  lemma RunsSound(a: seq<Question>, b: seq<Question>, c: seq<Question>, d: seq<Question>)
    requires SoundRun(a) && SoundRun(b) && SoundRun(c) && SoundRun(d)
    ensures var all := a + b + c + d;
      |all| == 28 && forall k :: 0 <= k < 28 ==> WellFormed(all[k]) && all[k].subject == Subject
  {
    var all := a + b + c + d;
    forall k | 0 <= k < 28
      ensures WellFormed(all[k]) && all[k].subject == Subject
    {
      if k < 7 {
        assert all[k] == a[k];
      } else if k < 14 {
        assert all[k] == b[k - 7];
      } else if k < 21 {
        assert all[k] == c[k - 14];
      } else {
        assert all[k] == d[k - 21];
      }
    }
  }

  /** The table holds 28 questions, each well formed and on the same subject. */
  lemma FixedTableShape()
    ensures |FixedTable| == 28
    ensures forall k :: 0 <= k < |FixedTable| ==> WellFormed(FixedTable[k]) && FixedTable[k].subject == Subject
  {
    FirstSevenSound();
    SecondSevenSound();
    ThirdSevenSound();
    LastSevenSound();
    RunsSound(FirstSeven, SecondSeven, ThirdSeven, LastSeven);
  }
}
