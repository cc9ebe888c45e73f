# Math question generator, modelled in Dafny

The repository generates multiple-choice maths questions and exports them.
`MathQuestionGenerator` in `src/question_generator.py` builds two kinds of
question:

- A counting question. A scenario offers several components, each with a list
  of options. The answer is the product of the list lengths. The prompt shows
  the options as a Markdown table. The five choices are the answer and four
  distractors, shuffled.
- A geometry question. Circles of one radius are packed in a rows × cols grid,
  and the question asks for the outer rectangle's dimensions. The five choices
  are the correct dimensions, the halved ones, the transposed ones and two
  random pairs in [2, 12], shuffled.

The class also holds a constant table of hand-written questions.
`main.py` has two modes:

- Dynamic mode alternates the two generators: counting at odd positions,
  geometry at even positions, each geometry question with its own image file.
- Fixed mode keeps the first `count` entries of the constant table.

Either way it writes the questions as a text file of `@tag` lines.

The project has these modules:

| file | module | models |
|---|---|---|
| `wrappers.dfy` | `Wrappers` | Option and Result |
| `seq_facts.dfy` | `SeqFacts` | a generic sequence fact the proofs share |
| `question.dfy` | `Questions` | the question record and the exceptions generation can raise |
| `py_text.dfy` | `PyText` | `str(int)`, `int(str)`, `str.split`, `str.join`, `str * n`, `os.path.join`, and lemmas relating them |
| `py_list.dfy` | `PyList` | `random.shuffle`, driven by given draws, and `list.index` |
| `counting.dfy` | `Counting` | `generate_counting_question` |
| `geometry.dfy` | `Geometry` | `generate_geometry_question` |
| `fixed_questions.dfy` | `FixedQuestions` | `_load_fixed_questions`, all 28 entries |
| `export.dfy` | `Export` | `generate_formatted_output` |
| `schedule.dfy` | `Schedule` | the question list `main` builds in either mode |

Randomness is an input:

- `random.choice` is an index `pick`. In dynamic mode each position draws its own index, into the counting contexts at odd positions and into the geometry contexts at even ones.
- `random.shuffle` is CPython's Fisher–Yates with its draws given.
- `random.randint(2, 12)` is a list of pairs given.

Where the source loops, the model is a method with a loop. Each such method is
proved equal to a specification function. The properties are lemmas about that
function.

## Model

| member | source | states |
|---|---|---|
| PyText.IntToString | src/question_generator.py:344 | `str(n)`: non-empty; digits when n ≥ 0; a minus sign then digits when n < 0 |
| PyText.ParseIntOfString | src/question_generator.py:354 | `int()` of a number's text, padded with spaces, gives the number back |
| PyText.IntToStringInjective | src/question_generator.py:344 | two integers print alike iff they are equal |
| PyText.JoinSplit | src/question_generator.py:354 | joining the parts of a split with the separator restores the text; no part holds the separator |
| PyText.SplitJoin | src/question_generator.py:354 | splitting a join of separator-free parts gives the parts back |
| PyText.SplitAtFirstSep | src/question_generator.py:354 | a split at a separator after separator-free text yields that text, then the split of the rest |
| PyText.PathJoinInjective | main.py:149 | `os.path.join(dir, x)` and `os.path.join(dir, y)` agree iff x == y, for relative names |
| PyList.Shuffle | src/question_generator.py:341 | the in-order Fisher–Yates loop returns `Shuffled(xs, draws)`, a permutation of xs |
| PyList.ShuffledPermutes | src/question_generator.py:341 | a shuffle permutes: same multiset |
| PyList.IndexOf | src/question_generator.py:345 | `list.index`: None iff absent; otherwise the first position holding x |
| Counting.MultiplyCounts | src/question_generator.py:333-335 | the product loop returns the product of the counts |
| Counting.CountingPrinciple | src/question_generator.py:332-335 | the enumeration, one entry per choice of an index in each list, has as many entries as the product of the lengths |
| Counting.CombosAreCombinations | src/question_generator.py:332-335 | the enumerated combinations are exactly the sequences picking one option per component |
| Counting.CountingAnswerCountsCombos | src/question_generator.py:330-350 | the marked option is the text of the enumeration's length, which CombosDistinct makes the number of distinct combinations when no list repeats an option |
| Counting.CombosDistinct | src/question_generator.py:332-335 | when no component lists an option twice, the enumeration lists every combination once |
| Counting.ZipLength | src/question_generator.py:338 | `zip(*lists)` yields as many rows as the shortest list |
| Counting.BuildTable | src/question_generator.py:336-339 | the table built line by line is the header, the alignment row and one row per zip row |
| Counting.TableLineStep | src/question_generator.py:338-339 | each loop iteration appends exactly the next table line |
| Counting.TableShape | src/question_generator.py:336-339 | the table has 2 + zip-length lines; when there is at least one component and every component name and option is a plain cell (non-empty, no `\|`, no whitespace at either end), they read back as the components, `:---:` per column and each zip row |
| Counting.RowRoundTrip | src/question_generator.py:339 | a row of bar-free, unpadded cells reads back as those cells |
| Counting.AlignmentRoundTrip | src/question_generator.py:337 | the alignment row reads back as one `:---:` per component |
| Counting.GenerateCountingQuestion | src/question_generator.py:330-350 | an empty context list raises IndexError (`Err(EmptyChoice)`); otherwise the result is `CountingQuestionOf` the picked context |
| Counting.CountingOptions | src/question_generator.py:340-345 | five options that are a permutation of the texts of [p, p+1, p−1, 2p, sum]; `options[ci]` is str(p) and no earlier option equals it |
| Counting.StrAllShuffled | src/question_generator.py:341-344 | shuffling and then converting to text equals converting and then shuffling |
| Counting.DistractorsDiffer | src/question_generator.py:340 | the correct text occurs once among the candidates iff p ≠ 0 and sum ≠ p |
| Counting.CorrectAnswerOnce | src/question_generator.py:340-345 | the marked option occurs once among the options iff p ≠ 0 and sum ≠ p |
| Counting.FactorsReadBack | src/question_generator.py:346 | the factors joined with ` × ` split and parse back to the counts |
| Counting.ReadStatement | src/question_generator.py:346 | any `Multiply: f1 × … × fn = t` reads back as the factors and t |
| Counting.ExplanationRoundTrip | src/question_generator.py:346 | the explanation reads back as the counts and their product |
| Counting.PizzaOptions | src/question_generator.py:23-34 | for the shipped pizza context the options are a permutation of 27, 28, 26, 54, 9, and the marked one is 27, present once |
| Counting.PizzaCombinations | src/question_generator.py:23-34 | the shipped pizza context has 27 combinations, all different |
| Counting.PizzaExplanation | src/question_generator.py:346 | the shipped pizza explanation is `Multiply: 3 × 3 × 3 = 27`, and it reads back as 3 × 3 × 3 = 27 |
| Geometry.TruncDiv | src/question_generator.py:359-360 | `int()` of a quotient: rounds toward zero for either sign |
| Geometry.PadToFive | src/question_generator.py:361-362 | the padding loop appends one option per randint pair until there are five |
| Geometry.PadTwo | src/question_generator.py:361-362 | after three fixed options, the two padding options are the first two pairs' texts, in draw order |
| Geometry.CandidateOptions | src/question_generator.py:355-362 | the options before shuffling: correct, halved, transposed, then the padding |
| Geometry.GenerateGeometryQuestion | src/question_generator.py:352-373 | an empty context list raises; otherwise the result is `GeometryQuestionOf` the picked context |
| Geometry.GeometryErrors | src/question_generator.py:353-354 | the generator raises iff there is no arrangement, or it does not split into two parts, or either part fails `int()` |
| Geometry.ArrangementRoundTrip | src/question_generator.py:354 | `R×C` text, with spaces around `×` or not, parses back to (R, C) |
| Geometry.DimsRoundTrip | src/question_generator.py:359-362 | an option's text `w × l` parses back to (w, l) |
| Geometry.DimsTextInjective | src/question_generator.py:359-362 | two options read alike iff their dimensions agree |
| Geometry.GeometryOptions | src/question_generator.py:355-367 | five options, a permutation of the candidates; `options[ci]` is `int(width) × int(length)` and no earlier option equals it |
| Geometry.PaddingInRange | src/question_generator.py:361-362 | both padding options read back as pairs in [2, 12] |
| Geometry.PaddingReadsBack | src/question_generator.py:361-362 | each padding option reads back as the randint pair it came from |
| Geometry.DistractorsDiffer | src/question_generator.py:359-362 | the correct dimensions occur once iff int(width) ≠ int(length), the pair (int(width / 2), int(length / 2)) differs from (int(width), int(length)), and neither random pair equals (int(width), int(length)) |
| Geometry.CorrectDimsOnce | src/question_generator.py:359-367 | the marked option occurs once among the options iff the correct dimensions occur once among the candidates |
| Geometry.ShippedArrangement | src/question_generator.py:39 | the shipped arrangement "4×2" parses as (4, 2) |
| Geometry.ShippedOptions | src/question_generator.py:355-360 | with radius 1.4, the fixed options are "11 × 5", "5 × 2" and "5 × 11" |
| Geometry.ShippedExplanation | src/question_generator.py:368 | with radius 1.4, the explanation is `4 × 2.8 cm = 11.2 cm and 2 × 2.8 cm = 5.6 cm` |
| Geometry.TwoByFourScenario | main.py:150 | the drawn grid (2 × 4, radius 1.5) would have the correct option "6 × 12", not the asked "11 × 5" |
| Geometry.ShippedGeometryQuestion | src/question_generator.py:352-373 | the shipped context never raises; it marks "11 × 5" and its options permute the three fixed options and the two padding options |
| FixedQuestions.FixedTableShape | src/question_generator.py:45-328 | the table has 28 entries; each has five pairwise different options, 0 ≤ ci < 5, and subject "Quantitative Math" |
| Export.WriteOptions | main.py:106-110 | the option loop writes `OptionWrites(options, ci)` |
| Export.WriteBlock | main.py:102-116 | one question's writes: the head, the options, the tail |
| Export.WriteFormattedOutput | main.py:95-116 | the whole export: the title, the description, then one block per question, numbered from 1 |
| Export.OptionWriteAt | main.py:106-110 | the write for option j is `@@option` exactly when j == ci |
| Export.MarkedOptions | main.py:106-110 | option j's write is marked iff j == ci; the count of marked writes is 1 when 0 ≤ ci < \|options\|, else 0 |
| Export.OptionsReadBack | main.py:106-110 | each option's write reads back as (option, j == ci) |
| Export.OrderReadsBack | main.py:105 | the fourth write of a block starts with `@Order ` and reads back as the question's number |
| Export.BlockMarked | main.py:102-116 | a block has one `@@option` write when ci is in range, else none, if the explanation does not start with `@@option ` |
| Export.OutputMarked | main.py:95-116 | the export has one `@@option` write per question whose ci is in range, if no explanation starts with `@@option ` |
| Export.OutputLength | main.py:98-116 | the export has the two preamble writes, then all block writes |
| Export.BlockAt | main.py:101-116 | question k's block sits in the export at the offset of the blocks before it |
| Export.BlocksPrefix | main.py:101-116 | the blocks of a prefix of the questions are a prefix of the blocks |
| Export.FileOpening | main.py:98-99 | the file's text starts with the title line and the description line |
| Schedule.NextQuestion | main.py:145-152 | one loop iteration: the generator's result, with the image path set at even positions |
| Schedule.DynamicQuestions | main.py:143-152 | the dynamic loop returns `Run` of the calls at positions 1..count |
| Schedule.LoopStep | main.py:144-152 | an iteration either ends the run with the call's exception or appends its question |
| Schedule.CallsAt | main.py:144-148 | the call at index k is the generator call for position k + 1 |
| Schedule.RunOkIff | main.py:144-152 | the loop completes iff no call raises |
| Schedule.RunOk | main.py:144-152 | a completed loop has one question per position: the call's question, with the image placed |
| Schedule.RunError | main.py:144-152 | a failed loop raises the first exception raised, and every earlier call succeeded |
| Schedule.CallKind | main.py:145-151 | odd positions give counting questions without an image; even positions give geometry questions with their own image path |
| Schedule.DynamicShape | main.py:144-152 | a completed run alternates counting (odd) and geometry (even) questions, the latter with image `geometry_question_{i//2}.png` |
| Schedule.DynamicCount | main.py:144 | a completed run has exactly max(count, 0) questions |
| Schedule.ImageNameInjective | main.py:149 | image names differ for different numbers |
| Schedule.ImagePathsDistinct | main.py:149 | for even positions, the image paths differ iff the positions do |
| Schedule.ImagesDistinct | main.py:144-152 | in an alternating list, no two questions share an image path |
| Schedule.DynamicImagesDistinct | main.py:144-152 | no two questions of a completed dynamic run share an image file |
| Geometry.ShippedNeverRaises | src/question_generator.py:353-354 | the shipped geometry context yields a question for any draws |
| Schedule.ShippedCall | main.py:143-148 | with the shipped contexts, no generator call raises |
| Schedule.ShippedNeverFails | main.py:143-152 | with the shipped contexts, the dynamic loop always completes |
| Schedule.DynamicResult | main.py:143-152 | the loop's own result, when no call raises: max(count, 0) questions, counting at odd positions, geometry at even ones, no image file used twice |
| Schedule.ShippedDynamic | main.py:143-152 | with the shipped contexts, the loop's own result always has max(count, 0) questions |
| Schedule.FixedMode | main.py:140 | `questions[:count]` is a prefix of the table of length min(count, \|table\|), or drops −count entries from the end when count < 0 |

## Left out

- The Word document, the geometry image and matplotlib are left out (`create_word_document`, `generate_geometry_image`), because they are output formats and drawing rather than logic. The model records only the image path a geometry question gets.
- File I/O, `argparse`, `os.makedirs` and every `print` are left out. The model gives the writes as a sequence of strings, and the file's text is their concatenation.
- The random module is left out. Choices, shuffle draws and randint pairs are parameters, constrained to the values the random module can produce.
- IEEE floating point is left out. The radius is a whole number of tenths (1.4 cm is 14). A length is computed exactly in tenths. `int()` of a length is a truncating division, and `str()` of a length is printed as `X.Y`. That matches CPython for the shipped context: arrangement 4×2, radius 1.4. For other arrangements or radii, both `int()` and `str()` of a length may differ from CPython's doubles. Two examples with the shipped radius: 45 × 2.8 is 125.99999999999999 in CPython, so `int()` gives 125 where the model gives 126; 3 × 2.8 prints as 8.399999999999999 where the model prints 8.4.
- `int()` is modelled for ASCII digits, an optional sign and surrounding spaces. Underscores in numbers, other Unicode digits and other whitespace are left out.
- The `get_fixed_questions` call path is left out (src/question_generator.py:375-377, main.py:138). That function takes no `self`, and main.py calls an undefined name, so fixed mode raises as written. The model applies fixed mode to the constant table directly.
- The curriculum dictionary built in `__init__` is left out; nothing in the core reads it.
- Schedule.Calls: gives the result of every call for positions 1..n, as if none had raised. `Run` stops at the first exception, as the loop does.
- Export: a write is one `f.write` text. A counting question's text embeds its table, so writes are not physical lines of the file.
- Export.BlockMarked: assumes the explanation does not start with `@@option `. No generated or fixed explanation does.
- Export.OutputMarked: assumes, as BlockMarked does, that no explanation starts with `@@option `.
- Geometry.GeometryErrors: the if-and-only-if holds only while rows × d and cols × d fit in a double. For larger arrangements CPython raises where the model returns a question: OverflowError from `int()` of an infinite length (src/question_generator.py:359), or from converting an integer of 2**1024 or more to float (src/question_generator.py:357).
- PyText.IntToString, PyText.ParseInt, Counting.GenerateCountingQuestion: CPython 3.11 and later refuse `str()` and `int()` of more than 4300 decimal digits by default, with ValueError. The model has no such bound, so a context whose product has more than 4300 digits gives a question where CPython raises at src/question_generator.py:344.
- Geometry.ShippedGeometryQuestion: states the prompt as `Prompt(ctx, 4, 2)` rather than as a literal.
- Counting.ExplanationRoundTrip: needs at least one component, since an empty factor list prints as an empty string that does not parse back.
- The module docstring and the loader's docstring say the fixed table holds 25 questions. The code lists 28, and the model follows the code.
- The image drawn in the source is always the 2 × 4 grid of radius 1.5 (main.py:150), not the packing the question asks about. Only the path is modelled. Geometry.TwoByFourScenario states the correct option that drawing would have, "6 × 12".
