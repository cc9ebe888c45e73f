/**
 * The question record the generators return and the exporter reads, and the
 * exceptions question generation can raise.
 */
module Questions {
  import opened Wrappers

  /**
   * One multiple-choice question. `imagePath` is None both when the record has
   * no `image_path` key (counting questions) and when it holds Python's None.
   */
  datatype Question = Question(
    question: string,
    options: seq<string>,
    correctIndex: int,
    explanation: string,
    subject: string,
    unit: string,
    topic: string,
    imagePath: Option<string>)

  /** Python exceptions raised while generating a question. */
  datatype GenerationError =
    | EmptyChoice            // IndexError: random.choice on an empty context list
    | NoArrangement          // IndexError: ctx["arrangements"][0] on an empty list
    | UnpackMismatch         // ValueError: the arrangement does not split into exactly two parts
    | NotAnInteger(text: string)  // ValueError: int() of a part that is not decimal text

  const Subject: string := "Quantitative Math"
}
