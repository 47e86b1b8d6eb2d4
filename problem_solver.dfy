/** The `/api/solve` routes: solving a problem step by step, checking a student's work,
    generating practice problems, and evaluating an expression before asking the completion
    API to explain it. */
module ProblemSolver {
  import opened Js
  import opened Http

  /** The system prompt shared by the problem-solving routes. */
  const ProblemSolverPrompt: string := Join([
      "You are an expert mechanical engineering problem solver and tutor. When presented with a problem, you must:",
      "",
      "PROBLEM ANALYSIS:",
      "1. Identify the type of problem (Statics, Dynamics, Thermodynamics, Fluid Mechanics, etc.)",
      "2. List all given information clearly",
      "3. Identify what needs to be found",
      "4. State relevant assumptions",
      "",
      "SOLUTION APPROACH:",
      "1. Explain the underlying physics/engineering principles",
      "2. Identify relevant equations and formulas",
      "3. Draw free body diagrams or sketches when applicable (describe them)",
      "4. Show ALL calculation steps with proper units",
      "5. Explain the reasoning behind each step",
      "6. Verify the final answer for reasonableness",
      "",
      "EDUCATIONAL VALUE:",
      "1. Explain WHY each step is necessary",
      "2. Point out common mistakes students make",
      "3. Suggest alternative solution methods if applicable",
      "4. Connect to real-world applications",
      "5. Recommend follow-up topics to study",
      "",
      "BEGINNER-FRIENDLY APPROACH:",
      "- Define technical terms as you use them",
      "- Explain the physical meaning of results",
      "- Use analogies when helpful",
      "- Break complex problems into simpler sub-problems",
      "",
      "Always show your work step-by-step and explain the reasoning behind each calculation."
    ], "\n")

  // ---------------------------------------------------------------------------
  // POST /solve-problem

  const SubjectAreaHeading: string := "\n\nSUBJECT AREA: "
  const AdditionalContextHeading: string := "\n\nADDITIONAL CONTEXT: "

  /** The system prompt `/solve-problem` builds: the shared prompt, then the subject line when
      `subject` is truthy, then the context line when `context` is truthy. */
  function SolvePrompt(subject: Value, context: Value): string {
    Render([Text(ProblemSolverPrompt), Optional(SubjectAreaHeading, subject), Optional(AdditionalContextHeading, context)])
  }

  /** The shared prompt is always a prefix; the prompt is exactly the shared prompt when neither
      field is truthy; a truthy subject's line comes right after it and a truthy context's line
      comes last. */
  lemma SolvePromptLines(subject: Value, context: Value)
    ensures StartsWith(SolvePrompt(subject, context), ProblemSolverPrompt)
    ensures SolvePrompt(subject, context) == ProblemSolverPrompt <==> !Truthy(subject) && !Truthy(context)
    ensures Truthy(subject) ==>
      OccursAt(SolvePrompt(subject, context), SubjectAreaHeading + Interpolate(subject), |ProblemSolverPrompt|)
    ensures Truthy(context) ==>
      EndsWith(SolvePrompt(subject, context), AdditionalContextHeading + Interpolate(context))
  {
    TextThenTwoLines(ProblemSolverPrompt, SubjectAreaHeading, subject, AdditionalContextHeading, context);
  }

  /** POST /solve-problem: the prompt grows by `+=` under two `if`s, then one completion call. */
  method SolveProblem(problem: Value, subject: Value, context: Value, complete: Gateway) returns (h: Handled)
    ensures ToStringThrows(subject) || ToStringThrows(context) || ToStringThrows(problem) ==>
      h == Handled(Failure(500, "Failed to solve problem"), [])
    ensures !ToStringThrows(subject) && !ToStringThrows(context) && !ToStringThrows(problem) ==>
      var messages := SystemAndUser(SolvePrompt(subject, context),
                                          Str("Please solve this problem step by step: " + Interpolate(problem)));
      && h.trace == [Complete(messages)]
      && (complete(messages).Ok? ==>
            h.reply == Reply(200, Obj([("solution", complete(messages).value.content), ("problem", problem),
                                       ("subject", Or(subject, Str("General Engineering")))])))
      && (complete(messages).Err? ==> h.reply == Failure(500, "Failed to solve problem"))
  {
    // Interpolating a value whose conversion throws ends in the catch block before any call.
    if ToStringThrows(subject) || ToStringThrows(context) || ToStringThrows(problem) {
      return Handled(Failure(500, "Failed to solve problem"), []);
    }
    var enhancedPrompt := ProblemSolverPrompt;
    if Truthy(subject) {
      enhancedPrompt := enhancedPrompt + (SubjectAreaHeading + Interpolate(subject));
    }
    AppendOptional(ProblemSolverPrompt, SubjectAreaHeading, subject);
    ghost var withSubject := enhancedPrompt;
    if Truthy(context) {
      enhancedPrompt := enhancedPrompt + (AdditionalContextHeading + Interpolate(context));
    }
    AppendOptional(withSubject, AdditionalContextHeading, context);
    RenderTriple(Text(ProblemSolverPrompt), Optional(SubjectAreaHeading, subject), Optional(AdditionalContextHeading, context));
    assert enhancedPrompt == SolvePrompt(subject, context);

    var messages := SystemAndUser(enhancedPrompt, Str("Please solve this problem step by step: " + Interpolate(problem)));
    match complete(messages)
    case Err(_) =>
      h := Handled(Failure(500, "Failed to solve problem"), [Complete(messages)]);
    case Ok(completion) =>
      var body := Obj([("solution", completion.content), ("problem", problem),
                     ("subject", Or(subject, Str("General Engineering")))]);
      h := Handled(Reply(200, body), [Complete(messages)]);
  }

  // ---------------------------------------------------------------------------
  // POST /check-work

  const CheckWorkTask: string := "\n"
      + "\n"
      + "TASK: Review and provide feedback on a student's solution to an "
      + "engineering problem.\n"
      + "\n"
      + "PROBLEM: "
  const StudentSolutionHeading: string := "\nSTUDENT'S SOLUTION: "
  const CorrectAnswerHeading: string := "CORRECT ANSWER: "
  const CheckWorkInstructions: string := Join([
      "",
      "",
      "Please provide:",
      "1. Assessment of the student's approach",
      "2. Identification of correct steps",
      "3. Identification of errors or misconceptions",
      "4. Suggestions for improvement",
      "5. Hints for next steps if the solution is incomplete",
      "6. Encouragement and positive feedback where appropriate",
      "",
      "Be constructive and educational in your feedback, focusing on helping the student learn."
    ], "\n")

  /** The system prompt of `/check-work`: the shared prompt, the `TASK:` line, the problem, the student's
      solution, the correct answer when one is given, and the review instructions. */
  function CheckWorkPrompt(problem: Value, studentSolution: Value, correctAnswer: Value): string {
    Render([Text(ProblemSolverPrompt + CheckWorkTask), Slot(problem), Text(StudentSolutionHeading), Slot(studentSolution),
            Text("\n"), Optional(CorrectAnswerHeading, correctAnswer), Text(CheckWorkInstructions)])
  }

  /** The problem and the student's solution are always embedded, each right after its heading,
      and the prompt starts with the shared prompt and the `TASK:` line. */
  lemma CheckWorkEmbedsSubmission(problem: Value, studentSolution: Value, correctAnswer: Value)
    ensures StartsWith(CheckWorkPrompt(problem, studentSolution, correctAnswer), ProblemSolverPrompt + CheckWorkTask)
    ensures var at := |ProblemSolverPrompt + CheckWorkTask|;
      && OccursAt(CheckWorkPrompt(problem, studentSolution, correctAnswer), Interpolate(problem), at)
      && OccursAt(CheckWorkPrompt(problem, studentSolution, correctAnswer), Interpolate(studentSolution),
                  at + |Interpolate(problem)| + |StudentSolutionHeading|)
  {
    TwoQuotes(ProblemSolverPrompt + CheckWorkTask, problem, StudentSolutionHeading, studentSolution,
              "\n", Optional(CorrectAnswerHeading, correctAnswer), CheckWorkInstructions);
  }

  /** The correct-answer line is present exactly when `correctAnswer` is truthy, right after the
      line holding the student's solution. */
  lemma CorrectAnswerLine(problem: Value, studentSolution: Value, correctAnswer: Value)
    ensures var at := |ProblemSolverPrompt + CheckWorkTask| + |Interpolate(problem)| + |StudentSolutionHeading|
                      + |Interpolate(studentSolution)| + |"\n"|;
      && at <= |CheckWorkPrompt(problem, studentSolution, Undefined)|
      && CheckWorkPrompt(problem, studentSolution, correctAnswer)
         == if Truthy(correctAnswer)
            then Insert(CheckWorkPrompt(problem, studentSolution, Undefined), at, CorrectAnswerHeading + Interpolate(correctAnswer))
            else CheckWorkPrompt(problem, studentSolution, Undefined)
  {
    LineBeforeClosing(ProblemSolverPrompt + CheckWorkTask, problem, StudentSolutionHeading, studentSolution,
                      "\n", CorrectAnswerHeading, correctAnswer, CheckWorkInstructions);
  }

  /** POST /check-work: one completion call with the assembled prompt as the system message. */
  function CheckWork(problem: Value, studentSolution: Value, correctAnswer: Value, complete: Gateway): (h: Handled)
    ensures ToStringThrows(problem) || ToStringThrows(studentSolution) || ToStringThrows(correctAnswer) ==>
      h == Handled(Failure(500, "Failed to check work"), [])
    ensures !ToStringThrows(problem) && !ToStringThrows(studentSolution) && !ToStringThrows(correctAnswer) ==>
      var messages := SystemAndUser(CheckWorkPrompt(problem, studentSolution, correctAnswer),
                                    Str("Please review my work on this problem."));
      && h.trace == [Complete(messages)]
      && (complete(messages).Ok? ==>
            h.reply == Reply(200, Obj([("feedback", complete(messages).value.content), ("problem", problem)])))
      && (complete(messages).Err? ==> h.reply == Failure(500, "Failed to check work"))
  {
    if ToStringThrows(problem) || ToStringThrows(studentSolution) || ToStringThrows(correctAnswer) then
      Handled(Failure(500, "Failed to check work"), [])
    else
      var messages := SystemAndUser(CheckWorkPrompt(problem, studentSolution, correctAnswer),
                                    Str("Please review my work on this problem."));
      match complete(messages)
      case Err(_) => Handled(Failure(500, "Failed to check work"), [Complete(messages)])
      case Ok(completion) =>
        var body := Obj([("feedback", completion.content), ("problem", problem)]);
        Handled(Reply(200, body), [Complete(messages)])
  }

  // ---------------------------------------------------------------------------
  // POST /generate-problems

  const GenerateInstructions: string := Join([
      " level.",
      "",
      "For each problem, provide:",
      "1. A clear problem statement with given values",
      "2. What needs to be found",
      "3. Difficulty level indicators",
      "4. Brief solution approach (without full solution)",
      "",
      "Make problems realistic and relevant to Virginia Tech mechanical engineering curriculum.",
      "Include proper units and realistic numerical values.",
      "Problems should build understanding of key concepts."
    ], "\n")

  function GenerateRequest(subject: Value, topic: Value, difficulty: Value, count: Value): string {
    Render([Text("Generate "), Slot(Or(count, Num(3))), Text(" practice problems for ")]
           + [Slot(subject), Text(" - "), Slot(topic), Text(" at "), Slot(Or(difficulty, Str("beginner"))),
              Text(GenerateInstructions)])
  }

  /** A falsy count (missing, 0, "") asks for 3 problems and a falsy difficulty asks for
      beginner level, exactly as if those values had been sent. */
  lemma GenerateDefaults(subject: Value, topic: Value, difficulty: Value, count: Value)
    ensures !Truthy(count) ==>
      GenerateRequest(subject, topic, difficulty, count) == GenerateRequest(subject, topic, difficulty, Num(3))
    ensures !Truthy(difficulty) ==>
      GenerateRequest(subject, topic, difficulty, count) == GenerateRequest(subject, topic, Str("beginner"), count)
    ensures StartsWith(GenerateRequest(subject, topic, difficulty, count),
                       "Generate " + (if Truthy(count) then Interpolate(count) else "3") + " practice problems for ")
  {
    OpeningSlot("Generate ", Or(count, Num(3)), " practice problems for ",
                [Slot(subject), Text(" - "), Slot(topic), Text(" at "), Slot(Or(difficulty, Str("beginner"))),
                 Text(GenerateInstructions)]);
    assert NatToDecimal(3) == "3";
  }

  /** POST /generate-problems: the shared prompt as the system message, the request as the
      user message; the reply echoes the defaulted difficulty. */
  function GenerateProblems(subject: Value, topic: Value, difficulty: Value, count: Value, complete: Gateway): (h: Handled)
    ensures ToStringThrows(count) || ToStringThrows(subject) || ToStringThrows(topic) || ToStringThrows(difficulty) ==>
      h == Handled(Failure(500, "Failed to generate practice problems"), [])
    ensures !ToStringThrows(count) && !ToStringThrows(subject) && !ToStringThrows(topic) && !ToStringThrows(difficulty) ==>
      var messages := SystemAndUser(ProblemSolverPrompt, Str(GenerateRequest(subject, topic, difficulty, count)));
      && h.trace == [Complete(messages)]
      && (complete(messages).Ok? ==>
            h.reply == Reply(200, Obj([("problems", complete(messages).value.content), ("subject", subject),
                                       ("topic", topic), ("difficulty", Or(difficulty, Str("beginner")))])))
      && (complete(messages).Err? ==> h.reply == Failure(500, "Failed to generate practice problems"))
  {
    if ToStringThrows(Or(count, Num(3))) || ToStringThrows(subject) || ToStringThrows(topic)
       || ToStringThrows(Or(difficulty, Str("beginner"))) then
      Handled(Failure(500, "Failed to generate practice problems"), [])
    else
      var messages := SystemAndUser(ProblemSolverPrompt, Str(GenerateRequest(subject, topic, difficulty, count)));
      match complete(messages)
      case Err(_) => Handled(Failure(500, "Failed to generate practice problems"), [Complete(messages)])
      case Ok(completion) =>
        var body := Obj([("problems", completion.content), ("subject", subject), ("topic", topic),
                       ("difficulty", Or(difficulty, Str("beginner")))]);
        Handled(Reply(200, body), [Complete(messages)])
  }

  // ---------------------------------------------------------------------------
  // POST /calculate

  /** What the expression evaluator (mathjs) does with an expression: yields a result or throws. */
  datatype Evaluation = Evaluated(result: Value) | Threw(message: string)

  const CalculateOpening: string := "Explain this mathematical calculation step by step:\n"
      + "        \n"
      + "Expression: "
  const ResultHeading: string := "\nResult: "
  const ContextHeading: string := "Context: "
  const CalculateInstructions: string := Join([
      "",
      "",
      "Provide:",
      "1. Step-by-step breakdown of the calculation",
      "2. Explanation of mathematical concepts used",
      "3. Physical meaning if applicable",
      "4. Unit analysis if relevant"
    ], "\n")
  const MathTutorRole: string := "You are a math tutor helping with engineering calculations."

  /** The prompt asking for an explanation of an evaluated expression. */
  function CalculateRequest(expression: Value, result: Value, context: Value): string {
    Render([Text(CalculateOpening), Slot(expression), Text(ResultHeading), Slot(result),
            Text("\n"), Optional(ContextHeading, context), Text(CalculateInstructions)])
  }

  /** The explanation request starts with its opening and carries both the expression and its
      result, each right after its heading. */
  lemma CalculateRequestQuotes(expression: Value, result: Value, context: Value)
    ensures StartsWith(CalculateRequest(expression, result, context), CalculateOpening)
    ensures OccursAt(CalculateRequest(expression, result, context), Interpolate(expression), |CalculateOpening|)
    ensures OccursAt(CalculateRequest(expression, result, context), Interpolate(result),
                     |CalculateOpening| + |Interpolate(expression)| + |ResultHeading|)
  {
    TwoQuotes(CalculateOpening, expression, ResultHeading, result,
              "\n", Optional(ContextHeading, context), CalculateInstructions);
  }

  /** The context line is present exactly when `context` is truthy, right after the result's line. */
  lemma CalculateContextLine(expression: Value, result: Value, context: Value)
    ensures var at := |CalculateOpening| + |Interpolate(expression)| + |ResultHeading| + |Interpolate(result)| + |"\n"|;
      && at <= |CalculateRequest(expression, result, Undefined)|
      && CalculateRequest(expression, result, context)
         == if Truthy(context)
            then Insert(CalculateRequest(expression, result, Undefined), at, ContextHeading + Interpolate(context))
            else CalculateRequest(expression, result, Undefined)
  {
    LineBeforeClosing(CalculateOpening, expression, ResultHeading, result,
                      "\n", ContextHeading, context, CalculateInstructions);
  }

  /** POST /calculate: evaluate first; a throwing evaluation answers 400 at once and the
      completion API is never called; otherwise the result is explained and echoed unchanged. */
  method Calculate(expression: Value, context: Value, evaluate: Value -> Evaluation, complete: Gateway)
    returns (h: Handled)
    ensures |h.trace| >= 1 && h.trace[0] == Evaluate(expression)
    ensures evaluate(expression).Threw? ==>
      h == Handled(FailureWithDetails(400, "Invalid mathematical expression", evaluate(expression).message),
                   [Evaluate(expression)])
    ensures evaluate(expression).Evaluated? && (ToStringThrows(expression) || ToStringThrows(context)) ==>
      h == Handled(Failure(500, "Failed to perform calculation"), [Evaluate(expression)])
    ensures evaluate(expression).Evaluated? && !ToStringThrows(expression) && !ToStringThrows(context) ==>
      var result := evaluate(expression).result;
      var messages := SystemAndUser(MathTutorRole, Str(CalculateRequest(expression, result, context)));
      && h.trace == [Evaluate(expression), Complete(messages)]
      && (complete(messages).Ok? ==>
            h.reply == Reply(200, Obj([("expression", expression), ("result", result),
                                       ("explanation", complete(messages).value.content)])))
      && (complete(messages).Err? ==> h.reply == Failure(500, "Failed to perform calculation"))
  {
    var trace := [Evaluate(expression)];
    var evaluation := evaluate(expression);
    if evaluation.Threw? {
      return Handled(FailureWithDetails(400, "Invalid mathematical expression", evaluation.message), trace);
    }
    if ToStringThrows(expression) || ToStringThrows(context) {
      return Handled(Failure(500, "Failed to perform calculation"), trace);
    }
    var result := evaluation.result;
    var messages := SystemAndUser(MathTutorRole, Str(CalculateRequest(expression, result, context)));
    trace := trace + [Complete(messages)];
    match complete(messages)
    case Err(_) =>
      h := Handled(Failure(500, "Failed to perform calculation"), trace);
    case Ok(completion) =>
      var body := Obj([("expression", expression), ("result", result), ("explanation", completion.content)]);
      h := Handled(Reply(200, body), trace);
  }
}
