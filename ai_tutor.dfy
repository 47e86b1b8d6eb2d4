/** The `/api/tutor` routes: free chat with the tutor, help with one subject and topic, and the
    explanation of a piece of content, all built on one system prompt that lists the
    curriculum's core subjects. */
module AiTutor {
  import opened Js
  import opened Http

  /** The core subjects of the mechanical-engineering curriculum, in the order the prompt
      lists them. */
  const CoreSubjects: seq<string> := [
    "Calculus I, II, III", "Differential Equations", "Linear Algebra",
    "Physics I, II (Mechanics, E&M)", "Chemistry", "Statistics",
    "Statics", "Dynamics", "Fluid Dynamics", "Thermodynamics",
    "Heat and Mass Transfer", "Materials Engineering", "Controls Engineering",
    "Mechanical Design", "Manufacturing Processes", "Vibrations"
  ]

  const SubjectSeparator: string := ", "

  /** The text of the tutor prompt before the subject list. */
  const TutorIntro: string := Join([
      "You are an expert AI tutor specializing in Mechanical Engineering for Virginia Tech students. Your knowledge base includes:",
      "",
      "CORE SUBJECTS: "
    ], "\n")

  /** The text of the tutor prompt after the subject list. */
  const TutorGuidance: string := Join([
      "",
      "",
      "EDUCATIONAL RESOURCES:",
      "- MIT OpenCourseWare materials for all subjects",
      "- Engineering Statics textbook content",
      "- Thermodynamics and heat transfer fundamentals",
      "- Fluid mechanics and dynamics principles",
      "- Materials science and engineering mechanics",
      "- Control systems and vibrations theory",
      "- Mathematical foundations (Calculus, Differential Equations, Linear Algebra)",
      "",
      "TEACHING APPROACH:",
      "1. Always start with fundamental concepts and build up complexity",
      "2. Provide step-by-step explanations suitable for beginners",
      "3. Use real-world engineering examples and applications",
      "4. Break down complex problems into manageable steps",
      "5. Explain the \"why\" behind each step, not just the \"how\"",
      "6. Connect concepts across different subjects when relevant",
      "7. Encourage critical thinking and problem-solving skills",
      "",
      "COMMUNICATION STYLE:",
      "- Patient and encouraging, like a knowledgeable teaching assistant",
      "- Use clear, simple language that a beginner can understand",
      "- Provide visual descriptions when helpful",
      "- Ask follow-up questions to ensure understanding",
      "- Offer multiple approaches to solve problems",
      "",
      "When solving problems:",
      "1. Identify what type of problem it is",
      "2. List given information and what needs to be found",
      "3. Explain relevant principles and equations",
      "4. Show step-by-step solution with clear explanations",
      "5. Verify the answer and explain its physical meaning",
      "6. Suggest related practice problems or concepts to study",
      "",
      "Remember: You're teaching a beginner, so explain every step clearly and don't assume prior knowledge."
    ], "\n")

  /** The tutor's system prompt: the introduction, the core subjects joined with ", ", and
      the guidance. */
  const TutorSystemPrompt: string := TutorIntro + Join(CoreSubjects, SubjectSeparator) + TutorGuidance

  /** The prompt opens with its introduction and closes with its guidance. */
  lemma TutorPromptFrame()
    ensures StartsWith(TutorSystemPrompt, TutorIntro)
    ensures EndsWith(TutorSystemPrompt, TutorGuidance)
  {
    PrefixOfConcat(TutorIntro, Join(CoreSubjects, SubjectSeparator) + TutorGuidance);
    assert TutorSystemPrompt == TutorIntro + (Join(CoreSubjects, SubjectSeparator) + TutorGuidance);
    SuffixOfConcat(TutorIntro + Join(CoreSubjects, SubjectSeparator), TutorGuidance);
  }

  /** Every core subject appears in the prompt, at its place in the list after the
      introduction; each but the last is followed by ", " and then by the next subject, so the
      subjects appear in list order. */
  lemma CoreSubjectListed(i: nat)
    requires i < |CoreSubjects|
    ensures OccursAt(TutorSystemPrompt, CoreSubjects[i], |TutorIntro| + JoinOffset(CoreSubjects, SubjectSeparator, i))
    ensures i + 1 < |CoreSubjects| ==>
      && OccursAt(TutorSystemPrompt, SubjectSeparator,
                  |TutorIntro| + JoinOffset(CoreSubjects, SubjectSeparator, i) + |CoreSubjects[i]|)
      && JoinOffset(CoreSubjects, SubjectSeparator, i + 1)
         == JoinOffset(CoreSubjects, SubjectSeparator, i) + |CoreSubjects[i]| + |SubjectSeparator|
  {
    JoinedItem(TutorIntro, CoreSubjects, SubjectSeparator, TutorGuidance, i);
  }

  // ---------------------------------------------------------------------------
  // POST /chat

  const SubjectFocusHeading: string := "\n\nCURRENT SUBJECT FOCUS: "
  const ChatContextHeading: string := "\n\nCONTEXT: "

  /** The system prompt `/chat` builds: the tutor prompt, then the subject line when `subject`
      is truthy, then the context line when `context` is truthy. */
  function ChatPrompt(subject: Value, context: Value): string {
    Render([Text(TutorSystemPrompt), Optional(SubjectFocusHeading, subject), Optional(ChatContextHeading, context)])
  }

  /** The tutor prompt is always a prefix; the prompt is the bare tutor prompt exactly when
      neither field is truthy; a truthy subject's line comes right after it and a truthy
      context's line comes last. */
  lemma ChatPromptLines(subject: Value, context: Value)
    ensures StartsWith(ChatPrompt(subject, context), TutorSystemPrompt)
    ensures ChatPrompt(subject, context) == TutorSystemPrompt <==> !Truthy(subject) && !Truthy(context)
    ensures Truthy(subject) ==>
      OccursAt(ChatPrompt(subject, context), SubjectFocusHeading + Interpolate(subject), |TutorSystemPrompt|)
    ensures Truthy(context) ==>
      EndsWith(ChatPrompt(subject, context), ChatContextHeading + Interpolate(context))
  {
    TextThenTwoLines(TutorSystemPrompt, SubjectFocusHeading, subject, ChatContextHeading, context);
  }

  /** POST /chat: the prompt grows by `+=` under two `if`s; the student's message is passed to
      the completion API unchanged as the user message. */
  method Chat(message: Value, context: Value, subject: Value, complete: Gateway) returns (h: Handled)
    ensures ToStringThrows(subject) || ToStringThrows(context) ==>
      h == Handled(Failure(500, "Failed to get response from AI tutor"), [])
    ensures !ToStringThrows(subject) && !ToStringThrows(context) ==>
      var messages := SystemAndUser(ChatPrompt(subject, context), message);
      && h.trace == [Complete(messages)]
      && (complete(messages).Ok? ==>
            h.reply == Reply(200, Obj([("response", complete(messages).value.content),
                                       ("usage", complete(messages).value.usage)])))
      && (complete(messages).Err? ==> h.reply == Failure(500, "Failed to get response from AI tutor"))
  {
    // Interpolating a value whose conversion throws ends in the catch block before any call.
    if ToStringThrows(subject) || ToStringThrows(context) {
      return Handled(Failure(500, "Failed to get response from AI tutor"), []);
    }
    var enhancedPrompt := TutorSystemPrompt;
    if Truthy(subject) {
      enhancedPrompt := enhancedPrompt + (SubjectFocusHeading + Interpolate(subject));
    }
    AppendOptional(TutorSystemPrompt, SubjectFocusHeading, subject);
    ghost var withSubject := enhancedPrompt;
    if Truthy(context) {
      enhancedPrompt := enhancedPrompt + (ChatContextHeading + Interpolate(context));
    }
    AppendOptional(withSubject, ChatContextHeading, context);
    RenderTriple(Text(TutorSystemPrompt), Optional(SubjectFocusHeading, subject), Optional(ChatContextHeading, context));
    assert enhancedPrompt == ChatPrompt(subject, context);

    var messages := SystemAndUser(enhancedPrompt, message);
    match complete(messages)
    case Err(_) =>
      h := Handled(Failure(500, "Failed to get response from AI tutor"), [Complete(messages)]);
    case Ok(completion) =>
      h := Handled(Reply(200, Obj([("response", completion.content), ("usage", completion.usage)])), [Complete(messages)]);
  }

  // ---------------------------------------------------------------------------
  // POST /subject-help

  const SpecificRequestHeading: string := "\n\nSPECIFIC REQUEST: Provide comprehensive help for "
  const StudentLevelHeading: string := "\nSTUDENT LEVEL: "
  const SubjectHelpInstructions: string := Join([
      "",
      "",
      "Please provide:",
      "1. Key concepts and principles",
      "2. Important equations and formulas",
      "3. Step-by-step problem-solving approach",
      "4. Common mistakes to avoid",
      "5. Practice problem suggestions",
      "6. Real-world applications",
      "",
      "Focus on clear, beginner-friendly explanations with detailed steps."
    ], "\n")

  /** The system prompt of `/subject-help`: the tutor prompt, the subject and topic, and the
      student's level, `beginner` when none is given. */
  function SubjectHelpPrompt(subject: Value, topic: Value, level: Value): string {
    Render([Text(TutorSystemPrompt + SpecificRequestHeading), Slot(subject), Text(" - "), Slot(topic),
            Text(StudentLevelHeading), Slot(Or(level, Str("beginner"))), Text(SubjectHelpInstructions)])
  }

  /** The prompt starts with the tutor prompt and the request heading, then names the subject,
      the topic and the level, each right after the text before it; a falsy level (missing,
      "", 0) reads `beginner`, exactly as if that level had been sent. */
  lemma SubjectHelpQuotes(subject: Value, topic: Value, level: Value)
    ensures StartsWith(SubjectHelpPrompt(subject, topic, level), TutorSystemPrompt + SpecificRequestHeading)
    ensures var at := |TutorSystemPrompt + SpecificRequestHeading|;
      && OccursAt(SubjectHelpPrompt(subject, topic, level), Interpolate(subject), at)
      && OccursAt(SubjectHelpPrompt(subject, topic, level), Interpolate(topic), at + |Interpolate(subject)| + |" - "|)
      && OccursAt(SubjectHelpPrompt(subject, topic, level), if Truthy(level) then Interpolate(level) else "beginner",
                  at + |Interpolate(subject)| + |" - "| + |Interpolate(topic)| + |StudentLevelHeading|)
    ensures !Truthy(level) ==>
      SubjectHelpPrompt(subject, topic, level) == SubjectHelpPrompt(subject, topic, Str("beginner"))
  {
    TwoQuotes(TutorSystemPrompt + SpecificRequestHeading, subject, " - ", topic,
              StudentLevelHeading, Slot(Or(level, Str("beginner"))), SubjectHelpInstructions);
    ThirdQuote(TutorSystemPrompt + SpecificRequestHeading, subject, " - ", topic,
               StudentLevelHeading, Or(level, Str("beginner")), SubjectHelpInstructions);
  }

  /** POST /subject-help: the reply echoes the raw level, which may be missing, although the
      prompt used the default. */
  function SubjectHelp(subject: Value, topic: Value, level: Value, complete: Gateway): (h: Handled)
    ensures ToStringThrows(subject) || ToStringThrows(topic) || ToStringThrows(level) ==>
      h == Handled(Failure(500, "Failed to get subject-specific help"), [])
    ensures !ToStringThrows(subject) && !ToStringThrows(topic) && !ToStringThrows(level) ==>
      var messages := SystemAndUser(SubjectHelpPrompt(subject, topic, level),
                                          Str("I need help understanding " + Interpolate(topic) + " in " + Interpolate(subject)));
      && h.trace == [Complete(messages)]
      && (complete(messages).Ok? ==>
            h.reply == Reply(200, Obj([("response", complete(messages).value.content), ("subject", subject),
                                       ("topic", topic), ("level", level)])))
      && (complete(messages).Err? ==> h.reply == Failure(500, "Failed to get subject-specific help"))
  {
    if ToStringThrows(subject) || ToStringThrows(topic) || ToStringThrows(Or(level, Str("beginner"))) then
      Handled(Failure(500, "Failed to get subject-specific help"), [])
    else
      var messages := SystemAndUser(SubjectHelpPrompt(subject, topic, level),
                                    Str("I need help understanding " + Interpolate(topic) + " in " + Interpolate(subject)));
      match complete(messages)
      case Err(_) => Handled(Failure(500, "Failed to get subject-specific help"), [Complete(messages)])
      case Ok(completion) =>
        var body := Obj([("response", completion.content), ("subject", subject), ("topic", topic), ("level", level)]);
        Handled(Reply(200, body), [Complete(messages)])
  }

  // ---------------------------------------------------------------------------
  // POST /explain-content

  const ExplainTaskHeading: string := "\n\nTASK: Explain the following "
  const ExplainTaskRest: string := " content in detail, suitable for a mechanical engineering beginner.\n\n"
  const ContentContextHeading: string := "CONTEXT: "
  const ExplainInstructions: string := Join([
      "",
      "",
      "Please provide:",
      "1. Overview of what this content covers",
      "2. Key concepts and principles explained",
      "3. Important equations or formulas (if any)",
      "4. Step-by-step breakdown of complex parts",
      "5. How this relates to mechanical engineering curriculum",
      "6. Study tips and what to focus on",
      "",
      "Remember to explain everything clearly as if teaching a beginner."
    ], "\n")

  /** The system prompt of `/explain-content`: the tutor prompt, the `TASK:` line naming the content
      type, the context line when `context` is truthy, and the instructions. */
  function ExplainContentPrompt(contentType: Value, context: Value): string {
    Render([Text(TutorSystemPrompt + ExplainTaskHeading), Slot(contentType), Text(ExplainTaskRest)]
           + ([Optional(ContentContextHeading, context)] + [Text(ExplainInstructions)]))
  }

  /** The prompt starts with the tutor prompt and the `TASK:` line naming the content type. */
  lemma ExplainContentOpening(contentType: Value, context: Value)
    ensures StartsWith(ExplainContentPrompt(contentType, context),
                       TutorSystemPrompt + ExplainTaskHeading + Interpolate(contentType) + ExplainTaskRest)
  {
    OpeningSlot(TutorSystemPrompt + ExplainTaskHeading, contentType, ExplainTaskRest,
                [Optional(ContentContextHeading, context)] + [Text(ExplainInstructions)]);
  }

  /** The context line is present exactly when `context` is truthy, right after the `TASK:` line. */
  lemma ExplainContentContextLine(contentType: Value, context: Value)
    ensures var at := |TutorSystemPrompt + ExplainTaskHeading| + |Interpolate(contentType)| + |ExplainTaskRest|;
      && at <= |ExplainContentPrompt(contentType, Undefined)|
      && ExplainContentPrompt(contentType, context)
         == if Truthy(context)
            then Insert(ExplainContentPrompt(contentType, Undefined), at, ContentContextHeading + Interpolate(context))
            else ExplainContentPrompt(contentType, Undefined)
  {
    LineAfterOpening(TutorSystemPrompt + ExplainTaskHeading, contentType, ExplainTaskRest,
                     ContentContextHeading, context, [Text(ExplainInstructions)]);
  }

  /** POST /explain-content: the content itself is the user message, unchanged. */
  function ExplainContent(content: Value, contentType: Value, context: Value, complete: Gateway): (h: Handled)
    ensures ToStringThrows(contentType) || ToStringThrows(context) ==>
      h == Handled(Failure(500, "Failed to explain content"), [])
    ensures !ToStringThrows(contentType) && !ToStringThrows(context) ==>
      var messages := SystemAndUser(ExplainContentPrompt(contentType, context), content);
      && h.trace == [Complete(messages)]
      && (complete(messages).Ok? ==>
            h.reply == Reply(200, Obj([("explanation", complete(messages).value.content), ("contentType", contentType)])))
      && (complete(messages).Err? ==> h.reply == Failure(500, "Failed to explain content"))
  {
    if ToStringThrows(contentType) || ToStringThrows(context) then
      Handled(Failure(500, "Failed to explain content"), [])
    else
      var messages := SystemAndUser(ExplainContentPrompt(contentType, context), content);
      match complete(messages)
      case Err(_) => Handled(Failure(500, "Failed to explain content"), [Complete(messages)])
      case Ok(completion) =>
        Handled(Reply(200, Obj([("explanation", completion.content), ("contentType", contentType)])), [Complete(messages)])
  }
}
