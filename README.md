# AI tutor routes, modelled in Dafny

This project models the three Express routers of a mechanical-engineering AI tutor backend:

- `/api/tutor` (`routes/aiTutor.js`): chat, subject help, and explaining content. Every
  request there sends a system prompt built from a fixed curriculum prompt.
- `/api/solve` (`routes/problemSolver.js`): solving a problem, checking a student's work,
  generating practice problems, and explaining an evaluated expression.
- `/api/upload` (`routes/upload.js`): admitting and storing an uploaded file, extracting its
  content by MIME type, explaining extracted content, and analysing a lecture transcript.

A route handler whose source builds its prompt with `+=` (`/chat`, `/solve-problem`) or works
step by step with an early return or a `switch` (`/calculate`, `/file`) is a method; every
other handler is a pure function. Each takes the request fields and the external services it calls. It
returns the reply (status and JSON body) together with the trace of external calls it made.

The completion API, the expression evaluator, the PDF parser, the file system, ffmpeg and the
speech-to-text API are all parameters. Each one yields its result or the message of the error
it throws.

The JavaScript semantics the routes rely on are written out in module `Js`:

- truthiness and `||`;
- `${}` interpolation of strings, integers, booleans, `null`, `undefined` and objects, and
  the TypeError it throws for an object with its own `toString` key;
- template literals with `${c ? ... : ''}` lines;
- `join`, `startsWith`, `indexOf` and `replace` with a string pattern;
- POSIX `path.extname`.

Module `Http` holds the messages, replies and effects. The prompt texts are the source's own
constants, line for line.

The files are:

- `js.dfy`: JavaScript values and built-ins, and the template lemmas.
- `http.dfy`: messages, completions, replies and effects.
- `ai_tutor.dfy`, `problem_solver.dfy`, `upload.dfy`: one module per router.

## Model

| member | source | states |
|---|---|---|
| Js.Truthy | routes/aiTutor.js:72 | JavaScript truthiness: a value is falsy exactly when it is `undefined`, `null`, `false`, `0` or `""` |
| Js.Or | routes/aiTutor.js:108 | the logical OR of v and d is `v` when truthy and `d` otherwise, and is truthy exactly when one of them is |
| Js.Interpolate | routes/aiTutor.js:73 | `${v}` of a value whose conversion does not throw: a string is itself, an integer its decimal text, `undefined`, `null`, booleans and objects their fixed words; only the empty string gives no text |
| Js.HasKey | routes/aiTutor.js:73 | whether a key is one of an object's own keys: exactly when some field carries it |
| Js.ThrowingValueIsTruthy | routes/aiTutor.js:72-73 | a value whose `${}` throws is truthy, so a conditional line converts it and a default never replaces it; a default that converts does not change whether the defaulted value throws |
| Js.Render | routes/aiTutor.js:105-118 | a template literal evaluates to its pieces' texts in order: fixed text, `${v}` slots, and `${v ? h + v : ''}` lines that vanish when v is falsy |
| Js.Join | routes/aiTutor.js:28 | `xs.join(sep)`: the items in order with `sep` between consecutive ones |
| Js.ReplaceFirst | routes/upload.js:152 | `s.replace(p, r)` with a string pattern: unchanged when p does not occur; otherwise the text before the first occurrence is kept, r takes the occurrence's place and the rest follows |
| Js.NatToDecimal | routes/upload.js:25 | `String(n)` of a natural number is a nonempty run of decimal digits, with more than one digit exactly when n >= 10 |
| Js.DecimalRoundTrip | routes/upload.js:25 | reading the printed digits back gives the number: the rendering loses nothing |
| Js.Extname | routes/upload.js:26 | `path.extname` returns either "" or a '.' followed by no further '.' and no '/' |
| Js.ExtnameIsSuffix | routes/upload.js:152 | the extension is a suffix of the path once trailing slashes are removed |
| Js.ExtnameOfStem | routes/upload.js:26 | appending an extension to a stem with no '.' that does not end in '/' makes `path.extname` return exactly that extension |
| Js.LastDotIsExtension | routes/upload.js:26 | in such a path the last '.' is the one that starts the extension |
| Js.IndexFrom | routes/upload.js:152 | `indexOf` finds the first occurrence at or after the start, and reports none only when there is none |
| Js.ReplaceEmpty | routes/upload.js:152 | `replace` with an empty pattern puts the replacement in front of the whole string |
| Js.JoinItemAt | routes/aiTutor.js:28 | every item of `join` appears at its offset in the joined text |
| Js.JoinSeparatorAfter | routes/aiTutor.js:28 | every item except the last is followed by the separator, and then by the next item |
| Js.OptionalLineAt | routes/aiTutor.js:151 | a `${v ? h + v : ''}` line is present exactly when v is truthy, right after the text before it; a falsy v renders as if v were absent |
| Js.TextThenTwoLines | routes/aiTutor.js:70-78 | a text grown by two conditional `+=`: it starts with the text, equals the text exactly when both values are falsy, carries the first line right after the text and ends with the second line |
| Js.AppendOptional | routes/aiTutor.js:72-74 | `if (v) s += h + v` leaves the same text as the optional line of the template |
| AiTutor.TutorPromptFrame | routes/aiTutor.js:26-63 | the tutor system prompt opens with its introduction and closes with its guidance |
| AiTutor.CoreSubjectListed | routes/aiTutor.js:10-28 | each of the 16 core subjects appears in the system prompt at its place in the list, followed by ", " and then the next subject |
| AiTutor.ChatPrompt | routes/aiTutor.js:70-78 | the system prompt of `/chat`: the tutor prompt, then `CURRENT SUBJECT FOCUS` when subject is truthy, then `CONTEXT` when context is truthy |
| AiTutor.ChatPromptLines | routes/aiTutor.js:70-78 | the tutor prompt is a prefix; the prompt equals it exactly when subject and context are both falsy; the subject line follows it and the context line comes last |
| AiTutor.Chat | routes/aiTutor.js:66-98 | a subject or context whose `${}` throws answers 500 'Failed to get response from AI tutor' with no call; otherwise one completion call with the built prompt as the system message and the raw message as the user message; 200 `{response, usage}`, or 500 'Failed to get response from AI tutor' |
| AiTutor.SubjectHelpPrompt | routes/aiTutor.js:105-118 | the system prompt of `/subject-help`: the tutor prompt, the request naming subject and topic, the level or 'beginner', and the instructions |
| AiTutor.SubjectHelpQuotes | routes/aiTutor.js:105-108 | the prompt names the subject, topic and level, each right after its text; a falsy level reads 'beginner', exactly as if 'beginner' had been sent |
| AiTutor.SubjectHelp | routes/aiTutor.js:101-140 | a subject, topic or level whose `${}` throws answers 500 with no call; otherwise one completion call with that prompt and the user line 'I need help understanding topic in subject'; the reply echoes the raw level; errors answer 500 'Failed to get subject-specific help' |
| AiTutor.ExplainContentPrompt | routes/aiTutor.js:147-161 | the system prompt of `/explain-content`: the tutor prompt, the `TASK:` line naming the content type, the context line when context is truthy, and the instructions |
| AiTutor.ExplainContentOpening | routes/aiTutor.js:147-149 | the prompt starts with the tutor prompt and the `TASK:` line naming the content type |
| AiTutor.ExplainContentContextLine | routes/aiTutor.js:151 | the context line is present exactly when context is truthy, inserted right after the `TASK:` line |
| AiTutor.ExplainContent | routes/aiTutor.js:143-181 | a content type or context whose `${}` throws answers 500 with no call; otherwise the content is passed unchanged as the user message; 200 `{explanation, contentType}`, or 500 'Failed to explain content' |
| ProblemSolver.SolvePrompt | routes/problemSolver.js:47-55 | the system prompt of `/solve-problem`: the shared prompt, then `SUBJECT AREA` when subject is truthy, then `ADDITIONAL CONTEXT` when context is truthy |
| ProblemSolver.SolvePromptLines | routes/problemSolver.js:47-55 | the shared prompt is a prefix; the prompt equals it exactly when subject and context are both falsy; the subject line follows it and the context line comes last |
| ProblemSolver.SolveProblem | routes/problemSolver.js:43-76 | a subject, context or problem whose `${}` throws answers 500 with no call; otherwise one completion call whose user message asks to solve the problem; the reply's subject defaults to 'General Engineering'; errors answer 500 'Failed to solve problem' |
| ProblemSolver.CheckWorkPrompt | routes/problemSolver.js:83-99 | the system prompt of `/check-work`: the shared prompt, the `TASK:` line, the problem, the student's solution, the correct answer when truthy, and the review instructions |
| ProblemSolver.CheckWorkEmbedsSubmission | routes/problemSolver.js:83-88 | the review prompt starts with the shared prompt and the `TASK:` line, and embeds the problem and the student's solution, each right after its heading |
| ProblemSolver.CorrectAnswerLine | routes/problemSolver.js:89 | the correct-answer line is present exactly when correctAnswer is truthy, right after the solution's line |
| ProblemSolver.CheckWork | routes/problemSolver.js:79-119 | a problem, solution or correct answer whose `${}` throws answers 500 with no call; otherwise one completion call with the fixed user message; 200 `{feedback, problem}`, or 500 'Failed to check work' |
| ProblemSolver.GenerateRequest | routes/problemSolver.js:126-136 | the user message of `/generate-problems`: count problems (3 when count is falsy) for subject and topic at the difficulty level ('beginner' when falsy), then the instructions |
| ProblemSolver.GenerateDefaults | routes/problemSolver.js:126 | a falsy count asks for 3 problems and a falsy difficulty asks for beginner level, exactly as if those values had been sent |
| ProblemSolver.GenerateProblems | routes/problemSolver.js:122-158 | a count, subject, topic or difficulty whose `${}` throws answers 500 with no call; otherwise the shared prompt as system message and the request as user message; the reply echoes the defaulted difficulty; errors answer 500 |
| ProblemSolver.CalculateRequest | routes/problemSolver.js:177-187 | the user message of `/calculate`: the expression, its result, the context line when context is truthy, and the instructions |
| ProblemSolver.CalculateRequestQuotes | routes/problemSolver.js:177-180 | the explanation request carries the expression and its result, each right after its heading |
| ProblemSolver.CalculateContextLine | routes/problemSolver.js:181 | the context line is present exactly when context is truthy, right after the result's line |
| ProblemSolver.Calculate | routes/problemSolver.js:161-208 | the evaluator is always called first; when it throws, the answer is 400 with its message and no completion call is made; when the expression or context then throws in `${}`, 500 'Failed to perform calculation' with no completion call; otherwise the result is explained and echoed |
| Upload.FileFilter | routes/upload.js:35-56 | the file filter accepts exactly the listed MIME types; the only error it raises is 'Unsupported file type' |
| Upload.FileFilterAccepts | routes/upload.js:35-56 | the filter accepts exactly the twelve listed MIME types, and rejects every other type with 'Unsupported file type' |
| Upload.Admit | routes/upload.js:30-56 | a file is admitted exactly when its type is listed and it has at most 50 MiB; an unlisted type gives 'Unsupported file type', a listed type that is too large gives 'File too large' |
| Upload.UniqueSuffix | routes/upload.js:25 | `Date.now() + '-' + random`: a nonempty text of digits and '-' only |
| Upload.StoredFilename | routes/upload.js:24-27 | the `filename` callback: field name, '-', the unique suffix and the extension of the client's file name |
| Upload.StoredFilenameFrame | routes/upload.js:24-27 | the stored name starts with the field name and '-', and ends with the extension of the client's file name |
| Upload.StoredFilenameExtension | routes/upload.js:26 | with a field name free of '.', `path.extname` of the stored name is the client's extension |
| Upload.StoredFilenamesDistinct | routes/upload.js:25-26 | two stored names for the same field and client name are equal exactly when their timestamps and random numbers are equal |
| Upload.Store | routes/upload.js:20-28 | a stored file keeps the client's name, type and size (at most 50 MiB), is named by the `filename` callback and lives in 'uploads/' |
| Upload.Classify | routes/upload.js:108-169 | the `switch (true)` takes the first case whose test holds; each class implies its own test, and the default case implies that no test holds |
| Upload.ClassifyByOwnTest | routes/upload.js:108-169 | the dispatch cases never overlap: each class holds exactly when its own test does |
| Upload.WordTypesUnextractable | routes/upload.js:108-169 | both Word types pass the filter, yet fall into the dispatch's error branch |
| Upload.AllowedTypeClassified | routes/upload.js:36-169 | among the accepted types, exactly the Word types reach the error branch |
| Upload.ExtractableFilter | routes/upload.js:35-56 | corrected filter: the listed types without the two Word types, with the same error |
| Upload.ExtractableFilterClassifies | routes/upload.js:35-56 | the corrected filter accepts what the original accepts except the Word types, and everything it accepts reaches an extracting branch |
| Upload.AudioPath | routes/upload.js:152 | the audio path as written: the first occurrence of the path's extension replaced by '.mp3' |
| Upload.TempAudioPath | routes/upload.js:152 | corrected audio path: the path without its extension, if any, followed by '-audio.mp3'; it always ends with '.mp3' |
| Upload.TempAudioPathIsNotTheUpload | routes/upload.js:150-158 | for every path, the corrected audio path differs from the path it is derived from, so ffmpeg never writes over its input and the clean-up never deletes it |
| Upload.ReplaceExtension | routes/upload.js:152 | when the extension's '.' occurs nowhere earlier, `replace` swaps the extension at the end of the path |
| Upload.AudioPathWithoutExtension | routes/upload.js:152 | a path without an extension gets '.mp3' put in front of it |
| Upload.StoredPath | routes/upload.js:22-26 | a stored path is a stem with no '.' followed by the client's extension |
| Upload.AudioPathOfStoredFile | routes/upload.js:152 | for a stored file with an extension, the audio path is the stored path with that extension replaced by '.mp3' |
| Upload.AudioPathOfStoredFileWithoutExtension | routes/upload.js:152 | for a stored file without an extension, the audio path is '.mp3' followed by the stored path, outside 'uploads/' |
| Upload.TempAudioPathOfStem | routes/upload.js:152 | the corrected derivation replaces an extension, or its absence, by '-audio.mp3'; the result has extension '.mp3' |
| Upload.TempAudioPathOfStoredFile | routes/upload.js:152 | for every stored file, the corrected audio path is the stored name's stem followed by '-audio.mp3' in 'uploads/': next to the upload, with extension '.mp3', and never the upload itself |
| Upload.UploadedFilePaths | routes/upload.js:96 | for the route's own field 'file', the stored name keeps the client's extension, and the corrected audio path is in 'uploads/' next to the upload and differs from it |
| Upload.VideoTranscript | routes/upload.js:150-159 | ffmpeg is called first; the content is the transcript exactly when extraction and transcription both succeed; a success ends by deleting the audio file and a failure never deletes it; a transcription failure is prefixed 'Failed to transcribe audio: ' |
| Upload.AudioLeftBehind | routes/upload.js:153-158 | when ffmpeg succeeds and the transcription fails, the audio file is written and never deleted |
| Upload.AudioPathOfMp3Upload | routes/upload.js:152-158 | for a stored file whose client name ends in '.mp3', the audio path as written is the upload's own path: ffmpeg is told to write over its input and a successful transcription deletes the upload |
| Upload.VideoTranscriptWithCleanup | routes/upload.js:150-159 | the corrected branch deletes the audio file after every successful extraction, whether or not the transcription succeeds, and never deletes the upload |
| Upload.CleanupKeepsContent | routes/upload.js:150-159 | when ffmpeg and the transcription behave alike for either audio path, the corrected branch yields the same content as the original |
| Upload.HandleFile | routes/upload.js:96-186 | without a file, 400 'No file uploaded'; otherwise the first matching case makes its one external call and labels the content; an unmatched type fails before any call; any failure answers 500 'Failed to process file' with the error's message |
| Upload.ExplainPromptFrame | routes/upload.js:193-210 | the prompt opens with the sentence naming the content type, and closes with the content and the instructions |
| Upload.ExplainSubjectLine | routes/upload.js:195 | the subject line is present exactly when subject is truthy, right after the opening |
| Upload.ExplainContextLine | routes/upload.js:196 | the context line is present exactly when context is truthy, right after the subject line and the line break that always follows it |
| Upload.Explain | routes/upload.js:189-231 | a content type, subject, context or content whose `${}` throws answers 500 with no call; otherwise one completion call with the prompt as the only (user) message; 200 `{explanation, contentType, processed: true}`, or 500 'Failed to explain content' |
| Upload.ExplainPrompt | routes/upload.js:193-210 | the prompt of `/explain`: the sentence naming the content type, the subject line and the context line each when truthy, the line break between them, the content and the instructions |
| Upload.AnalyzePrompt | routes/upload.js:238-255 | the prompt of `/analyze-lecture`: subject or 'Mechanical Engineering', title or 'Engineering Lecture', the transcript, and the instructions |
| Upload.AnalyzeTemplateQuotes | routes/upload.js:238-241 | the analysis prompt names the subject and the lecture title, each right after its heading |
| Upload.AnalyzeTemplateTranscript | routes/upload.js:243-244 | the transcript follows the title line and its heading |
| Upload.AnalyzePromptDefaults | routes/upload.js:240-241 | a falsy subject reads 'Mechanical Engineering' and a falsy title reads 'Engineering Lecture', exactly as if those values had been sent |
| Upload.AnalyzeLecture | routes/upload.js:234-276 | a subject, title or transcript whose `${}` throws answers 500 with no call; otherwise one completion call with the prompt as the only message; the reply echoes the raw subject and the defaulted title; errors answer 500 'Failed to analyze lecture content' |

## Left out

- The OpenAI client, `pdf-parse`, `fs` and ffmpeg are parameters. Model names, temperatures
  and token limits are configuration and are not modelled.
- The vision request's message layout is not modelled. That layout is the instruction text
  and the base64 data URL. Image description is one call, given the MIME type and the path.
- `fs.unlinkSync` is treated as an operation that cannot fail. A failing deletion would turn a
  successful transcription into a 500.
- Numbers are integers. Floating-point results of the evaluator and their printing are not
  modelled. `String(n)` is modelled without the exponent form used from 10^21 on.
- `Math.random()` and `Date.now()` are parameters: any natural numbers. The model does not
  bound the random part to 10^9.
- `$` patterns in a `replace` replacement string do not occur in the source and are not
  modelled.
- Arrays are not modelled as request values, so their interpolation (comma-joined) is not
  either. An object interpolates as `[object Object]` unless it has its own `toString` key.
  Such a key makes `${}` throw a TypeError, and the handler answers its catch block's 500
  (`Js.ToStringThrows`).
- ProblemSolver.Calculate / CalculateRequestQuotes: evaluator results that are objects (a mathjs
  unit, complex number, matrix, fraction or result set) print through their own `toString`,
  for example "5 cm" or "[1, 2]"; that printing is not modelled, and such a result reads as
  `[object Object]` in the model.
- JSON serialisation of a reply is not modelled: a key whose value is `undefined` stays in the
  modelled body, whereas a client would not see it.
- Multer and Express internals are not modelled: streaming, the disk write, and the default
  error handler.
  - A file rejected by the filter or by the size limit never reaches the route.
  - Express's default handler then answers 500 with its own page, not a JSON body.
  - `Upload.Admit` names the outcome with the filter's and multer's messages only.
- The request path is modelled as `"uploads/" + filename`. The normalisation `path.join`
  applies is not modelled.
- The `learning_objectives` table is never read by the routes and is not modelled.
- `client/script.js` and `server.js` are not part of this model. They hold the browser client
  and the mounting of the routers.
- A client may expect 400 for a rejected type or an oversized file. The code answers 500 for
  both, through Express's default handler, and the model follows the code.

## Findings

| source | as written | input that shows it | evidently intended | confidence | as-written member | corrected member |
|---|---|---|---|---|---|---|
| routes/upload.js:108-169 | the filter accepts `application/msword` and the .docx type, but no dispatch case handles them | any upload with MIME type `application/msword` is stored and then answers 500 'Unsupported file type for content extraction' | accept only types the dispatch can extract | not executed | Upload.WordTypesUnextractable | Upload.ExtractableFilterClassifies |
| routes/upload.js:152 | `replace(path.extname(p), '.mp3')` with an empty extension replaces the empty string at index 0 | a video uploaded as `clip` (no extension) gives the audio path `.mp3uploads/file-…` outside the uploads directory | an '.mp3' name inside the uploads directory also when there is no extension | not executed | Upload.AudioPathOfStoredFileWithoutExtension | Upload.TempAudioPathOfStoredFile |
| routes/upload.js:152-158 | with a client name ending in '.mp3', `replace('.mp3', '.mp3')` leaves the stored path unchanged | a `video/mp4` part named `talk.mp3`: ffmpeg is told to write the audio to `uploads/file-…-….mp3`, its own input, and a successful transcription deletes the upload | a temporary name that differs from the upload | not executed | Upload.AudioPathOfMp3Upload | Upload.TempAudioPathIsNotTheUpload |
| routes/upload.js:153-158 | the temporary audio file is deleted only after a successful transcription | ffmpeg succeeds and the speech-to-text call throws: the .mp3 stays on disk | delete the temporary file whether or not transcription succeeds | not executed | Upload.AudioLeftBehind | Upload.VideoTranscriptWithCleanup |
