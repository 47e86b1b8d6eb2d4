/** What a route handler exchanges with the outside: the chat messages it sends to the
    completion API, the JSON reply it writes, and the trace of external calls it makes. */
module Http {
  import opened Js

  datatype Role = System | User

  /** One entry of the `messages` array sent to the completion API. The content is a
      JavaScript value: some routes pass a request field through without converting it. */
  datatype Message = Message(role: Role, content: Value)

  /** The parts of a completion the handlers read: `choices[0].message.content` and `usage`. */
  datatype Completion = Completion(content: Value, usage: Value)

  /** The chat-completion API, an external service: whatever it answers for the messages it is
      sent, or the message of the error it throws. Model name, temperature and token limits are
      configuration and are not part of the model. */
  type Gateway = seq<Message> -> Result<Completion>

  /** `res.status(status).json(body)`; a handler that does not set a status answers 200. */
  datatype Reply = Reply(status: nat, body: Value)

  /** An external call made while handling one request, in the order made. */
  datatype Effect =
    | Evaluate(expression: Value)                 // the expression evaluator (mathjs)
    | Complete(messages: seq<Message>)            // the chat-completion API
    | ParsePdf(path: string)                      // read the file and run the PDF parser
    | ReadText(path: string)                      // read the file as UTF-8
    | DescribeImage(mimeType: string, path: string) // read, base64-encode, ask the vision model
    | ExtractAudio(video: string, audio: string)  // ffmpeg: write the audio track as MP3
    | Transcribe(path: string)                    // the speech-to-text API
    | Unlink(path: string)                        // delete a file

  /** A reply together with the external calls made to produce it. */
  datatype Handled = Handled(reply: Reply, trace: seq<Effect>)

  /** The `{ error: ... }` body every catch block answers with. */
  function Failure(status: nat, error: string): Reply {
    Reply(status, Obj([("error", Str(error))]))
  }

  /** The `{ error: ..., details: ... }` body of the upload and calculation failures. */
  function FailureWithDetails(status: nat, error: string, details: string): Reply {
    Reply(status, Obj([("error", Str(error)), ("details", Str(details))]))
  }

  /** A system prompt followed by a user message. */
  function SystemAndUser(system: string, user: Value): seq<Message> {
    [Message(System, Str(system)), Message(User, user)]
  }
}
