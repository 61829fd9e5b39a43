/** The reply record of the chat endpoint (after models.py `ChatResponse`) and
    the conversation intents. The record of models.py admits only the intents
    GET_MANIFESTS, HELP and CHAT; this one also holds CANCEL, the intent of the
    reply to a cancelled clarification. */
module Responses {
  import opened Wrappers

  /** The conversation intents; `Cancel` is the one the scenario stage answers
      with when the user aborts. */
  datatype Intent = GetManifests | Help | Chat | Cancel

  /** The label of each intent, as the classifier's reply spells it. */
  function IntentLabel(i: Intent): string {
    match i
    case GetManifests => "GET_MANIFESTS"
    case Help => "HELP"
    case Chat => "CHAT"
    case Cancel => "CANCEL"
  }

  /** The follow-up the client is asked to make ("CALL_GET_MANIFESTS",
      "ASK_SCENARIO", "NONE"). */
  datatype Action = CallGetManifests | AskScenario | NoAction

  /** `ChatResponse`; `suggested_payload` is always `None` and is not kept. */
  datatype ChatResponse = ChatResponse(
    intent: Intent,
    action: Action,
    reply: string,
    sessionId: Option<string>)

  /** The outcome of a handler that may raise: a value, or an uncaught exception. */
  datatype Outcome<T> = Returned(value: T) | Raised
}
