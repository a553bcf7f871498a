/** Chat messages in the OpenAI format, the input of the Claude converters. */
module OpenAIChat {
  import opened Options
  import opened Text

  datatype OpenAIRole = OaSystem | OaDeveloper | OaUser | OaAssistant | OaTool | OaFunction

  datatype ContentPart = TextPart(text: string) | ImagePart(url: string)

  datatype Content = PlainText(text: string) | Parts(parts: seq<ContentPart>)

  datatype OpenAIMessage = OpenAIMessage(role: OpenAIRole, name: Option<string>, content: Content)

  function TrimmedName(m: OpenAIMessage): string {
    if m.name.Some? then Trim(m.name.value) else ""
  }

  predicate IsSystemRole(role: OpenAIRole) {
    role in {OaDeveloper, OaSystem, OaFunction, OaTool}
  }
}
