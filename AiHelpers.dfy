/**
 * The script generator, seen only as the outcome the editor consumes.
 * The prompt it builds and the call into the generative-model library are
 * not modelled: what the library answers is a parameter.
 */
module AiHelpers {
  import opened Wrappers

  /** What the generative-model library gives back for one prompt. */
  datatype Reply = Text(text: string) | LibraryFailure

  /** The two errors `generateScript` throws. */
  datatype Failure = MissingKey | GenerationFailed

  /**
   * `generateScript(apiKey, userRequest, currentScript)`: an empty key fails
   * before the library is reached; any library failure is rethrown as the one
   * fixed `GenerationFailed` error; otherwise the reply text is returned as is.
   */
  function GenerateScript(apiKey: string, userRequest: string, currentScript: string, reply: Reply): (r: Result<string, Failure>)
    ensures r == Err(MissingKey) <==> apiKey == ""
    ensures r == Err(GenerationFailed) <==> apiKey != "" && reply.LibraryFailure?
    ensures r.Ok? <==> apiKey != "" && reply.Text?
    ensures r.Ok? ==> r.value == reply.text
  {
    if apiKey == "" then
      Err(MissingKey)
    else
      match reply
      case Text(t) => Ok(t)
      case LibraryFailure => Err(GenerationFailed)
  }
}
