/**
 * Java exceptions as values, and a remote HTTP exchange as its outcome.
 * RestTemplate.postForEntity either answers with a body (possibly null) or
 * throws; which one is an input of the model.
 */
module Remote {
  import opened Wrappers

  /** The exceptions the core raises, catches or wraps; each has getMessage(). */
  datatype JavaException =
    | RuntimeException(message: string, cause: Option<JavaException>)
    | HttpClientErrorException(message: string, statusCode: string, responseBody: string)
    | JsonProcessingException(message: string)
    | NullPointerException(message: string)
    | IllegalArgumentException(message: string)
    | IllegalStateException(message: string)
    | ClassCastException(message: string)
    /** Any other client failure (a 5xx answer, an I/O error). */
    | RestClientException(message: string)

  const ProcessingFailure := "Falha ao processar resposta da IA."
  const GenerationFailure := "Falha ao gerar receita com a IA."

  /**
   * The catch clauses both AI services put around a request, the service
   * naming itself in the prefix of a client error: what is rethrown for an
   * exception raised in the try.
   */
  function Rethrow(clientErrorPrefix: string, e: JavaException): (r: JavaException)
    ensures r.RuntimeException? && r.cause == Some(e)
    ensures e.HttpClientErrorException? ==>
      r.message == clientErrorPrefix + e.statusCode + " - " + e.responseBody
    ensures e.JsonProcessingException? ==> r.message == ProcessingFailure
    ensures !e.HttpClientErrorException? && !e.JsonProcessingException? ==> r.message == GenerationFailure
  {
    match e
    case HttpClientErrorException(_, status, body) =>
      RuntimeException(clientErrorPrefix + status + " - " + body, Some(e))
    case JsonProcessingException(_) => RuntimeException(ProcessingFailure, Some(e))
    case _ => RuntimeException(GenerationFailure, Some(e))
  }

  /** What postForEntity does. */
  datatype RemoteCall = Responded(body: Option<string>) | Raised(exception: JavaException)

  /**
   * The prompt a service sends. Only what the prompt is built from is kept;
   * the fixed wording around it is not.
   */
  datatype Prompt =
    | GenerationPrompt(ingredientList: string)
    | ModificationPrompt(instruction: string, original: string)
    | ImagePrompt(title: string)

  /** A service call: its result or the exception it throws, and the remote requests it made, in order. */
  datatype Exchange<Req, T> = Exchange(outcome: Result<T, JavaException>, requests: seq<Req>)

  /** `String.format("%s", x)`: a null argument prints as "null". */
  function FormatArg(x: Option<string>): string {
    if x.Some? then x.value else "null"
  }
}
