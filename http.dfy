/** Header values, the request verbs and the fixed header values both shapers use. */
module Http {

  /** A header value as the options object holds it: callers give strings,
      the content-length computations store numbers. */
  datatype HeaderValue = Text(text: string) | Number(n: int)
  {
    /** JavaScript truthiness: the empty string and zero are falsy. */
    predicate Truthy()
    {
      match this
      case Text(t) => t != ""
      case Number(n) => n != 0
    }
  }

  /** A header object: names are case-sensitive keys. */
  type HeaderMap = map<string, HeaderValue>

  /** `!!headers[name]`: the header is present with a truthy value. */
  predicate TruthyAt(headers: HeaderMap, name: string)
  {
    name in headers && headers[name].Truthy()
  }

  datatype Verb = GET | POST | PUT | DELETE
  {
    function Name(): string
    {
      match this
      case GET => "GET"
      case POST => "POST"
      case PUT => "PUT"
      case DELETE => "DELETE"
    }
  }

  /** The two helpers each verb offers: `.text` and `.json`. */
  datatype Format = AsText | AsJson
  {
    /** The `Accept` value the helper forces. */
    function Accept(): string
    {
      match this
      case AsText => TEXT_ACCEPT
      case AsJson => JSON_TYPE
    }
  }

  const CONTENT_TYPE: string := "Content-Type"
  const CONTENT_LENGTH: string := "content-length"
  const ACCEPT: string := "Accept"
  const JSON_TYPE: string := "application/json"
  const TEXT_ACCEPT: string := "text/plain,text/html"
}
