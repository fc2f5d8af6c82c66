/** Values shared by every module: optional values, the outcome of a call that
    may raise, and the JSON objects that providers answer with. */
module Outcomes {

  /** Python's `None` or a value. */
  datatype Option<+T> = None | Some(value: T) {
    function GetOr(default: T): T {
      match this
      case Some(v) => v
      case None => default
    }
  }

  /** The outcome of a call that may raise: its value, or the text `str(e)` of
      the exception it raised. */
  datatype Outcome<+T> = Ok(value: T) | Raise(msg: string)

  /** A JSON object as returned by a provider, flattened to string fields. */
  type Fields = map<string, string>

  /** Raw bytes (an image file, an encoded JPEG). */
  type Bytes = seq<bv8>

  /** The entry `{'error': msg}` that a caught exception leaves in a result dict. */
  function ErrorEntry(msg: string): Fields {
    map["error" := msg]
  }

  /** What a provider call leaves in the result dict: its response, or the
      error entry of the exception it raised. */
  function Record(o: Outcome<Fields>): Fields {
    match o
    case Ok(response) => response
    case Raise(msg) => ErrorEntry(msg)
  }

  /** `str(KeyError(k))`: the missing key between single quotes. */
  function KeyErrorText(k: string): string {
    "'" + k + "'"
  }

  /** The Open Graph title, description and image URL that a `post_link`
      reads from the linked page (with BeautifulSoup, outside this model). */
  datatype Preview = Preview(title: string, description: string, image: string)
}
