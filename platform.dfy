/** The platform values the store handles but does not interpret:
    bytes, URIs and clock readings. */
module Platform {

  /** A Java `byte`, as the unsigned value of its eight bits. */
  newtype byte = b: int | 0 <= b < 256

  /** An `android.net.Uri`, kept as the text it was parsed from. */
  datatype Uri = Uri(text: string)

  /** `Uri.toString()`. */
  function UriToString(u: Uri): (r: string) {
    u.text
  }

  /** `Uri.parse(s)`: never fails, and gives back `s` on `toString()`. */
  function ParseUri(s: string): (u: Uri)
    ensures UriToString(u) == s
  {
    Uri(s)
  }

  /** One reading of the wall clock, in the three forms the entities use:
      `millis` is `String.valueOf(System.currentTimeMillis())`, `display` is
      the date formatted as "MMM dd, yyyy HH:mm:ss" and `compact` the date
      formatted as "yyyyMMdd_HHmmss". */
  datatype ClockReading = ClockReading(millis: string, display: string, compact: string)

  predicate StartsWith(s: string, prefix: string) {
    |prefix| <= |s| && s[..|prefix|] == prefix
  }
}
