/** The shape of an outgoing HTTP GET request as the crawler issues it. */
module Net {

  /** A request: its URL and its headers, in the order the source lists them. */
  datatype Request = Request(url: string, headers: seq<(string, string)>)

  /** The language preference sent with every request. */
  const AcceptLanguage: string := "en-US,en;q=0.9"

  /** The two identity headers sent by both the robots.txt fetch and the retrying fetch. */
  function IdentityHeaders(userAgent: string): seq<(string, string)>
  {
    [("User-Agent", userAgent), ("Accept-Language", AcceptLanguage)]
  }
}
