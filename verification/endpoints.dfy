/**
 Construction of request URLs for the Fantasy Premier League REST API:
 every request goes to a fixed base address followed by a relative path.
 */
module Endpoints {

  /** The base address every request is sent to. */
  const BaseUrl: string := "https://fantasy.premierleague.com/api/"

  /** The address requested for a relative path: the base address with the
      path appended verbatim (no separator is added or removed). */
  function FullUrl(url: string): (r: string)
    ensures |r| == |BaseUrl| + |url|
    ensures "https://fantasy.premierleague.com/api/" <= r
    ensures r[|BaseUrl|..] == url
  {
    BaseUrl + url
  }

  /** The path is recoverable from the address, so distinct paths are never
      sent to the same address. */
  lemma FullUrlInjective(u: string, v: string)
    ensures FullUrl(u) == FullUrl(v) <==> u == v
  {
  }
}
