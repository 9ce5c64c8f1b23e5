/** `fetchUniversities`: a lookup by country, falling back to a lookup by
    name when the first answer is empty. The upstream service is the
    oracle `api`, which maps each query to what `axios.get` yields for it. */
module Directory {
  import opened Records

  /** `GET <endpoint>?country=...` or `GET <endpoint>?name=...`. */
  datatype Query = ByCountry(country: string) | ByName(name: string)

  /** A rejected request: `error.response?.status` (absent when no response
      arrived) and `error.code`. */
  datatype HttpError = HttpError(status: Option<int>, code: Option<string>)

  /** What one request resolves to (`response.data`, possibly absent) or
      rejects with. */
  datatype Reply = Received(data: Option<seq<University>>) | Failed(error: HttpError)

  /** What `fetchUniversities` returns or throws. */
  datatype Outcome = Fetched(universities: seq<University>) | Threw(error: HttpError)

  /** The queries sent, in order, and the outcome. */
  datatype Fetch = Fetch(issued: seq<Query>, outcome: Outcome)

  /** `response.data && response.data.length > 0` */
  predicate HasRecords(reply: Reply)
  {
    reply.Received? && reply.data.Some? && |reply.data.value| > 0
  }

  /** `response.data || []` */
  function RecordsOf(reply: Reply): seq<University>
    requires reply.Received?
  {
    if reply.data.Some? then reply.data.value else []
  }

  /** The outcome a reply gives when it is the last one awaited. */
  function OutcomeOf(reply: Reply): Outcome
  {
    if reply.Failed? then Threw(reply.error) else Fetched(RecordsOf(reply))
  }

  /** The country query is always sent first; the name query is sent only
      when the country query answered without records; the outcome is the
      answer to the last query sent. */
  function FetchUniversities(country: string, api: Query -> Reply): (f: Fetch)
    ensures 1 <= |f.issued| <= 2 && f.issued[0] == ByCountry(country)
    ensures |f.issued| == 2 <==> api(ByCountry(country)).Received? && !HasRecords(api(ByCountry(country)))
    ensures |f.issued| == 2 ==> f.issued[1] == ByName(country)
    ensures f.outcome == OutcomeOf(api(f.issued[|f.issued| - 1]))
  {
    var response := api(ByCountry(country));
    if response.Failed? then Fetch([ByCountry(country)], Threw(response.error))
    else if HasRecords(response) then Fetch([ByCountry(country)], Fetched(response.data.value))
    else
      var nameResponse := api(ByName(country));
      Fetch([ByCountry(country), ByName(country)], OutcomeOf(nameResponse))
  }

  /** Records from the country query are returned as they are, and no name
      query is sent. */
  lemma CountryRecordsWin(country: string, api: Query -> Reply)
    requires HasRecords(api(ByCountry(country)))
    ensures FetchUniversities(country, api) == Fetch([ByCountry(country)], Fetched(api(ByCountry(country)).data.value))
  {
  }

  /** An empty list comes back only when both queries were sent and
      neither produced records. */
  lemma EmptyOnlyWhenBothEmpty(country: string, api: Query -> Reply)
    requires FetchUniversities(country, api).outcome == Fetched([])
    ensures FetchUniversities(country, api).issued == [ByCountry(country), ByName(country)]
    ensures api(ByCountry(country)).Received? && !HasRecords(api(ByCountry(country)))
    ensures api(ByName(country)).Received? && !HasRecords(api(ByName(country)))
  {
  }
}
