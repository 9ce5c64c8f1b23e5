/** The record the university directory returns for each institution. */
module Records {

  datatype Option<T> = None | Some(value: T)

  /** One entry of the directory's JSON list. `stateProvince` is the
      hyphenated `state-province` key, absent (`null`) for many entries. */
  datatype University = University(
    name: string,
    country: Option<string>,
    stateProvince: Option<string>,
    domains: seq<string>,
    webPages: seq<string>)
}
