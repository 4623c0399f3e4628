/** What the search modules pass around. */
module SearchItems {
  import opened Common

  /** A search hit; `payload` stands for the fields no branch looks at. */
  datatype Item = Item(
    name: string,
    version: string,
    score: Option<real>,
    searchScore: Option<real>,
    visibility: Option<string>,
    cached: bool,
    isPrivate: bool,
    payload: nat)
}
