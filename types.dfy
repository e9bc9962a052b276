/** The typed records of types.ts that the core reads field by field. */
module Types {
  import opened Wrappers

  /** A gallery photo; `url` identifies it across reloads. */
  datatype Photo = Photo(url: string, location: string, coordinates: Option<string>, time: Option<string>)

  /** The social links of the intro card; every one of them is optional. */
  datatype Links = Links(
    github: Option<string>,
    googleScholar: Option<string>,
    openReview: Option<string>,
    email: Option<string>,
    linkedin: Option<string>,
    orcid: Option<string>)

  /** JavaScript truthiness of an optional string: present and non-empty. */
  predicate Truthy(s: Option<string>) {
    s.Some? && s.value != ""
  }

  function Urls(photos: seq<Photo>): (r: seq<string>)
    ensures |r| == |photos|
    ensures forall k :: 0 <= k < |photos| ==> r[k] == photos[k].url
  {
    seq(|photos|, k requires 0 <= k < |photos| => photos[k].url)
  }

  /** No element occurs twice. */
  predicate Distinct<T(==)>(s: seq<T>) {
    forall i, j :: 0 <= i < j < |s| ==> s[i] != s[j]
  }
}
