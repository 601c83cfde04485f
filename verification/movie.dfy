/** The backend `Movie` record and its poster helper. Every field may be
    null in Java, so every field is an `Option`. */
module Movies {
  import opened Wrappers

  /** The content-store file object of a poster: keys to (nullable) string
      values. Values that are not strings are not modelled. */
  type ImageObject = map<string, Option<string>>

  datatype Movie = Movie(
    uid: Option<string>,
    title: Option<string>,
    year: Option<int>,
    runtime: Option<int>,
    rating: Option<real>,
    genre: Option<seq<string>>,
    moodTags: Option<seq<string>>,
    platforms: Option<seq<string>>,
    description: Option<string>,
    aiDescription: Option<string>,
    image: Option<ImageObject>)

  /** A movie with every field null (`new Movie()`). */
  const EmptyMovie := Movie(None, None, None, None, None, None, None, None, None, None, None)

  /** `getImageUrl`: the "url" entry of the image object, or null when there
      is no image object or it has no "url" key. */
  function ImageUrl(m: Movie): (r: Option<string>)
    ensures m.image.None? ==> r.None?
    ensures m.image.Some? && "url" !in m.image.value ==> r.None?
    ensures m.image.Some? && "url" in m.image.value ==> r == m.image.value["url"]
  {
    if m.image.Some? && "url" in m.image.value then m.image.value["url"] else None
  }

  /** The image object rebuilt from a poster URL: `{url: u}` when the URL is
      non-null, otherwise no image object at all. */
  function PosterImage(url: Option<string>): (r: Option<ImageObject>)
    ensures url.None? <==> r.None?
    ensures r.Some? ==> r.value.Keys == {"url"}
  {
    if url.Some? then Some(map["url" := url]) else None
  }

  /** Rebuilding the image object from a URL and reading it back gives the
      URL, whatever the rest of the movie holds. */
  lemma PosterRoundTrip(m: Movie, url: Option<string>)
    ensures ImageUrl(m.(image := PosterImage(url))) == url
  {
  }

  /** Reading the URL and rebuilding the image object loses every key but
      "url", and nothing that `getImageUrl` can see. */
  lemma PosterRebuildKeepsUrl(m: Movie)
    ensures ImageUrl(m.(image := PosterImage(ImageUrl(m)))) == ImageUrl(m)
    ensures ImageUrl(m).Some? ==> PosterImage(ImageUrl(m)) == Some(map["url" := ImageUrl(m)])
  {
  }
}
