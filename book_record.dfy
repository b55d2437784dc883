/**
 * The display record of one search result, built from the `volumeInfo`
 * object of a catalog item (book_finder.py, lines 71-78). Every field of
 * `volumeInfo` may be absent and then takes a fixed default.
 */
module BookRecord {
  import opened Wrappers

  const NoTitle := "No Title"
  const UnknownAuthor := "Unknown Author"
  const UnknownPublisher := "Unknown Publisher"
  const UnknownDate := "Unknown Date"
  const NoDescription := "No description available."
  const NoRating := "N/A"
  const PlaceholderCover := "https://via.placeholder.com/128x195.png?text=No+Cover"

  /** The separator `", ".join` puts between authors. */
  const AuthorSeparator := ", "
  /** How many characters of the description a card keeps. */
  const DescriptionLimit := 180
  /** Appended to every description, cut or not. */
  const Ellipsis := "..."

  /** `averageRating` is a JSON number; its default "N/A" is a string. */
  datatype Rating = Label(text: string) | Score(value: real)

  /** The `imageLinks` object; only its `thumbnail` key is read. */
  datatype ImageLinks = ImageLinks(thumbnail: Option<string>)

  /** The keys of `volumeInfo` that the page reads, each possibly absent. */
  datatype VolumeInfo = VolumeInfo(
    title: Option<string>,
    authors: Option<seq<string>>,
    publisher: Option<string>,
    publishedDate: Option<string>,
    description: Option<string>,
    averageRating: Option<Rating>,
    imageLinks: Option<ImageLinks>)

  /** What one result card shows. */
  datatype Book = Book(
    title: string,
    authors: string,
    publisher: string,
    publishedDate: string,
    description: string,
    rating: Rating,
    image: string)

  function Min(a: int, b: int): int { if a <= b then a else b }

  /** Python's `sep.join(parts)`. */
  function Join(sep: string, parts: seq<string>): (r: string)
    ensures |parts| == 0 ==> r == ""
    ensures |parts| == 1 ==> r == parts[0]
    ensures |parts| > 1 ==> |parts[0] + sep| <= |r| && r[..|parts[0] + sep|] == parts[0] + sep
    decreases |parts|
  {
    if |parts| == 0 then ""
    else if |parts| == 1 then parts[0]
    else parts[0] + sep + Join(sep, parts[1..])
  }

  /** The total number of characters in `parts`. */
  function TotalLength(parts: seq<string>): nat
    decreases |parts|
  {
    if |parts| == 0 then 0 else |parts[0]| + TotalLength(parts[1..])
  }

  /** Joining one more part puts exactly one separator before it. */
  lemma {:induction false} JoinSnoc(sep: string, parts: seq<string>, last: string)
    requires |parts| > 0
    ensures Join(sep, parts + [last]) == Join(sep, parts) + sep + last
    decreases |parts|
  {
    if |parts| == 1 {
      assert parts + [last] == [parts[0], last];
      assert (parts + [last])[1..] == [last];
    } else {
      assert (parts + [last])[1..] == parts[1..] + [last];
      JoinSnoc(sep, parts[1..], last);
    }
  }

  /** A join of n parts holds every character of the parts and n - 1 separators. */
  lemma {:induction false} JoinLength(sep: string, parts: seq<string>)
    requires |parts| > 0
    ensures |Join(sep, parts)| == TotalLength(parts) + |sep| * (|parts| - 1)
    decreases |parts|
  {
    if |parts| > 1 {
      JoinLength(sep, parts[1..]);
    }
  }

  /** A join of at least one part ends with its last part. */
  lemma {:induction false} JoinEndsWithLast(sep: string, parts: seq<string>)
    requires |parts| > 0
    ensures |parts[|parts| - 1]| <= |Join(sep, parts)|
    ensures Join(sep, parts)[|Join(sep, parts)| - |parts[|parts| - 1]|..] == parts[|parts| - 1]
    decreases |parts|
  {
    if |parts| > 1 {
      JoinEndsWithLast(sep, parts[1..]);
      var rest := Join(sep, parts[1..]);
      var last := parts[|parts| - 1];
      assert parts[1..][|parts[1..]| - 1] == last;
      var prefix := parts[0] + sep;
      assert Join(sep, parts) == prefix + rest;
      assert (prefix + rest)[|prefix + rest| - |last|..] == rest[|rest| - |last|..];
    }
  }

  /**
   * The authors line: the list joined with ", ", or "Unknown Author" when
   * the key is absent (its default is the one-element list ["Unknown Author"]).
   */
  function AuthorLine(authors: Option<seq<string>>): (r: string)
    ensures authors.None? ==> r == UnknownAuthor
    ensures authors == Some([]) ==> r == ""
    ensures authors.Some? && |authors.value| == 1 ==> r == authors.value[0]
    ensures authors.Some? ==> r == Join(AuthorSeparator, authors.value)
  {
    Join(AuthorSeparator, authors.GetOr([UnknownAuthor]))
  }

  /** Python's slice `s[:n]`: the first n characters, or all of a shorter string. */
  function Prefix(s: string, n: nat): (r: string)
    ensures |r| == Min(|s|, n)
    ensures r == s[..|r|]
  {
    if |s| <= n then s else s[..n]
  }

  /**
   * The card's description: the first 180 characters followed by "...",
   * whether or not anything was cut.
   */
  function Shorten(d: string): (r: string)
    ensures |r| == Min(|d|, DescriptionLimit) + |Ellipsis|
    ensures r[..|r| - |Ellipsis|] == d[..Min(|d|, DescriptionLimit)]
    ensures r[|r| - |Ellipsis|..] == Ellipsis
    ensures |d| <= DescriptionLimit ==> r == d + Ellipsis
  {
    var kept := Prefix(d, DescriptionLimit);
    assert (kept + Ellipsis)[..|kept|] == kept;
    kept + Ellipsis
  }

  /**
   * The cover URL: `imageLinks.thumbnail` when both levels are present,
   * otherwise the placeholder.
   */
  function Cover(links: Option<ImageLinks>): (r: string)
    ensures links.Some? && links.value.thumbnail.Some? ==> r == links.value.thumbnail.value
    ensures !(links.Some? && links.value.thumbnail.Some?) ==> r == PlaceholderCover
  {
    // `info.get("imageLinks", {})` falls back to an object without a thumbnail
    links.GetOr(ImageLinks(None)).thumbnail.GetOr(PlaceholderCover)
  }

  /** The display record of one `volumeInfo` object. */
  function Normalise(info: VolumeInfo): (b: Book)
    ensures info.title.Some? ==> b.title == info.title.value
    ensures info.title.None? ==> b.title == NoTitle
    ensures info.authors.None? ==> b.authors == UnknownAuthor
    ensures info.authors.Some? ==> b.authors == Join(AuthorSeparator, info.authors.value)
    ensures info.publisher.Some? ==> b.publisher == info.publisher.value
    ensures info.publisher.None? ==> b.publisher == UnknownPublisher
    ensures info.publishedDate.Some? ==> b.publishedDate == info.publishedDate.value
    ensures info.publishedDate.None? ==> b.publishedDate == UnknownDate
    ensures info.description.Some? ==> b.description == Shorten(info.description.value)
    ensures info.description.None? ==> b.description == Shorten(NoDescription)
    ensures info.averageRating.Some? ==> b.rating == info.averageRating.value
    ensures info.averageRating.None? ==> b.rating == Label(NoRating)
    ensures b.image == Cover(info.imageLinks)
    ensures b.description[|b.description| - |Ellipsis|..] == Ellipsis
  {
    Book(
      info.title.GetOr(NoTitle),
      AuthorLine(info.authors),
      info.publisher.GetOr(UnknownPublisher),
      info.publishedDate.GetOr(UnknownDate),
      Shorten(info.description.GetOr(NoDescription)),
      info.averageRating.GetOr(Label(NoRating)),
      Cover(info.imageLinks))
  }

  /** A `volumeInfo` object with none of the keys the page reads. */
  const EmptyInfo := VolumeInfo(None, None, None, None, None, None, None)

  /** With every key absent, every field takes its default. */
  lemma AllDefaults()
    ensures Normalise(EmptyInfo)
         == Book("No Title", "Unknown Author", "Unknown Publisher", "Unknown Date",
                 "No description available....", Label("N/A"),
                 "https://via.placeholder.com/128x195.png?text=No+Cover")
  {
  }

  /** A long description keeps exactly its first 180 characters. */
  lemma LongDescriptionIsCut(d: string)
    requires |d| > DescriptionLimit
    ensures Shorten(d) == d[..DescriptionLimit] + Ellipsis
  {
    var r := Shorten(d);
    assert r == r[..|r| - |Ellipsis|] + r[|r| - |Ellipsis|..];
  }
}
