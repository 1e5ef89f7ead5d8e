/**
 * The records the admin panel edits (MediaItem, PortfolioItem, Drop,
 * SiteSettings) and the content the panel starts from.
 */
module AdminTypes {
  import opened Wrappers
  import opened Seqs

  /** The `type` of a media item: the string union `"image" | "video"`. */
  datatype MediaType = Image | Video

  /** The string the source stores for a media type. */
  function MediaTypeTag(t: MediaType): string {
    match t
    case Image => "image"
    case Video => "video"
  }

  /** Reads a stored media type tag; only the two tags of the union are accepted. */
  function ParseMediaType(tag: string): (r: Option<MediaType>)
    ensures r.Some? <==> tag == "image" || tag == "video"
  {
    if tag == "image" then Some(Image) else if tag == "video" then Some(Video) else None
  }

  /** The two media types are exactly the two tags, each read back as itself. */
  lemma MediaTypeTagRoundTrip(t: MediaType)
    ensures ParseMediaType(MediaTypeTag(t)) == Some(t)
  {
  }

  datatype MediaItem = MediaItem(id: string, url: string, kind: MediaType)

  datatype PortfolioItem = PortfolioItem(
    id: string,
    images: seq<MediaItem>,
    title: string,
    year: string,
    category: string,
    description: string)

  /** The status of a drop: the string union `"upcoming" | "available" | "sold_out"`. */
  datatype DropStatus = Upcoming | Available | SoldOut

  /** The string the source stores for a drop status. */
  function StatusTag(s: DropStatus): string {
    match s
    case Upcoming => "upcoming"
    case Available => "available"
    case SoldOut => "sold_out"
  }

  /** Reads a stored status tag; only the three tags of the union are accepted. */
  function ParseStatus(tag: string): (r: Option<DropStatus>)
    ensures r.Some? <==> tag == "upcoming" || tag == "available" || tag == "sold_out"
  {
    if tag == "upcoming" then Some(Upcoming)
    else if tag == "available" then Some(Available)
    else if tag == "sold_out" then Some(SoldOut)
    else None
  }

  /** The three statuses are exactly the three tags, each read back as itself. */
  lemma StatusTagRoundTrip(s: DropStatus)
    ensures ParseStatus(StatusTag(s)) == Some(s)
  {
  }

  /** A drop; `remaining` is the one optional field. */
  datatype Drop = Drop(
    id: string,
    images: seq<MediaItem>,
    title: string,
    edition: int,
    price: int,
    status: DropStatus,
    dropDate: string,
    description: string,
    remaining: Option<int>)

  datatype SiteSettings = SiteSettings(
    brandTagline: string,
    email: string,
    instagram: string,
    twitter: string,
    tiktok: string,
    youtube: string,
    aboutText: string,
    heroTitle: string,
    heroSubtitle: string)

  /** The id of each record, as a key for the list operations. */
  function MediaId(m: MediaItem): string { m.id }
  function PortfolioId(p: PortfolioItem): string { p.id }
  function DropId(d: Drop): string { d.id }

  const DefaultSettings := SiteSettings(
    "Sculptural art that dwells in the space between darkness and elegance.",
    "contact@mrtz.art",
    "https://instagram.com/mrtz.art",
    "", "", "", "",
    "Sculpting the Shadows",
    "Where darkness meets elegance, form emerges from the void.")

  const DefaultPortfolio: seq<PortfolioItem> := [
    PortfolioItem("1", [MediaItem("1a", "/src/assets/sculpture-1.jpg", Image)],
      "Emergence I", "2024", "Biomechanical", "A meditation on organic and mechanical fusion."),
    PortfolioItem("2", [MediaItem("2a", "/src/assets/sculpture-2.jpg", Image)],
      "Vessel of Shadows", "2024", "Organic Forms", "Inspired by deep-sea creatures."),
    PortfolioItem("3", [MediaItem("3a", "/src/assets/sculpture-3.jpg", Image)],
      "Silent Sentinel", "2023", "Figurative", "A guardian figure emerging from darkness."),
    PortfolioItem("4", [MediaItem("4a", "/src/assets/sculpture-4.jpg", Image)],
      "Nocturne", "2024", "Abstract", "Pure form dancing with shadow.")
  ]

  /**
   * The seeded drops.  The date of the first one is computed from the clock
   * when the module loads (a week from then, as an ISO string), so it is a
   * parameter here.
   */
  function DefaultDrops(awakeningDate: string): seq<Drop> {
    [
      Drop("1", [MediaItem("1a", "/src/assets/sculpture-3.jpg", Image)],
        "The Awakening", 25, 2500, Upcoming, awakeningDate, "Limited edition series.", None),
      Drop("2", [MediaItem("2a", "/src/assets/sculpture-1.jpg", Image)],
        "Biomech Series I", 50, 1800, Available, "",
        "The first in a series of biomechanical explorations.", Some(23))
    ]
  }

  /** The default portfolio holds four items whose ids are "1" to "4", all distinct. */
  lemma DefaultPortfolioIds()
    ensures |DefaultPortfolio| == 4
    ensures forall i :: 0 <= i < 4 ==> DefaultPortfolio[i].id == ["1234"[i]]
    ensures UniqueKeys(DefaultPortfolio, PortfolioId)
  {
  }

  /** Every seeded portfolio item and drop carries at least one media item. */
  lemma DefaultsHaveMedia(awakeningDate: string)
    ensures forall i :: 0 <= i < |DefaultPortfolio| ==> |DefaultPortfolio[i].images| >= 1
    ensures forall i :: 0 <= i < |DefaultDrops(awakeningDate)| ==> |DefaultDrops(awakeningDate)[i].images| >= 1
  {
  }

  /**
   * The seeded drops have distinct ids; the available one has 23 of 50 left and
   * the upcoming one has no `remaining` at all.
   */
  lemma DefaultDropsShape(awakeningDate: string)
    ensures UniqueKeys(DefaultDrops(awakeningDate), DropId)
    ensures forall d :: d in DefaultDrops(awakeningDate) && d.status == Available ==>
      d.remaining == Some(23) && d.edition == 50 && 23 <= d.edition
    ensures forall d :: d in DefaultDrops(awakeningDate) && d.status == Upcoming ==> d.remaining == None
  {
  }
}
