/** The feed registry and the generator's set-up (`__init__`, `load_rss_feeds`): the
    credential check, the feed table read from `rss_feeds.json` and the three built-in
    feeds used when that table is empty. */
module Registry {
  import opened Wrappers

  /** One row of the registry: a display name and the feed's URL.  The registry is an
      ordered table because the menu numbers feeds in the table's order. */
  datatype Feed = Feed(name: string, url: string)

  /** What `rss_feeds.json` turned out to be when the generator started. */
  datatype FeedFile =
    | Missing
    | Unreadable            // opening or decoding raised
    | Parsed(feeds: seq<Feed>)

  const DefaultFeeds: seq<Feed> := [
    Feed("Stacker News", "https://stacker.news/rss"),
    Feed("Hacker News", "https://news.ycombinator.com/rss"),
    Feed("Bitcoin Magazine", "https://bitcoinmagazine.com/.rss/full/")
  ]

  const OutputDirName: string := "output"

  /** `load_rss_feeds`: the parsed table, or an empty one when the file is missing or
      cannot be read. */
  function LoadRssFeeds(file: FeedFile): seq<Feed> {
    match file
    case Parsed(feeds) => feeds
    case _ => []
  }

  /** An empty table is replaced by the built-in feeds. */
  function FeedsOrDefaults(loaded: seq<Feed>): seq<Feed> {
    if loaded == [] then DefaultFeeds else loaded
  }

  predicate DistinctNames(feeds: seq<Feed>) {
    forall i, j :: 0 <= i < j < |feeds| ==> feeds[i].name != feeds[j].name
  }

  /** The state the generator holds after `__init__`. */
  datatype Generator = Generator(apiKey: string, feeds: seq<Feed>, outputDir: string)

  /** `__init__`: `None` is the exit with status 1 that follows a missing or empty
      credential, before the registry is read. */
  function NewGenerator(apiKey: Option<string>, file: FeedFile): Option<Generator> {
    if apiKey.None? || apiKey.value == "" then None
    else Some(Generator(apiKey.value, FeedsOrDefaults(LoadRssFeeds(file)), OutputDirName))
  }

  // ---------------------------------------------------------------------------

  /** After the fallback there is always a feed to choose from; a non-empty table is kept
      as it was, an empty one becomes the three built-in feeds, which have distinct
      names. */
  lemma FeedsOrDefaultsSpec(loaded: seq<Feed>)
    ensures FeedsOrDefaults(loaded) != []
    ensures loaded != [] ==> FeedsOrDefaults(loaded) == loaded
    ensures loaded == [] ==> |FeedsOrDefaults(loaded)| == 3 && DistinctNames(FeedsOrDefaults(loaded))
  {
  }

  /** A missing or unreadable file leaves the generator with the built-in feeds. */
  lemma BadFileGivesDefaults(file: FeedFile)
    requires !file.Parsed?
    ensures FeedsOrDefaults(LoadRssFeeds(file)) == DefaultFeeds
  {
  }

  /** The generator starts exactly when a non-empty credential is present, and then it
      holds a non-empty feed table and writes under `output`. */
  lemma NewGeneratorSpec(apiKey: Option<string>, file: FeedFile)
    ensures NewGenerator(apiKey, file).Some? <==> apiKey.Some? && |apiKey.value| > 0
    ensures NewGenerator(apiKey, file).Some? ==>
      var g := NewGenerator(apiKey, file).value;
      && g.feeds != []
      && g.outputDir == "output"
      && (file.Parsed? && file.feeds != [] ==> g.feeds == file.feeds)
  {
  }
}
