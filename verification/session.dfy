/** The session driver (`run`): four validated menu answers read from the console, the
    fetch, the filter, the generator, and the file the notes are written to.

    The console is the sequence of lines the user types, each already passed through
    `int(...)`: `None` is a line on which `int` raises `ValueError`.  Running out of lines
    ends the session (in the source, `input` raises `EOFError`, which nothing catches). */
module Session {
  import opened Wrappers
  import opened Entries
  import opened Registry
  import opened DateFilter
  import opened ProgramNotes
  import opened FileNames

  type Line = Option<int>

  /** The four questions the driver asks. */
  datatype Menu =
    | FeedMenu(feedCount: nat)   // "Select a feed (number)"
    | WeeksMenu                  // "Select time period (number)"
    | TopicsMenu                 // "How many topics for the program notes? (1-5)"
    | LevelMenu                  // "Technical depth level (0-5, ...)"

  /** The range check of each question; for the feed menu the number typed is one more
      than the index it selects. */
  predicate Accepts(menu: Menu, v: int) {
    match menu
    case FeedMenu(n) => 0 <= v - 1 < n
    case WeeksMenu => 1 <= v <= 4
    case TopicsMenu => 1 <= v <= 5
    case LevelMenu => 0 <= v <= 5
  }

  predicate AcceptsReply(menu: Menu, r: Line) {
    r.Some? && Accepts(menu, r.value)
  }

  /** The position of the first accepted line at or after `start`. */
  function FirstAccepted(replies: seq<Line>, start: nat, menu: Menu): (r: Option<nat>)
    requires start <= |replies|
    ensures r.Some? ==> start <= r.value < |replies| && AcceptsReply(menu, replies[r.value])
    ensures forall k :: start <= k < |replies| && (r.None? || k < r.value) ==> !AcceptsReply(menu, replies[k])
    decreases |replies| - start
  {
    if start == |replies| then None
    else if AcceptsReply(menu, replies[start]) then Some(start)
    else FirstAccepted(replies, start + 1, menu)
  }

  /** One validation loop: read lines from `start` until one is a number the menu accepts.
      `next` is the position of the first unread line. */
  method AskUntilValid(replies: seq<Line>, start: nat, menu: Menu) returns (answer: Option<int>, next: nat)
    requires start <= |replies|
    ensures FirstAccepted(replies, start, menu).None? ==> answer.None? && next == |replies|
    ensures FirstAccepted(replies, start, menu).Some? ==>
      var k := FirstAccepted(replies, start, menu).value;
      answer == replies[k] && next == k + 1
  {
    next := start;
    while next < |replies|
      invariant start <= next <= |replies|
      invariant FirstAccepted(replies, start, menu) == FirstAccepted(replies, next, menu)
    {
      var line := replies[next];
      next := next + 1;
      if line.Some? && Accepts(menu, line.value) {
        return line, next;
      }
      // "Invalid selection" or "Please enter a number": ask again
    }
    answer := None;
  }

  /** How a session ends. */
  datatype Outcome =
    | InputEnded                                   // the console ran out before an answer
    | NoFeedEntries(feed: Feed)                    // the fetch gave no entries
    | NoRecentEntries(feed: Feed, weeks: int)      // none of them is recent enough
    | Saved(feed: Feed, weeks: int, numTopics: int, techLevel: int, path: string, notes: string)

  /** How a session ends once a feed with recent entries is chosen: the topic count is the
      first accepted line from `start`, the depth the first accepted line after it, and
      the notes generated from `recent` with those two answers are saved at the path made
      from the feed's name.  Input that runs out first ends the session. */
  predicate AskedAndSaved(outcome: Outcome, g: Generator, replies: seq<Line>, start: nat, feed: Feed,
                          weeks: int, recent: seq<Entry>, service: Request -> Option<string>,
                          timestamp: string)
    requires start <= |replies|
  {
    var kt := FirstAccepted(replies, start, TopicsMenu);
    if kt.None? then outcome == InputEnded
    else
      var kl := FirstAccepted(replies, kt.value + 1, LevelMenu);
      if kl.None? then outcome == InputEnded
      else
        var numTopics := replies[kt.value].value;
        var techLevel := replies[kl.value].value;
        outcome == Saved(feed, weeks, numTopics, techLevel,
                         OutputPath(g.outputDir, feed.name, timestamp),
                         AnswerText(service(RequestFor(recent, numTopics, techLevel))))
  }

  /** `run`.  `fetch` is `fetch_rss_feed` (a failure already turned into no entries), `now`
      the clock reading the filter takes, `timestamp` the `%Y%m%d_%H%M%S` reading used for
      the file name; a `Saved` outcome is the text written to `path`. */
  method Run(g: Generator, replies: seq<Line>, fetch: string -> seq<Entry>, now: Timestamp,
             parse: DateParsers, service: Request -> Option<string>, timestamp: string)
    returns (outcome: Outcome)
    // each answer is the first accepted line after the previous answer, and the outcome
    // is decided by the first of the four questions, the fetch and the filter to stop it
    ensures
      var kf := FirstAccepted(replies, 0, FeedMenu(|g.feeds|));
      kf.None? ==> outcome == InputEnded
    ensures
      var kf := FirstAccepted(replies, 0, FeedMenu(|g.feeds|));
      kf.Some? ==>
        var feed := g.feeds[replies[kf.value].value - 1];
        var entries := fetch(feed.url);
        if entries == [] then outcome == NoFeedEntries(feed)
        else
          var kw := FirstAccepted(replies, kf.value + 1, WeeksMenu);
          if kw.None? then outcome == InputEnded
          else
            var weeks := replies[kw.value].value;
            var recent := Filtered(entries, Cutoff(now, weeks), parse);
            if recent == [] then outcome == NoRecentEntries(feed, weeks)
            else AskedAndSaved(outcome, g, replies, kw.value + 1, feed, weeks, recent, service, timestamp)
    // what any saved session has in common
    ensures outcome.Saved? ==>
      && Accepts(WeeksMenu, outcome.weeks)
      && Accepts(TopicsMenu, outcome.numTopics)
      && Accepts(LevelMenu, outcome.techLevel)
      && Filtered(fetch(outcome.feed.url), Cutoff(now, outcome.weeks), parse) != []
  {
    ghost var kf := FirstAccepted(replies, 0, FeedMenu(|g.feeds|));
    var feedReply, next := AskUntilValid(replies, 0, FeedMenu(|g.feeds|));
    if feedReply.None? {
      return InputEnded;
    }
    var feed := g.feeds[feedReply.value - 1];
    var entries := fetch(feed.url);
    if entries == [] {
      return NoFeedEntries(feed);
    }

    ghost var kw := FirstAccepted(replies, kf.value + 1, WeeksMenu);
    var weeksReply;
    weeksReply, next := AskUntilValid(replies, next, WeeksMenu);
    if weeksReply.None? {
      return InputEnded;
    }
    var weeksAgo := weeksReply.value;
    var filtered := FilterEntriesByDate(entries, weeksAgo, now, parse);
    if filtered == [] {
      return NoRecentEntries(feed, weeksAgo);
    }

    assert next == kw.value + 1 && weeksAgo == replies[kw.value].value;
    outcome := AskAndSave(g, replies, next, feed, weeksAgo, filtered, service, timestamp);
  }

  /** The second half of `run`: the topic and depth questions, note generation, and the
      file the notes go to.  `start` is the first unread line. */
  method AskAndSave(g: Generator, replies: seq<Line>, start: nat, feed: Feed, weeks: int,
                    recent: seq<Entry>, service: Request -> Option<string>, timestamp: string)
    returns (outcome: Outcome)
    requires start <= |replies| && recent != []
    ensures AskedAndSaved(outcome, g, replies, start, feed, weeks, recent, service, timestamp)
    ensures outcome.InputEnded? || outcome.Saved?
    ensures outcome.Saved? ==>
      && outcome.feed == feed && outcome.weeks == weeks
      && Accepts(TopicsMenu, outcome.numTopics) && Accepts(LevelMenu, outcome.techLevel)
  {
    var topicsReply, next := AskUntilValid(replies, start, TopicsMenu);
    if topicsReply.None? {
      return InputEnded;
    }
    var levelReply;
    levelReply, next := AskUntilValid(replies, next, LevelMenu);
    if levelReply.None? {
      return InputEnded;
    }

    var notes, _ := GenerateProgramNotes(recent, topicsReply.value, levelReply.value, service);
    var fileName := SafeFeedName(feed.name) + "_" + timestamp + ".md";
    var path := JoinPath(g.outputDir, fileName);
    outcome := Saved(feed, weeks, topicsReply.value, levelReply.value, path, notes);
  }

  // ---------------------------------------------------------------------------

  /** The validation loop returns the first accepted line, and every line before it (from
      where it started) was rejected: not a number, or out of range. */
  lemma FirstAcceptedIsFirst(replies: seq<Line>, start: nat, menu: Menu, k: nat)
    requires start <= k < |replies|
    requires AcceptsReply(menu, replies[k])
    requires forall j :: start <= j < k ==> !AcceptsReply(menu, replies[j])
    ensures FirstAccepted(replies, start, menu) == Some(k)
  {
  }

  /** The accepted ranges: feed numbers 1..n, 1 to 4 weeks, 1 to 5 topics, depth 0 to 5. */
  lemma MenuRanges(n: nat, v: int)
    ensures Accepts(FeedMenu(n), v) <==> 1 <= v <= n
    ensures Accepts(WeeksMenu, v) <==> v in {1, 2, 3, 4}
    ensures Accepts(TopicsMenu, v) <==> v in {1, 2, 3, 4, 5}
    ensures Accepts(LevelMenu, v) <==> v in {0, 1, 2, 3, 4, 5}
  {
  }
}
