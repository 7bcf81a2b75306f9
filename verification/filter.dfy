/** The recency filter (`filter_entries_by_date`): keep the entries whose effective date is
    on or after `now` minus the requested number of weeks. */
module DateFilter {
  import opened Wrappers
  import opened Entries

  /** One week in microseconds. */
  const MicrosPerWeek: int := 7 * 24 * 60 * 60 * 1_000_000

  /** The start of the window: `weeksAgo` whole weeks before `now`. */
  function Cutoff(now: Timestamp, weeksAgo: int): Timestamp {
    now - weeksAgo * MicrosPerWeek
  }

  /** Where an entry's date is read from. */
  datatype DateSource =
    | PublishedTuple(tuple: TimeTuple)
    | PublishedText(text: string)
    | UpdatedTuple(tuple: TimeTuple)
    | UpdatedText(text: string)

  /** The first present source, in the fixed priority order; a structured tuple counts only
      when it is non-empty.  `None` when the entry has no date at all. */
  function DateSourceOf(e: Entry): Option<DateSource> {
    if TupleGiven(e.publishedParsed) then Some(PublishedTuple(e.publishedParsed.value))
    else if e.published.Some? then Some(PublishedText(e.published.value))
    else if TupleGiven(e.updatedParsed) then Some(UpdatedTuple(e.updatedParsed.value))
    else if e.updated.Some? then Some(UpdatedText(e.updated.value))
    else None
  }

  /** The instant a source denotes, or `None` when its conversion raises. */
  function Resolve(src: DateSource, parse: DateParsers): Option<Timestamp> {
    match src
    case PublishedTuple(t) => parse.fromTuple(t)
    case PublishedText(s) => parse.fromText(s)
    case UpdatedTuple(t) => parse.fromTuple(t)
    case UpdatedText(s) => parse.fromText(s)
  }

  /** The effective date: the chosen source, converted.  A failing conversion does not
      fall back to a later source. */
  function EffectiveDate(e: Entry, parse: DateParsers): Option<Timestamp> {
    match DateSourceOf(e)
    case None => None
    case Some(src) => Resolve(src, parse)
  }

  /** Whether the filter keeps an entry. */
  predicate Recent(e: Entry, cutoff: Timestamp, parse: DateParsers) {
    match EffectiveDate(e, parse)
    case None => false
    case Some(d) => d >= cutoff
  }

  /** The filter's result on a prefix of the input: the kept entries in input order,
      defined from the last entry so that it follows the loop that appends. */
  function Filtered(s: seq<Entry>, cutoff: Timestamp, parse: DateParsers): seq<Entry> {
    if s == [] then []
    else
      var last := s[|s| - 1];
      Filtered(s[..|s| - 1], cutoff, parse) + (if Recent(last, cutoff, parse) then [last] else [])
  }

  /** `filter_entries_by_date`, with the clock reading passed in as `now`. */
  method FilterEntriesByDate(entries: seq<Entry>, weeksAgo: int, now: Timestamp, parse: DateParsers)
    returns (filtered: seq<Entry>)
    ensures filtered == Filtered(entries, Cutoff(now, weeksAgo), parse)
  {
    var cutoff := now - weeksAgo * MicrosPerWeek;
    filtered := [];
    for i := 0 to |entries|
      invariant filtered == Filtered(entries[..i], cutoff, parse)
    {
      var entry := entries[i];
      assert entries[..i + 1][..i] == entries[..i];
      var pubDate: Option<Timestamp>;
      if TupleGiven(entry.publishedParsed) {
        pubDate := parse.fromTuple(entry.publishedParsed.value);
      } else if entry.published.Some? {
        pubDate := parse.fromText(entry.published.value);
      } else if TupleGiven(entry.updatedParsed) {
        pubDate := parse.fromTuple(entry.updatedParsed.value);
      } else if entry.updated.Some? {
        pubDate := parse.fromText(entry.updated.value);
      } else {
        // no date: skip the entry
        continue;
      }
      if pubDate.None? {
        // the conversion or the comparison raised: skip the entry
        continue;
      }
      if pubDate.value >= cutoff {
        filtered := filtered + [entry];
      }
    }
    assert entries[..|entries|] == entries;
  }

  // ---------------------------------------------------------------------------
  // Properties of the specification

  /** An entry with none of the four date keys. */
  predicate Undated(e: Entry) {
    !TupleGiven(e.publishedParsed) && e.published.None? && !TupleGiven(e.updatedParsed) && e.updated.None?
  }

  /** Exactly the kept entries of the input survive, and nothing else. */
  lemma {:induction false} FilteredMembers(s: seq<Entry>, cutoff: Timestamp, parse: DateParsers, x: Entry)
    ensures x in Filtered(s, cutoff, parse) <==> x in s && Recent(x, cutoff, parse)
    decreases |s|
  {
    if s != [] {
      var init := s[..|s| - 1];
      FilteredMembers(init, cutoff, parse, x);
      assert s == init + [s[|s| - 1]];
    }
  }

  /** The positions of the kept entries, in increasing order. */
  ghost function KeptIndices(s: seq<Entry>, cutoff: Timestamp, parse: DateParsers): seq<nat>
  {
    if s == [] then []
    else
      KeptIndices(s[..|s| - 1], cutoff, parse) + (if Recent(s[|s| - 1], cutoff, parse) then [|s| - 1] else [])
  }

  ghost predicate StrictlyIncreasing(idx: seq<nat>) {
    forall a, b :: 0 <= a < b < |idx| ==> idx[a] < idx[b]
  }

  /** The result is the subsequence of the input at the kept positions: positions increase
      (input order is preserved), each position holds the entry found there, and a position
      is selected exactly when its entry is recent. */
  lemma {:induction false} FilteredIsOrderedSelection(s: seq<Entry>, cutoff: Timestamp, parse: DateParsers)
    ensures var idx := KeptIndices(s, cutoff, parse);
      && |idx| == |Filtered(s, cutoff, parse)|
      && StrictlyIncreasing(idx)
      && (forall k :: 0 <= k < |idx| ==> idx[k] < |s| && Filtered(s, cutoff, parse)[k] == s[idx[k]])
      && (forall i :: 0 <= i < |s| ==> (i in idx <==> Recent(s[i], cutoff, parse)))
    decreases |s|
  {
    if s != [] {
      var init := s[..|s| - 1];
      FilteredIsOrderedSelection(init, cutoff, parse);
      var idx0 := KeptIndices(init, cutoff, parse);
      var idx := KeptIndices(s, cutoff, parse);
      assert forall k :: 0 <= k < |idx0| ==> idx0[k] < |init|;
      assert forall i :: 0 <= i < |init| ==> s[i] == init[i];
      if Recent(s[|s| - 1], cutoff, parse) {
        assert idx == idx0 + [|s| - 1];
      } else {
        assert idx == idx0;
      }
    }
  }

  /** An entry with no date key never survives the filter. */
  lemma UndatedNeverKept(s: seq<Entry>, cutoff: Timestamp, parse: DateParsers, e: Entry)
    requires Undated(e)
    ensures e !in Filtered(s, cutoff, parse)
  {
    FilteredMembers(s, cutoff, parse, e);
  }

  /** For an entry whose date resolves, the filter keeps it exactly when the date is on or
      after `now - weeks`; the boundary itself is kept. */
  lemma RecentIffWithinWindow(e: Entry, now: Timestamp, weeksAgo: int, parse: DateParsers)
    requires EffectiveDate(e, parse).Some?
    ensures Recent(e, Cutoff(now, weeksAgo), parse)
        <==> EffectiveDate(e, parse).value >= now - weeksAgo * MicrosPerWeek
  {
  }

  /** The first present source decides: when it does not convert, the entry is dropped even
      though a later source would have converted. */
  lemma NoFallbackAfterFailedParse(e: Entry, cutoff: Timestamp, parse: DateParsers)
    requires DateSourceOf(e).Some? && Resolve(DateSourceOf(e).value, parse).None?
    ensures !Recent(e, cutoff, parse)
  {
  }

  /** Filtering a concatenation filters each part: entries are appended in iteration order. */
  lemma {:induction false} FilteredAppend(a: seq<Entry>, b: seq<Entry>, cutoff: Timestamp, parse: DateParsers)
    ensures Filtered(a + b, cutoff, parse) == Filtered(a, cutoff, parse) + Filtered(b, cutoff, parse)
    decreases |b|
  {
    if b == [] {
      assert a + b == a;
    } else {
      var binit := b[..|b| - 1];
      FilteredAppend(a, binit, cutoff, parse);
      assert (a + b)[..|a + b| - 1] == a + binit;
    }
  }

  /** Filtering again with the same window changes nothing. */
  lemma {:induction false} FilterIdempotent(s: seq<Entry>, cutoff: Timestamp, parse: DateParsers)
    ensures Filtered(Filtered(s, cutoff, parse), cutoff, parse) == Filtered(s, cutoff, parse)
    decreases |s|
  {
    if s != [] {
      var init := s[..|s| - 1];
      var last := s[|s| - 1];
      FilterIdempotent(init, cutoff, parse);
      var tail := if Recent(last, cutoff, parse) then [last] else [];
      FilteredAppend(Filtered(init, cutoff, parse), tail, cutoff, parse);
      if Recent(last, cutoff, parse) {
        assert Filtered(tail, cutoff, parse) == Filtered([], cutoff, parse) + [last];
      }
    }
  }

  /** A wider window (an earlier cutoff) keeps every entry a narrower one keeps. */
  lemma WiderWindowKeepsMore(s: seq<Entry>, now: Timestamp, weeks1: int, weeks2: int, parse: DateParsers, x: Entry)
    requires weeks1 <= weeks2
    requires x in Filtered(s, Cutoff(now, weeks1), parse)
    ensures x in Filtered(s, Cutoff(now, weeks2), parse)
  {
    FilteredMembers(s, Cutoff(now, weeks1), parse, x);
    FilteredMembers(s, Cutoff(now, weeks2), parse, x);
  }
}
