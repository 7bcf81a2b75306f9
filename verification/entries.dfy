/** The entry records that the feed parser hands to the note generator.

    The parser produces open-ended dictionaries; the model fixes the keys the generator
    looks at and makes each of them optional.  `None` stands for a missing key; a key
    holding Python's `None` is treated as missing too, which the source does not do (the
    differences are listed in the README). */
module Entries {
  import opened Wrappers

  /** A point in time: microseconds since 1970-01-01T00:00:00 UTC (the resolution of a
      timezone-aware Python datetime). */
  type Timestamp = int

  /** A structured time tuple as the feed parser gives it (year, month, day, hour, minute,
      second, ...). */
  type TimeTuple = seq<int>

  /** One element of an entry's `content` list; `value` may be missing. */
  datatype ContentItem = ContentItem(value: Option<string>)

  datatype Entry = Entry(
    title: Option<string>,
    link: Option<string>,
    summary: Option<string>,
    content: Option<seq<ContentItem>>,
    published: Option<string>,
    publishedParsed: Option<TimeTuple>,
    updated: Option<string>,
    updatedParsed: Option<TimeTuple>)

  /** Python truthiness of an optional time tuple: present and non-empty. */
  predicate TupleGiven(t: Option<TimeTuple>) {
    t.Some? && t.value != []
  }

  /** Python truthiness of the optional `content` list: present and non-empty. */
  predicate ContentGiven(c: Option<seq<ContentItem>>) {
    c.Some? && c.value != []
  }

  /** The conversions the filter delegates to libraries: a structured tuple to a UTC
      instant (from its first six fields) and free text to an instant (a general date
      parser).  `None` is a conversion that raises, or a text date
      without a timezone, whose comparison with the aware cutoff raises. */
  datatype DateParsers = DateParsers(
    fromTuple: TimeTuple -> Option<Timestamp>,
    fromText: string -> Option<Timestamp>)
}
