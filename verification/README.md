# RSS podcast note generator: a Dafny model

The modelled program is a console tool. It lists a registry of RSS feeds and lets the user
pick one. It fetches that feed's entries and keeps the ones published within the last one
to four weeks. From those entries it builds a prompt that describes up to twenty articles,
and sends the prompt to a text-generation service. It then writes the returned programme
notes to a timestamped Markdown file under `output/`.

The model covers the deterministic core of that flow:

- `entries.dfy`: the entry record. Every key the program reads is optional. Truthiness tests
  (a present but empty date tuple or content list) are spelled out. The two date conversions
  are abstract.
- `filter.dfy` (`DateFilter`): the recency filter. It is written as the source's loop, and
  its result is characterised as an order-preserving selection of exactly the recent
  entries.
- `markup.dfy` (`Markup`): tag removal, with the left-to-right, non-overlapping match
  semantics of the pattern `<[^>]+>`.
- `decimal.dfy` (`Decimal`): decimal rendering of the article numbers and of the two
  numbers placed in the prompt.
- `notes.dfy` (`ProgramNotes`): the article blocks, the prompt text, the request parameters,
  and the three outcomes of note generation. The outcomes are a fixed message for no
  entries, the service's text, or a fixed failure message.
- `filenames.dfy` (`FileNames`): the feed-name sanitisation, the report file name, and
  joining it onto the output directory.
- `registry.dfy` (`Registry`): the credential check, the loading of the feed table, and the
  fallback to the three built-in feeds.
- `session.dfy` (`Session`): the four validation loops and the driver, from the feed choice
  to the file path and the text written there.

Modelling choices:

- Instants are integers counting microseconds, which is the resolution of Python's datetime.
- The console is a sequence of lines that have already gone through integer parsing. `None`
  is a line that is not a number.
- The service is a function from the request to `Some(text)`, or to `None` when the call
  raises.
- The feed fetch, the two clock readings and the date parsers are parameters.

The filter's effective date comes from the first date source that is present. If that
source does not convert, the entry is dropped, and no later source is tried (main.py:74-90;
`DateFilter.NoFallbackAfterFailedParse`).

## Model

| member | source | states |
|---|---|---|
| DateFilter.FilterEntriesByDate | main.py:65-92 | the loop returns exactly the entries of the input, in input order, whose effective date is at or after `now` minus `weeksAgo` weeks |
| DateFilter.FilteredMembers | main.py:70-92 | an entry is in the result if and only if it is in the input and its effective date resolves and lies within the window |
| DateFilter.FilteredIsOrderedSelection | main.py:70-92 | the result is the input read at a strictly increasing list of positions, and a position is on that list exactly when its entry is recent: nothing is reordered, duplicated or invented |
| DateFilter.UndatedNeverKept | main.py:82-84 | an entry with no published or updated date, tuple or text, is never kept |
| DateFilter.RecentIffWithinWindow | main.py:67-87 | an entry is recent exactly when its resolved date is at least the cutoff; the boundary instant is kept |
| DateFilter.NoFallbackAfterFailedParse | main.py:73-90 | when the first present date source fails to convert, the entry is dropped even if a later source would have converted |
| DateFilter.FilteredAppend | main.py:70-92 | filtering distributes over concatenation of entry lists |
| DateFilter.FilterIdempotent | main.py:65-92 | filtering the result again with the same cutoff changes nothing |
| DateFilter.WiderWindowKeepsMore | main.py:67-87 | every entry kept for a later cutoff is kept for an earlier one, so four weeks keep at least what one week keeps |
| Markup.StripTagsDeletesOnly | main.py:117 | tag removal only deletes characters: the result is no longer, and its characters are a sub-multiset of the input's |
| Markup.StripTagsIsTagFree | main.py:117 | no match of `<[^>]+>` starts anywhere in the result |
| Markup.TagFreeUnchanged | main.py:117 | text in which no tag starts is returned unchanged |
| Markup.StripTagsIdempotent | main.py:117 | removing tags twice is removing them once |
| Markup.NoOpeningBracketUnchanged | main.py:117 | text with no `<` is returned unchanged |
| Markup.StripPrefix | main.py:117 | a prefix with no `<` passes through, and stripping continues on the rest |
| Markup.StripLeadingTag | main.py:117 | a leading `<…>` with at least one character inside and no `>` before its end is deleted whole |
| Markup.StripExample | main.py:117 | `<p>Hello <b>world</b></p>` becomes `Hello world` |
| Decimal.NatToDecimal | main.py:126 | the rendering of a number is a non-empty run of digits with no leading zero unless the number is 0 |
| Decimal.DecimalRoundTrip | main.py:126 | reading the digits back gives the number |
| Decimal.DecimalInjective | main.py:126 | different article numbers get different numerals |
| ProgramNotes.ResolveSummary | main.py:106-114 | the summary source is the `summary` key if present, else the first `value` of a non-empty content list, else empty |
| ProgramNotes.FirstValueIsFirst | main.py:110-114 | the chosen content value belongs to an item that has one, and every item before it has none |
| ProgramNotes.FormatArticle | main.py:126-130 | an article block is the numbered heading and the title, link, published and summary lines, in that order, with the defaults `No title` and `No link` |
| ProgramNotes.BuildArticlesContent | main.py:100-130 | the content is the fixed header followed by the blocks of the first twenty entries, numbered from 1, in input order |
| ProgramNotes.GenerateProgramNotes | main.py:94-178 | no entries gives the fixed message and no request. Otherwise exactly one request is sent, with the model, token limit, temperature, system text and prompt of the source. The result is the service's text, or the fixed failure message when the call fails |
| ProgramNotes.SummaryExcerptIsPrefix | main.py:116-130 | the shown summary is a prefix, at most 500 characters long, of the tag-free summary |
| ProgramNotes.LongSummaryIsCut | main.py:106-130 | a tag-free summary of 500 characters or more, from the `summary` key or from the content list, shows exactly its first 500 characters followed by `...` |
| ProgramNotes.ArticleBlockEndsWithSummary | main.py:126-130 | each block ends with the summary line and a blank line |
| ProgramNotes.ArticleBlockStartsWithHeading | main.py:126 | each block starts with `Article <n>:` |
| ProgramNotes.HeadingsDistinct | main.py:102-126 | different article numbers give different headings |
| ProgramNotes.OnlyFirstTwentyShown | main.py:102 | two entry lists that agree on their first twenty entries give the same article content |
| ProgramNotes.PromptEmbeds | main.py:133-163 | the prompt contains the rendered topic count, the rendered depth level and the whole article content |
| ProgramNotes.PromptListsArticles | main.py:102-146 | for every k from 1 to min(n, 20), the prompt contains the heading `Article k:` |
| FileNames.ReplaceChar | main.py:267 | character replacement keeps the length and changes exactly the occurrences of the replaced character |
| FileNames.SafeFeedNameAt | main.py:267 | the sanitised name has the same length, has `_` where the name had a space, `/` or `\`, and is unchanged elsewhere |
| FileNames.SafeFeedNameHasNoUnsafe | main.py:267 | the sanitised name contains no space, `/` or `\` |
| FileNames.SafeFeedNameExample | main.py:267 | `Bitcoin News/Weekly` becomes `Bitcoin_News_Weekly` |
| FileNames.OutputFileNameShape | main.py:268 | the file name is the sanitised feed name, `_`, the timestamp and `.md` |
| FileNames.OutputPathStaysInDirectory | main.py:266-269 | with a timestamp free of separators, the file path is the output directory, one `/`, and a name with no further `/` |
| Registry.FeedsOrDefaultsSpec | main.py:30-36 | the feed table is never empty: a non-empty loaded table is kept, and an empty one becomes the three built-in feeds with distinct names |
| Registry.BadFileGivesDefaults | main.py:43-54 | a missing or unreadable feed file leaves the built-in feeds |
| Registry.NewGeneratorSpec | main.py:17-41 | set-up succeeds exactly when a non-empty credential is present; the generator then has a non-empty feed table and the output directory `output` |
| Session.FirstAccepted | main.py:189-256 | the position found holds an accepted number, and every line before it is rejected |
| Session.AskUntilValid | main.py:189-256 | a validation loop returns the first accepted line and resumes after it; it returns no answer only when the input runs out |
| Session.Run | main.py:180-274 | each answer is the first accepted line after the previous answer. The feed is the one numbered by the feed answer. The session ends with no input when a question finds no accepted line. It stops after an empty fetch, or after a filter result that is empty for the weeks answered. Otherwise it saves the notes, generated from the recent entries with the topic and depth answers, at the path built from the feed's name. A saved session has answers in range and a non-empty filter result |
| Session.AskAndSave | main.py:236-272 | the topic count is the first accepted line from `start`, and the depth is the first accepted line after it. The notes for those answers are saved under the feed's sanitised name. Running out of input ends the session instead |
| Session.FirstAcceptedIsFirst | main.py:189-256 | a line that is accepted, with every earlier line rejected, is the one the loop returns |
| Session.MenuRanges | main.py:191-251 | accepted answers: feed numbers 1 to n, weeks 1 to 4, topics 1 to 5, depth 0 to 5 |

## Left out

- The text-generation call itself is not modelled. It is a function from the request to the
  returned text, or to nothing when it raises. Only the first content block of the response
  is used, as in the source.
- The feed fetch and parse, and their error handling, are not modelled (main.py:56-63). They
  are a `fetch` parameter that already maps a failure to no entries.
- JSON decoding of the feed file is not modelled. Its outcome is one of missing, unreadable,
  or a table. A JSON value that is not an object is not modelled. A table's names are taken
  as given, because a decoded object has no duplicate keys.
- The date conversions are not modelled. These are the tuple to UTC instant conversion and
  the free-text date parser. They are the `DateParsers` parameter. A text date without a
  timezone, whose comparison with the aware cutoff raises, is a conversion that gives
  nothing.
- The two clock readings are parameters. These are the UTC instant the filter uses and the
  local `%Y%m%d_%H%M%S` stamp in the file name.
- Console output, creation of the output directory, and the file write are not modelled. A
  `Saved` outcome carries the path and the text written there.
- Integer parsing of input lines is not modelled. Each line arrives as a number or as
  nothing. End of input, which raises uncaught in the source, ends the session as
  `InputEnded`.
- Entries: a key present with the value `None` is treated as absent. Feed entries hold
  strings there. With a `None` value, the source behaves differently from the model:
  - For a title, link or published value, it would format the text `None`.
  - For a summary, it would raise.
  - For `published` or `updated` in the filter, its date parser raises and the entry is
    dropped (main.py:77, 81 and 88-90). `DateFilter.DateSourceOf` instead moves on to the
    next date source and may keep the entry.
- FileNames.JoinPath follows POSIX path joining. On Windows the source joins with `\`, so the
  single `/` of `FileNames.OutputPathStaysInDirectory` holds on POSIX systems only.
- Multi-feed selection, source tagging, merging, re-sorting and feed-menu sort modes are not
  modelled. They are not part of `main.py`.
