/** The note generator (`generate_program_notes`): the article block built from the first
    twenty entries, the prompt around it, and the one request sent to the text-generation
    service.  The service is an oracle: a total function from the request to the text it
    answers with, or `None` when the call raises. */
module ProgramNotes {
  import opened Wrappers
  import opened Entries
  import opened Decimal
  import opened Markup

  const NoEntriesMessage: string := "No entries found for the selected time period."
  const FailureMessage: string := "Failed to generate program notes. Please try again."

  /** At most this many entries are shown to the service. */
  const MaxArticles: nat := 20
  /** At most this many characters of each summary are shown. */
  const MaxSummaryChars: nat := 500

  const ArticlesHeader: string := "Here are recent articles from an RSS feed:\n\n"

  const Model: string := "claude-3-7-sonnet-latest"
  const MaxTokens: nat := 4000
  const Temperature: real := 0.7
  const SystemInstruction: string :=
    "You are an expert podcast producer who creates concise, informative program notes."

  /** The one request the generator sends: fixed model, bound, temperature and system
      instruction, and a single user message carrying the prompt. */
  datatype Request = Request(
    model: string, maxTokens: nat, temperature: real, system: string, prompt: string)

  // ---------------------------------------------------------------------------
  // One article

  function TitleOf(e: Entry): string {
    e.title.GetOr("No title")
  }

  function LinkOf(e: Entry): string {
    e.link.GetOr("No link")
  }

  /** The value of the first content item that has one. */
  function FirstValue(items: seq<ContentItem>): Option<string>
    decreases |items|
  {
    if items == [] then None
    else if items[0].value.Some? then items[0].value
    else FirstValue(items[1..])
  }

  /** The summary before cleaning: `summary` when present, else the first content value,
      else empty. */
  function RawSummary(e: Entry): string {
    if e.summary.Some? then e.summary.value
    else if ContentGiven(e.content) then FirstValue(e.content.value).GetOr("")
    else ""
  }

  /** The summary as shown: tags stripped, then cut to its first 500 characters. */
  function SummaryExcerpt(e: Entry): string {
    var clean := StripTags(RawSummary(e));
    clean[..Min(|clean|, MaxSummaryChars)]
  }

  /** The date shown beside an article: the raw `published` text, else `updated`. */
  function PublishedOf(e: Entry): string {
    if e.published.Some? then e.published.value
    else if e.updated.Some? then e.updated.value
    else ""
  }

  function ArticleHeading(number: nat): string {
    "Article " + NatToDecimal(number) + ":\n"
  }

  /** The summary line: the excerpt, always followed by `...`, and a blank line. */
  function SummaryLine(e: Entry): string {
    "Summary: " + SummaryExcerpt(e) + "...\n\n"
  }

  /** The five lines that describe article number `number`. */
  function ArticleBlock(number: nat, e: Entry): string {
    ArticleHeading(number)
    + ("Title: " + TitleOf(e) + "\n")
    + ("Link: " + LinkOf(e) + "\n")
    + ("Published: " + PublishedOf(e) + "\n")
    + SummaryLine(e)
  }

  // ---------------------------------------------------------------------------
  // The article block and the prompt

  /** The articles that are shown: the first twenty, numbered from 1. */
  function ArticleBlocks(entries: seq<Entry>): seq<string> {
    seq(Min(|entries|, MaxArticles), i requires 0 <= i < Min(|entries|, MaxArticles) => ArticleBlock(i + 1, entries[i]))
  }

  function Concat(parts: seq<string>): string
    decreases |parts|
  {
    if parts == [] then "" else Concat(parts[..|parts| - 1]) + parts[|parts| - 1]
  }

  lemma ConcatExtend(parts: seq<string>, i: nat)
    requires i < |parts|
    ensures Concat(parts[..i + 1]) == Concat(parts[..i]) + parts[i]
  {
    assert parts[..i + 1][..i] == parts[..i];
  }

  /** Regrouping a concatenation; stated once so the loop below does not search for it. */
  lemma AppendAssociative(a: string, b: string, c: string)
    ensures (a + b) + c == a + (b + c)
  {
  }

  function ArticlesContent(entries: seq<Entry>): string {
    ArticlesHeader + Concat(ArticleBlocks(entries))
  }

  /** The prompt: the fixed instructions with the topic count, the depth level and the
      article block embedded in them. */
  function Prompt(content: string, numTopics: int, techLevel: int): string {
    PromptOpening + IntToDecimal(numTopics) + PromptBeforeLevel + IntToDecimal(techLevel)
    + PromptBeforeArticles + content + PromptClosing
  }

  const PromptOpening: string :=
    "\nBased on the articles provided, create program notes for a weekly podcast episode.\n"
    + "The notes should cover "
  const PromptBeforeLevel: string :=
    " main topics from these articles.\n\nTechnical depth level: "
  const PromptBeforeArticles: string :=
    "/5 (where 0 is non-technical and 5 is highly technical)\n\n"
    + "For each topic:\n"
    + "1. Create a catchy title\n"
    + "2. Write a brief summary (2-3 sentences)\n"
    + "3. Include key points for discussion (3-5 bullet points)\n"
    + "4. Mention relevant articles from the list\n\n"
    + "Here are the articles:\n"
  const PromptClosing: string :=
    "\n\nFormat the response as:\n"
    + "# Weekly Podcast Program Notes\n\n"
    + "## Topic 1: [Catchy Title]\n"
    + "[Brief summary]\n\n"
    + "Key points:\n"
    + "- [Point 1]\n"
    + "- [Point 2]\n"
    + "- [Point 3]\n\n"
    + "Related articles: [Article url]\n\n"
    + "## Topic 2: [Catchy Title]\n"
    + "...and so on\n"

  function RequestFor(entries: seq<Entry>, numTopics: int, techLevel: int): Request {
    Request(Model, MaxTokens, Temperature, SystemInstruction,
            Prompt(ArticlesContent(entries), numTopics, techLevel))
  }

  /** What the generator returns once the request has been sent. */
  function AnswerText(answer: Option<string>): string {
    answer.GetOr(FailureMessage)
  }

  // ---------------------------------------------------------------------------
  // The imperative generator

  /** The summary lookup, with its scan of the content list that stops at the first item
      carrying a value. */
  method ResolveSummary(e: Entry) returns (summary: string)
    ensures summary == RawSummary(e)
  {
    summary := "";
    if e.summary.Some? {
      summary := e.summary.value;
    } else if ContentGiven(e.content) {
      var items := e.content.value;
      var i := 0;
      while i < |items|
        invariant 0 <= i <= |items|
        invariant FirstValue(items) == FirstValue(items[i..])
        invariant summary == ""
      {
        if items[i].value.Some? {
          summary := items[i].value.value;
          break;
        }
        assert items[i..][1..] == items[i + 1..];
        i := i + 1;
      }
    }
  }

  /** The body of the loop over the shown entries: the five lines of one article. */
  method FormatArticle(number: nat, entry: Entry) returns (block: string)
    ensures block == ArticleBlock(number, entry)
  {
    var title := if entry.title.Some? then entry.title.value else "No title";
    var link := if entry.link.Some? then entry.link.value else "No link";
    var summary := ResolveSummary(entry);
    summary := StripTags(summary);
    var published := "";
    if entry.published.Some? {
      published := entry.published.value;
    } else if entry.updated.Some? {
      published := entry.updated.value;
    }
    block := "Article " + NatToDecimal(number) + ":\n";
    block := block + ("Title: " + title + "\n");
    block := block + ("Link: " + link + "\n");
    block := block + ("Published: " + published + "\n");
    block := block + ("Summary: " + summary[..Min(|summary|, MaxSummaryChars)] + "...\n\n");
  }

  /** The loop that grows the article block one article at a time, over the first twenty
      entries. */
  method BuildArticlesContent(entries: seq<Entry>) returns (content: string)
    ensures content == ArticlesContent(entries)
  {
    content := ArticlesHeader;
    var shown := Min(|entries|, MaxArticles);
    ghost var blocks := ArticleBlocks(entries);
    for i := 0 to shown
      invariant content == ArticlesHeader + Concat(blocks[..i])
    {
      var block := FormatArticle(i + 1, entries[i]);
      ConcatExtend(blocks, i);
      AppendAssociative(ArticlesHeader, Concat(blocks[..i]), block);
      content := content + block;
    }
    assert blocks[..shown] == blocks;
  }

  /** `generate_program_notes`.  `request` is what was sent to the service; `None` means
      no call was made. */
  method GenerateProgramNotes(entries: seq<Entry>, numTopics: int, techLevel: int,
                              service: Request -> Option<string>)
    returns (notes: string, request: Option<Request>)
    ensures entries == [] <==> request.None?
    ensures entries == [] ==> notes == NoEntriesMessage
    ensures entries != [] ==> request == Some(RequestFor(entries, numTopics, techLevel))
    ensures request.Some? ==> notes == AnswerText(service(request.value))
    ensures notes == NoEntriesMessage || notes == FailureMessage
         || (request.Some? && service(request.value) == Some(notes))
  {
    if entries == [] {
      return NoEntriesMessage, None;
    }
    var content := BuildArticlesContent(entries);
    var prompt := PromptOpening + IntToDecimal(numTopics) + PromptBeforeLevel + IntToDecimal(techLevel)
      + PromptBeforeArticles + content + PromptClosing;
    var sent := Request(Model, MaxTokens, Temperature, SystemInstruction, prompt);
    request := Some(sent);
    var answer := service(sent);
    if answer.Some? {
      notes := answer.value;
    } else {
      notes := FailureMessage;
    }
  }

  // ---------------------------------------------------------------------------
  // Properties of the specification

  /** `t` occurs in `s` starting at index `k`. */
  predicate OccursAt(s: string, t: string, k: nat) {
    k + |t| <= |s| && s[k..k + |t|] == t
  }

  /** `t` occurs in `s` as a contiguous piece. */
  ghost predicate Contains(s: string, t: string) {
    exists k: nat :: OccursAt(s, t, k)
  }

  lemma OccursAtEnd(x: string, y: string)
    ensures OccursAt(x + y, y, |x|)
  {
    assert (x + y)[|x|..] == y;
  }

  lemma OccursExtend(x: string, t: string, k: nat, y: string)
    requires OccursAt(x, t, k)
    ensures OccursAt(x + y, t, k) && OccursAt(y + x, t, |y| + k)
  {
    assert (x + y)[k..k + |t|] == x[k..k + |t|];
    assert (y + x)[|y| + k..|y| + k + |t|] == x[k..k + |t|];
  }

  /** The summary lookup takes the first content item that carries a value, and finds none
      only when no item carries one. */
  lemma {:induction false} FirstValueIsFirst(items: seq<ContentItem>)
    ensures FirstValue(items).None? <==> forall k :: 0 <= k < |items| ==> items[k].value.None?
    ensures FirstValue(items).Some? ==>
      exists k :: 0 <= k < |items| && items[k].value == FirstValue(items)
        && forall j :: 0 <= j < k ==> items[j].value.None?
    decreases |items|
  {
    if items != [] && items[0].value.None? {
      FirstValueIsFirst(items[1..]);
      assert forall k :: 1 <= k < |items| ==> items[k] == items[1..][k - 1];
      if FirstValue(items).Some? {
        var k :| 0 <= k < |items[1..]| && items[1..][k].value == FirstValue(items[1..])
          && forall j :: 0 <= j < k ==> items[1..][j].value.None?;
        assert items[k + 1].value == FirstValue(items);
        assert forall j :: 0 <= j < k + 1 ==> items[j].value.None? by {
          forall j | 0 <= j < k + 1 ensures items[j].value.None? {
            if j > 0 { assert items[j] == items[1..][j - 1]; }
          }
        }
      }
    }
  }

  /** The shown excerpt is the start of the tag-stripped summary, 500 characters long or
      the whole of it when shorter. */
  lemma SummaryExcerptIsPrefix(e: Entry)
    ensures var clean := StripTags(RawSummary(e));
      && |SummaryExcerpt(e)| == Min(|clean|, MaxSummaryChars)
      && SummaryExcerpt(e) == clean[..|SummaryExcerpt(e)|]
      && |SummaryExcerpt(e)| <= MaxSummaryChars
  {
  }

  /** A tag-free summary of 500 characters or more, whether from `summary` or from the
      content list, is shown as exactly its first 500 characters, followed by `...`. */
  lemma LongSummaryIsCut(e: Entry)
    requires |RawSummary(e)| >= MaxSummaryChars && TagFree(RawSummary(e))
    ensures SummaryExcerpt(e) == RawSummary(e)[..MaxSummaryChars]
    ensures SummaryLine(e) == "Summary: " + RawSummary(e)[..MaxSummaryChars] + "...\n\n"
  {
    TagFreeUnchanged(RawSummary(e));
  }

  /** Every block ends with its summary line and the `...` marker. */
  lemma ArticleBlockEndsWithSummary(number: nat, e: Entry)
    ensures var b := ArticleBlock(number, e);
      |b| >= |SummaryLine(e)| && b[|b| - |SummaryLine(e)|..] == SummaryLine(e)
  {
  }

  /** Article number `number` starts with its heading `Article <number>:`. */
  lemma ArticleBlockStartsWithHeading(number: nat, e: Entry)
    ensures var b := ArticleBlock(number, e);
      |b| >= |ArticleHeading(number)| && b[..|ArticleHeading(number)|] == ArticleHeading(number)
  {
    var h := ArticleHeading(number);
    var t := "Title: " + TitleOf(e) + "\n";
    var l := "Link: " + LinkOf(e) + "\n";
    var p := "Published: " + PublishedOf(e) + "\n";
    assert ArticleBlock(number, e) == h + (t + l + p + SummaryLine(e));
  }

  /** Different numbers give different headings. */
  lemma HeadingsDistinct(m: nat, n: nat)
    requires m != n
    ensures ArticleHeading(m) != ArticleHeading(n)
  {
    if ArticleHeading(m) == ArticleHeading(n) {
      var hm := ArticleHeading(m);
      var dm := NatToDecimal(m);
      var dn := NatToDecimal(n);
      assert |dm| == |dn|;
      assert dm == hm[8..8 + |dm|];
      assert dn == hm[8..8 + |dn|];
      DecimalInjective(m, n);
    }
  }

  /** Entries after the twentieth never reach the prompt: two inputs that agree on their
      first twenty entries produce the same article block. */
  lemma OnlyFirstTwentyShown(a: seq<Entry>, b: seq<Entry>)
    requires a[..Min(|a|, MaxArticles)] == b[..Min(|b|, MaxArticles)]
    ensures ArticlesContent(a) == ArticlesContent(b)
  {
    var ka := Min(|a|, MaxArticles);
    assert |ArticleBlocks(a)| == ka;
    forall i | 0 <= i < ka ensures ArticleBlocks(a)[i] == ArticleBlocks(b)[i] {
      assert a[i] == a[..ka][i];
      assert b[i] == b[..Min(|b|, MaxArticles)][i];
    }
    assert ArticleBlocks(a) == ArticleBlocks(b);
  }

  /** Each piece of a concatenation occurs in it. */
  lemma {:induction false} ConcatContains(parts: seq<string>, i: nat) returns (k: nat)
    requires i < |parts|
    ensures OccursAt(Concat(parts), parts[i], k)
    decreases |parts|
  {
    var init := parts[..|parts| - 1];
    var last := parts[|parts| - 1];
    if i == |parts| - 1 {
      OccursAtEnd(Concat(init), last);
      k := |Concat(init)|;
    } else {
      k := ConcatContains(init, i);
      OccursExtend(Concat(init), parts[i], k, last);
    }
  }

  /** The prompt carries the topic count, the depth level and the whole article block. */
  lemma PromptEmbeds(content: string, numTopics: int, techLevel: int)
    ensures Contains(Prompt(content, numTopics, techLevel), IntToDecimal(numTopics))
    ensures Contains(Prompt(content, numTopics, techLevel), IntToDecimal(techLevel))
    ensures Contains(Prompt(content, numTopics, techLevel), content)
  {
    var _ := PromptHoldsContent(content, numTopics, techLevel);
    var nt := IntToDecimal(numTopics);
    var tl := IntToDecimal(techLevel);
    var x1 := PromptOpening + nt;
    OccursAtEnd(PromptOpening, nt);
    var x2 := x1 + PromptBeforeLevel;
    OccursExtend(x1, nt, |PromptOpening|, PromptBeforeLevel);
    var x3 := x2 + tl;
    OccursExtend(x2, nt, |PromptOpening|, tl);
    OccursAtEnd(x2, tl);
    var x4 := x3 + PromptBeforeArticles;
    OccursExtend(x3, nt, |PromptOpening|, PromptBeforeArticles);
    OccursExtend(x3, tl, |x2|, PromptBeforeArticles);
    var x5 := x4 + content;
    OccursExtend(x4, nt, |PromptOpening|, content);
    OccursExtend(x4, tl, |x2|, content);
    OccursExtend(x5, nt, |PromptOpening|, PromptClosing);
    OccursExtend(x5, tl, |x2|, PromptClosing);
  }

  /** Where the article block sits in the prompt. */
  lemma PromptHoldsContent(content: string, numTopics: int, techLevel: int) returns (k: nat)
    ensures OccursAt(Prompt(content, numTopics, techLevel), content, k)
  {
    var x4 := PromptOpening + IntToDecimal(numTopics) + PromptBeforeLevel + IntToDecimal(techLevel)
      + PromptBeforeArticles;
    OccursAtEnd(x4, content);
    OccursExtend(x4 + content, content, |x4|, PromptClosing);
    k := |x4|;
  }

  /** For a non-empty input of n entries, the request's prompt holds the heading
      `Article k` of every k from 1 to min(n, 20). */
  lemma PromptListsArticles(entries: seq<Entry>, numTopics: int, techLevel: int, k: nat)
    requires 1 <= k <= Min(|entries|, MaxArticles)
    ensures Contains(RequestFor(entries, numTopics, techLevel).prompt, ArticleHeading(k))
  {
    var blocks := ArticleBlocks(entries);
    var block := blocks[k - 1];
    var h := ArticleHeading(k);
    ArticleBlockStartsWithHeading(k, entries[k - 1]);
    assert OccursAt(block, h, 0);
    var i := ConcatContains(blocks, k - 1);
    OccursWithin(Concat(blocks), block, i, h, 0);
    OccursExtend(Concat(blocks), h, i, ArticlesHeader);
    var content := ArticlesContent(entries);
    var m := PromptHoldsContent(content, numTopics, techLevel);
    OccursWithin(Prompt(content, numTopics, techLevel), content, m, h, |ArticlesHeader| + i);
  }

  /** An occurrence inside an occurrence. */
  lemma OccursWithin(s: string, t: string, k: nat, u: string, j: nat)
    requires OccursAt(s, t, k) && OccursAt(t, u, j)
    ensures OccursAt(s, u, k + j)
  {
    forall x | 0 <= x < |u| ensures s[k + j + x] == u[x] {
      assert u[x] == t[j + x] == s[k + j + x];
    }
    assert s[k + j..k + j + |u|] == u;
  }
}
