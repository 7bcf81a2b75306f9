/** The name of the file the notes are saved to (main.py:266-269): the selected feed's name
    with spaces and path separators replaced, an underscore, the run's timestamp, `.md`,
    joined onto the output directory. */
module FileNames {

  /** The characters the name is cleaned of: space, `/` and `\`. */
  predicate IsUnsafe(c: char) {
    c == ' ' || c == '/' || c == '\\'
  }

  /** Every occurrence of the character `from` replaced by `to`. */
  function ReplaceChar(s: string, from: char, to: char): (r: string)
    ensures |r| == |s|
    ensures forall i :: 0 <= i < |s| ==> r[i] == (if s[i] == from then to else s[i])
    decreases |s|
  {
    if s == [] then []
    else [if s[0] == from then to else s[0]] + ReplaceChar(s[1..], from, to)
  }

  /** The feed name with spaces, then `/`, then `\` replaced by underscores. */
  function SafeFeedName(name: string): string {
    ReplaceChar(ReplaceChar(ReplaceChar(name, ' ', '_'), '/', '_'), '\\', '_')
  }

  /** The report file name: the safe feed name, an underscore, the timestamp, `.md`. */
  function OutputFileName(feedName: string, timestamp: string): string {
    SafeFeedName(feedName) + "_" + timestamp + ".md"
  }

  /** POSIX path joining: an absolute `name` replaces `dir`; otherwise a
      `/` is inserted unless `dir` is empty or already ends in one. */
  function JoinPath(dir: string, name: string): string {
    if |name| > 0 && name[0] == '/' then name
    else if dir == [] || dir[|dir| - 1] == '/' then dir + name
    else dir + "/" + name
  }

  /** Where the report is written: the file name joined onto the output directory. */
  function OutputPath(dir: string, feedName: string, timestamp: string): string {
    JoinPath(dir, OutputFileName(feedName, timestamp))
  }

  // ---------------------------------------------------------------------------

  /** Sanitising keeps the length, turns every unsafe character into `_` and leaves every
      other character where it was. */
  lemma SafeFeedNameAt(name: string)
    ensures |SafeFeedName(name)| == |name|
    ensures forall i :: 0 <= i < |name| ==>
      SafeFeedName(name)[i] == (if IsUnsafe(name[i]) then '_' else name[i])
  {
  }

  /** The sanitised name holds no space, `/` or `\`. */
  lemma SafeFeedNameHasNoUnsafe(name: string)
    ensures forall c :: c in SafeFeedName(name) ==> !IsUnsafe(c)
  {
    SafeFeedNameAt(name);
  }

  /** `Bitcoin News/Weekly` becomes `Bitcoin_News_Weekly`. */
  lemma SafeFeedNameExample(name: string)
    requires name == "Bitcoin News/Weekly"
    ensures SafeFeedName(name) == "Bitcoin_News_Weekly"
  {
    SafeFeedNameAt(name);
  }

  /** The file name is the sanitised feed name, `_`, the timestamp and `.md`, in that order,
      and each part can be read back from its place. */
  lemma OutputFileNameShape(feedName: string, timestamp: string)
    ensures var f := OutputFileName(feedName, timestamp);
      && |f| == |feedName| + |timestamp| + 4
      && f[..|feedName|] == SafeFeedName(feedName)
      && f[|feedName|] == '_'
      && f[|feedName| + 1..|f| - 3] == timestamp
      && f[|f| - 3..] == ".md"
  {
    SafeFeedNameAt(feedName);
  }

  /** With a timestamp free of path separators (as `%Y%m%d_%H%M%S` is), the file lands
      directly inside the output directory whatever the feed is called. */
  lemma OutputPathStaysInDirectory(dir: string, feedName: string, timestamp: string)
    requires dir != [] && dir[|dir| - 1] != '/'
    requires '/' !in timestamp && '\\' !in timestamp
    ensures OutputPath(dir, feedName, timestamp) == dir + "/" + OutputFileName(feedName, timestamp)
    ensures '/' !in OutputFileName(feedName, timestamp) && '\\' !in OutputFileName(feedName, timestamp)
  {
    var safe := SafeFeedName(feedName);
    var f := OutputFileName(feedName, timestamp);
    SafeFeedNameHasNoUnsafe(feedName);
    assert f == safe + ("_" + timestamp + ".md");
    assert forall c :: c in f ==> c in safe || c == '_' || c in timestamp || c in ".md";
  }
}
