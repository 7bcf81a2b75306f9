/** Removal of markup tags from a summary: every match of the pattern `<[^>]+>` is
    replaced by nothing.

    A match of `<[^>]+>` starting at a `<` exists exactly when the first `>` after that
    `<` is not the very next character; the match then runs up to and including that `>`
    (the class `[^>]` admits `<` and line breaks).  The substitution scans from the left,
    deletes each match and resumes after it, and keeps any character at which no match
    starts. */
module Markup {
  import opened Wrappers

  /** The index of the first `>` in `s` at or after `from`. */
  function FindClose(s: string, from: nat): (r: Option<nat>)
    requires from <= |s|
    ensures r.Some? ==> from <= r.value < |s| && s[r.value] == '>'
    ensures forall k :: from <= k < |s| && (r.None? || k < r.value) ==> s[k] != '>'
    decreases |s| - from
  {
    if from == |s| then None
    else if s[from] == '>' then Some(from)
    else FindClose(s, from + 1)
  }

  /** The length of the tag that starts at the front of `s`, if one does. */
  function TagAt(s: string): Option<nat> {
    if |s| >= 2 && s[0] == '<' then
      match FindClose(s, 1)
      case Some(j) => if j >= 2 then Some(j + 1) else None
      case None => None
    else None
  }

  function StripTags(s: string): string
    decreases |s|
  {
    if s == [] then []
    else match TagAt(s)
      case Some(n) => (assert 2 < n <= |s|; StripTags(s[n..]))
      case None => [s[0]] + StripTags(s[1..])
  }

  /** No tag starts anywhere in `s`. */
  predicate TagFree(s: string)
    decreases |s|
  {
    s == [] || (TagAt(s).None? && TagFree(s[1..]))
  }

  // ---------------------------------------------------------------------------

  /** Stripping only deletes characters. */
  lemma {:induction false} StripTagsDeletesOnly(s: string)
    ensures |StripTags(s)| <= |s|
    ensures multiset(StripTags(s)) <= multiset(s)
    decreases |s|
  {
    if s != [] {
      match TagAt(s)
      case Some(n) =>
        StripTagsDeletesOnly(s[n..]);
        assert s == s[..n] + s[n..];
      case None =>
        StripTagsDeletesOnly(s[1..]);
        assert s == [s[0]] + s[1..];
    }
  }

  /** Stripping leaves no tag behind. */
  lemma {:induction false} StripTagsIsTagFree(s: string)
    ensures TagFree(StripTags(s))
    decreases |s|
  {
    if s != [] {
      match TagAt(s)
      case Some(n) =>
        StripTagsIsTagFree(s[n..]);
      case None =>
        var rest := StripTags(s[1..]);
        var r := [s[0]] + rest;
        StripTagsIsTagFree(s[1..]);
        assert r[1..] == rest;
        if s[0] == '<' && |r| >= 2 {
          if |s| >= 2 && s[1] == '>' {
            // the `>` right after the kept `<` is kept too
            assert s[1..][0] == '>';
            assert TagAt(s[1..]).None?;
            assert r[1] == '>';
          } else {
            // no `>` follows the kept `<`, so none follows it after stripping either
            assert |s| >= 2;
            assert FindClose(s, 1).None?;
            StripTagsDeletesOnly(s[1..]);
            assert '>' !in s[1..];
            assert '>' !in multiset(s[1..]);
            assert '>' !in multiset(rest);
            assert '>' !in r[1..];
          }
        }
    }
  }

  /** Text without tags is left as it is. */
  lemma {:induction false} TagFreeUnchanged(s: string)
    requires TagFree(s)
    ensures StripTags(s) == s
    decreases |s|
  {
    if s != [] {
      TagFreeUnchanged(s[1..]);
    }
  }

  /** Stripping twice is stripping once. */
  lemma StripTagsIdempotent(s: string)
    ensures StripTags(StripTags(s)) == StripTags(s)
  {
    StripTagsIsTagFree(s);
    TagFreeUnchanged(StripTags(s));
  }

  /** Text with no `<` is unchanged by stripping. */
  lemma {:induction false} NoOpeningBracketUnchanged(s: string)
    requires '<' !in s
    ensures StripTags(s) == s
    decreases |s|
  {
    if s != [] {
      assert s[0] != '<';
      NoOpeningBracketUnchanged(s[1..]);
    }
  }

  /** A prefix without `<` passes through, and stripping continues on the rest. */
  lemma {:induction false} StripPrefix(p: string, rest: string)
    requires '<' !in p
    ensures StripTags(p + rest) == p + StripTags(rest)
    decreases |p|
  {
    if p != [] {
      var s := p + rest;
      assert s[0] == p[0] && p[0] != '<';
      assert TagAt(s).None?;
      assert s[1..] == p[1..] + rest;
      assert StripTags(s) == [p[0]] + StripTags(p[1..] + rest);
      StripPrefix(p[1..], rest);
      assert p == [p[0]] + p[1..];
      assert [p[0]] + (p[1..] + StripTags(rest)) == p + StripTags(rest);
    } else {
      assert p + rest == rest;
    }
  }

  /** A leading tag is deleted, and stripping continues after it. */
  lemma StripLeadingTag(tag: string, rest: string)
    requires |tag| >= 3 && tag[0] == '<' && tag[|tag| - 1] == '>'
    requires forall k :: 0 < k < |tag| - 1 ==> tag[k] != '>'
    ensures StripTags(tag + rest) == StripTags(rest)
  {
    var s := tag + rest;
    var j := |tag| - 1;
    assert s[j] == '>' && s[0] == '<';
    assert forall k :: 1 <= k < j ==> s[k] == tag[k];
    assert FindClose(s, 1) == Some(j);
    assert s[j + 1..] == rest;
  }

  /** `<p>Hello <b>world</b></p>` strips to `Hello world`. */
  lemma StripExample(whole: string)
    requires whole == "<p>" + ("Hello " + ("<b>" + ("world" + ("</b>" + "</p>"))))
    ensures StripTags(whole) == "Hello world"
  {
    StripLeadingTag("</p>", "");
    StripLeadingTag("</b>", "</p>");
    StripPrefix("world", "</b>" + "</p>");
    StripLeadingTag("<b>", "world" + ("</b>" + "</p>"));
    StripPrefix("Hello ", "<b>" + ("world" + ("</b>" + "</p>")));
    StripLeadingTag("<p>", "Hello " + ("<b>" + ("world" + ("</b>" + "</p>"))));
    assert "Hello " + ("world" + []) == "Hello world";
  }
}
