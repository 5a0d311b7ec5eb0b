/** The "create blog" form (`app/dashboard/blogs/new/page.tsx`): the payload
    `handleSubmit` posts, with the tags split on commas and a slug made from
    the title when no URL title was typed. */
module NewBlog {
  import opened Text
  import opened Lists

  /** `tags.split(",").map(tag => tag.trim())`: the comma-separated pieces,
      each trimmed. */
  function SplitTags(tags: string): (r: seq<string>)
    ensures |r| == Count(tags, ',') + 1
    ensures forall i :: 0 <= i < |r| ==> r[i] == Trim(Split(tags, ',')[i])
  {
    MapSeq(Split(tags, ','), Trim)
  }

  /** No tag holds a comma. */
  lemma TagsHaveNoComma(tags: string, i: int)
    requires 0 <= i < |SplitTags(tags)|
    ensures ',' !in SplitTags(tags)[i]
  {
    var piece := Split(tags, ',')[i];
    assert SplitTags(tags)[i] == Trim(piece);
    TrimIsInfix(piece);
  }

  /** No tag starts or ends with white space. */
  lemma TagsAreTrimmed(tags: string, i: int)
    requires 0 <= i < |SplitTags(tags)|
    ensures var t := SplitTags(tags)[i];
      t == [] || (!IsWhitespace(t[0]) && !IsWhitespace(t[|t| - 1]))
  {
    var piece := Split(tags, ',')[i];
    assert SplitTags(tags)[i] == Trim(piece);
  }

  /** An empty tags input gives one empty tag, not an empty list. */
  lemma EmptyTagsGiveOneEmptyTag()
    ensures SplitTags("") == [""]
  {
    assert Split("", ',') == [""];
  }

  /** `.replace(/\s+/g, "-")`: every run of white space becomes one `-`. */
  function Slugify(s: string): (r: string)
    ensures HasNoWhitespace(r)
    ensures |r| <= |s|
    decreases |s|
  {
    if s == [] then []
    else if IsWhitespace(s[0]) then ['-'] + Slugify(TrimStart(s[1..]))
    else [s[0]] + Slugify(s[1..])
  }

  /** Text without white space is left alone. */
  lemma {:induction false} SlugOfWord(s: string)
    requires HasNoWhitespace(s)
    ensures Slugify(s) == s
    decreases |s|
  {
    if s != [] {
      SlugOfWord(s[1..]);
      assert s == [s[0]] + s[1..];
    }
  }

  /** A whole run of white space between a word and the rest becomes a single
      `-`. */
  lemma {:induction false} SlugOfRun(word: string, run: string, rest: string)
    requires HasNoWhitespace(word)
    requires run != [] && AllWhitespace(run)
    requires rest == [] || !IsWhitespace(rest[0])
    ensures Slugify(word + run + rest) == word + "-" + Slugify(rest)
    decreases |word|
  {
    if word == [] {
      assert word + run + rest == run + rest;
      SlugOfLeadingRun(run, rest);
    } else {
      var s := word + run + rest;
      assert s[0] == word[0];
      assert s[1..] == word[1..] + run + rest;
      SlugOfRun(word[1..], run, rest);
      assert word == [word[0]] + word[1..];
    }
  }

  lemma SlugOfLeadingRun(run: string, rest: string)
    requires run != [] && AllWhitespace(run)
    requires rest == [] || !IsWhitespace(rest[0])
    ensures Slugify(run + rest) == "-" + Slugify(rest)
  {
    var s := run + rest;
    assert s[0] == run[0];
    assert s[1..] == run[1..] + rest;
    assert AllWhitespace(run[1..]) by {
      AllWhitespaceCons(run);
    }
    TrimStartPadded(run[1..], rest);
    assert TrimStart(rest) == rest;
  }

  /** `urlTitle || title.toLowerCase().replace(/\s+/g, "-")`. */
  function UrlTitle(urlTitle: string, title: string): (r: string)
    ensures urlTitle != "" ==> r == urlTitle
    ensures urlTitle == "" ==> HasNoWhitespace(r) && |r| <= |title|
  {
    if urlTitle != "" then urlTitle else Slugify(Lower(title))
  }

  /** The fallback of a one-word title is that word lower-cased. */
  lemma OneWordSlug(title: string)
    requires HasNoWhitespace(title)
    ensures UrlTitle("", title) == Lower(title)
  {
    LowerNoWhitespace(title);
    SlugOfWord(Lower(title));
  }

  /** What `handleSubmit` posts. */
  datatype BlogPayload = BlogPayload(
    title: string,
    content: string,
    tags: seq<string>,
    coverImage: string,
    urlTitle: string)

  function NewBlogPayload(title: string, urlTitle: string, content: string, tags: string, coverImage: string): (p: BlogPayload)
    ensures p.title == title && p.content == content && p.coverImage == coverImage
    ensures p.tags == SplitTags(tags)
    ensures p.urlTitle == UrlTitle(urlTitle, title)
  {
    BlogPayload(title, content, SplitTags(tags), coverImage, UrlTitle(urlTitle, title))
  }
}
