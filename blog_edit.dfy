/** The "edit blog" form (`app/dashboard/blogs/edit/page.tsx`): the tag list
    loaded from the backend is shown joined by `, `, and the update payload
    splits it again; the URL title is sent as typed. */
module EditBlog {
  import opened Text
  import opened Lists
  import opened NewBlog

  /** `blog.tags.join(', ')`: the text the tags input starts with. */
  function TagsText(tags: seq<string>): (r: string)
    ensures |tags| == 1 ==> r == tags[0]
    ensures tags == [] ==> r == ""
  {
    Join(tags, ", ")
  }

  /** What `handleUpdate` sends: the URL title verbatim, without the slug
      fallback of the create form. */
  function EditBlogPayload(title: string, urlTitle: string, content: string, tags: string, coverImage: string): (p: BlogPayload)
    ensures p.title == title && p.content == content && p.coverImage == coverImage
    ensures p.tags == SplitTags(tags)
    ensures p.urlTitle == urlTitle
  {
    BlogPayload(title, content, SplitTags(tags), coverImage, urlTitle)
  }

  /** The two forms agree except on an empty URL title, where only the
      create form derives a slug. */
  lemma EditDiffersOnlyInUrlTitle(title: string, urlTitle: string, content: string, tags: string, coverImage: string)
    ensures urlTitle != "" ==>
      EditBlogPayload(title, urlTitle, content, tags, coverImage) == NewBlogPayload(title, urlTitle, content, tags, coverImage)
    ensures urlTitle == "" ==>
      EditBlogPayload(title, urlTitle, content, tags, coverImage)
        == NewBlogPayload(title, urlTitle, content, tags, coverImage).(urlTitle := "")
  {
  }

  /** `" " + t` for every tag. */
  function Pad(tags: seq<string>): (r: seq<string>)
    ensures |r| == |tags|
    ensures forall i :: 0 <= i < |r| ==> r[i] == " " + tags[i]
  {
    MapSeq(tags, (t: string) => " " + t)
  }

  lemma JoinPadded(u: seq<string>)
    requires |u| >= 1
    ensures Join(Pad(u), ",") == " " + Join([u[0]] + Pad(u[1..]), ",")
  {
    var v := [u[0]] + Pad(u[1..]);
    if |u| >= 2 {
      assert Pad(u)[1..] == Pad(u[1..]);
      assert v[1..] == Pad(u[1..]);
      assert Join(Pad(u), ",") == (" " + u[0]) + "," + Join(Pad(u[1..]), ",");
      assert Join(v, ",") == u[0] + "," + Join(Pad(u[1..]), ",");
    } else {
      assert v == [u[0]];
    }
  }

  /** Joining with `, ` is joining with `,` after putting a space before
      every tag but the first. */
  lemma {:induction false} JoinCommaSpace(tags: seq<string>)
    requires |tags| >= 1
    ensures Join(tags, ", ") == Join([tags[0]] + Pad(tags[1..]), ",")
    decreases |tags|
  {
    if |tags| >= 2 {
      var rest := tags[1..];
      JoinCommaSpace(rest);
      assert rest[1..] == tags[2..];
      JoinPadded(rest);
      var v := [tags[0]] + Pad(rest);
      assert v[1..] == Pad(rest);
      assert Join(v, ",") == tags[0] + "," + Join(Pad(rest), ",");
    } else {
      assert [tags[0]] + Pad(tags[1..]) == [tags[0]];
    }
  }

  /** Splitting the loaded text on `,` gives the tags, each but the first
      behind the space of the `, `. */
  lemma SplitTagsText(tags: seq<string>)
    requires |tags| >= 1
    requires forall i :: 0 <= i < |tags| ==> ',' !in tags[i]
    ensures Split(TagsText(tags), ',') == [tags[0]] + Pad(tags[1..])
  {
    JoinCommaSpace(tags);
    var pieces := [tags[0]] + Pad(tags[1..]);
    forall k | 0 <= k < |pieces| ensures ',' !in pieces[k] {
      if k > 0 {
        assert pieces[k] == " " + tags[k];
      }
    }
    SplitJoin(pieces, ',');
  }

  /** `t` has no white space at either end. */
  predicate IsTrimmed(t: string) {
    Trim(t) == t
  }

  /** Piece `k` of the split text: the tag, behind a space unless it is the first. */
  lemma PaddedPiece(tags: seq<string>, k: int)
    requires 0 < k < |tags|
    ensures ([tags[0]] + Pad(tags[1..]))[k] == " " + tags[k]
  {
    var padded := Pad(tags[1..]);
    assert ([tags[0]] + padded)[k] == padded[k - 1];
    assert padded[k - 1] == " " + tags[1..][k - 1];
  }

  lemma TrimSpace(t: string)
    ensures Trim(" " + t) == Trim(t)
  {
    assert " " + t == [' '] + t;
    TrimLeadingSpace(' ', t);
  }

  lemma TrimPiece(tags: seq<string>, k: int)
    requires 0 <= k < |tags| && IsTrimmed(tags[k])
    ensures Trim(([tags[0]] + Pad(tags[1..]))[k]) == tags[k]
  {
    if k > 0 {
      PaddedPiece(tags, k);
      TrimSpace(tags[k]);
    }
  }

  /** Trimming the split pieces removes the spaces again. */
  lemma TrimPieces(tags: seq<string>)
    requires |tags| >= 1
    requires forall i :: 0 <= i < |tags| ==> IsTrimmed(tags[i])
    ensures MapSeq([tags[0]] + Pad(tags[1..]), Trim) == tags
  {
    var pieces := [tags[0]] + Pad(tags[1..]);
    var r := MapSeq(pieces, Trim);
    forall k | 0 <= k < |tags| ensures r[k] == tags[k] {
      TrimPiece(tags, k);
    }
  }

  /** The tags a blog was loaded with come back from the update unchanged,
      when there is at least one, none holds a comma and none has white
      space at either end. */
  lemma TagsRoundTrip(tags: seq<string>)
    requires |tags| >= 1
    requires forall i :: 0 <= i < |tags| ==> ',' !in tags[i] && IsTrimmed(tags[i])
    ensures SplitTags(TagsText(tags)) == tags
  {
    SplitTagsText(tags);
    TrimPieces(tags);
  }

  /** A blog without tags comes back with one empty tag. */
  lemma NoTagsComeBackAsOneEmptyTag()
    ensures SplitTags(TagsText([])) == [""]
  {
    EmptyTagsGiveOneEmptyTag();
  }
}
