/**
 * One search-result story: the markup node as the crawler sees it, the advertisement
 * test, and the record extracted from it.
 */
module Story {
  import opened Wrappers
  import opened TextFilter

  /** An element reduced to its `.text` (the concatenated text of its descendants). */
  datatype Element = Element(text: string)

  /** The `<time class="caption story__datetime hint">` element, reduced to its `datetime` attribute. */
  datatype TimeElement = TimeElement(datetime: Option<string>)

  /**
   * An `<article class="story">` node: its attributes (`None` when absent) and the first
   * match of each sub-element the crawler looks up.
   */
  datatype StoryNode = StoryNode(
    storyId: Option<string>,          // data-story-id
    authorId: Option<string>,         // data-author-id
    authorName: Option<string>,       // data-author-name
    rating: Option<string>,           // data-rating
    comments: Option<string>,         // data-comments
    timeElement: Option<TimeElement>, // <time class="caption story__datetime hint">
    titleLink: Option<Element>,       // <a class="story__title-link">
    textBlock: Option<Element>,       // <div class="story-block story-block_type_text">
    tagLinks: seq<Element>)           // every <a class="tags__tag">, in document order

  /** One row of the store, fields in the column order the crawler writes them. */
  datatype StoryRecord = StoryRecord(
    storyId: Option<string>,
    authorId: Option<string>,
    textLen: int,
    rating: Option<string>,
    commentsCount: Option<string>,
    tags: seq<string>,
    storyDatetime: Option<string>,
    title: string,
    text: string)

  /** Why extraction raised: `.get` on a missing time element or `.text` on a missing title link. */
  datatype ExtractError = NoTimeElement | NoTitleLink

  /** The author name that marks sponsored stories. */
  const SPONSOR_AUTHOR := "pikabu.deals"

  /** `is_ad`: no author id, the sponsor's author name, no datetime element, or no rating. */
  predicate IsAd(node: StoryNode)
  {
    || node.authorId.None?
    || node.authorName == Some(SPONSOR_AUTHOR)
    || node.timeElement.None?
    || node.rating.None?
  }

  /** `get_tags`: the raw text of every tag link, in order, not normalised. */
  function GetTags(node: StoryNode): (tags: seq<string>)
    ensures |tags| == |node.tagLinks|
    ensures forall i :: 0 <= i < |tags| ==> tags[i] == node.tagLinks[i].text
  {
    seq(|node.tagLinks|, i requires 0 <= i < |node.tagLinks| => node.tagLinks[i].text)
  }

  /** `get_text`: the normalised text block, or the empty string when the node has none. */
  function GetText(replaceLinks: string -> string, node: StoryNode): (text: string)
    ensures NoPunctuation(text) && SingleSpaced(text)
    ensures node.textBlock.None? ==> text == ""
    ensures node.textBlock.Some? ==> text == FilterStr(replaceLinks, node.textBlock.value.text)
  {
    match node.textBlock
    case None => ""
    case Some(block) => FilterStr(replaceLinks, block.text)
  }

  /**
   * `get_story_data`: the record of a story node. Reading the datetime attribute of a
   * missing time element or the text of a missing title link raises; that is the failure.
   */
  function GetStoryData(replaceLinks: string -> string, node: StoryNode): (r: Result<StoryRecord, ExtractError>)
    ensures r.Success? <==> node.timeElement.Some? && node.titleLink.Some?
    ensures r.Failure? ==> (r.error == NoTimeElement <==> node.timeElement.None?)
    ensures r.Success? ==> var rec := r.value;
      && rec.text == GetText(replaceLinks, node)
      && rec.title == FilterStr(replaceLinks, node.titleLink.value.text)
      && rec.textLen == |rec.text|
      && (node.textBlock.None? ==> rec.text == "" && rec.textLen == 0)
      && NoPunctuation(rec.text) && SingleSpaced(rec.text)
      && NoPunctuation(rec.title) && SingleSpaced(rec.title)
      && rec.storyId == node.storyId && rec.authorId == node.authorId
      && rec.rating == node.rating && rec.commentsCount == node.comments
      && rec.storyDatetime == node.timeElement.value.datetime
      && |rec.tags| == |node.tagLinks|
      && (forall i :: 0 <= i < |rec.tags| ==> rec.tags[i] == node.tagLinks[i].text)
  {
    var text := GetText(replaceLinks, node);
    match node.timeElement
    case None => Failure(NoTimeElement)
    case Some(time) =>
      match node.titleLink
      case None => Failure(NoTitleLink)
      case Some(link) =>
        Success(StoryRecord(
          storyId := node.storyId,
          authorId := node.authorId,
          textLen := |text|,
          rating := node.rating,
          commentsCount := node.comments,
          tags := GetTags(node),
          storyDatetime := time.datetime,
          title := FilterStr(replaceLinks, link.text),
          text := text))
  }

  /** Once ads are filtered out, extraction fails exactly when the title link is missing. */
  lemma NonAdFailsOnlyWithoutTitle(replaceLinks: string -> string, node: StoryNode)
    requires !IsAd(node)
    ensures GetStoryData(replaceLinks, node).Failure? <==> node.titleLink.None?
    ensures GetStoryData(replaceLinks, node).Failure? ==> GetStoryData(replaceLinks, node).error == NoTitleLink
  {
  }

  /** Whether a node is an ad depends on the four tested fields and on nothing else. */
  lemma IsAdDependsOnlyOnMarkers(a: StoryNode, b: StoryNode)
    requires a.authorId.None? == b.authorId.None? && a.authorName == b.authorName
    requires a.timeElement.None? == b.timeElement.None? && a.rating.None? == b.rating.None?
    ensures IsAd(a) == IsAd(b)
  {
  }
}
