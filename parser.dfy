/**
 * `PikabuParser`: the crawl controller as the object the crawler runs, whose methods
 * advance the cursor and update the counters in place. Each method is proved to do
 * what the functions of module Crawler say.
 */
module Parser {
  import opened Story
  import opened Crawler
  import Calendar

  class PikabuParser {
    /** `from_date`, `until_date` as day ordinals, and `required_records_number`. */
    const fromDate: int
    const untilDate: int
    const requiredRecordsNumber: int

    var currentDate: int
    var pageNum: int
    var currentDataCount: int
    var allStoryCount: int
    var numberOfErrors: int
    /** The rows this run appends to the store, in order; rows of earlier runs are not modelled. */
    var db: seq<StoryRecord>
    /** The cursors at which `parse_page` ran, in order (the "start parse page" log lines). */
    ghost var pagesParsed: seq<Cursor>

    function Settings(): Config
    {
      Config(fromDate, untilDate, requiredRecordsNumber)
    }

    function CurrentProgress(): Progress
      reads this
    {
      Progress(currentDataCount, allStoryCount, numberOfErrors, db)
    }

    ghost function State(): CrawlState
      reads this
    {
      CrawlState(Cursor(pageNum, currentDate), CurrentProgress(), pagesParsed)
    }

    ghost predicate Valid()
      reads this
    {
      && Reachable(Settings(), State())
      && 0 <= currentDataCount <= allStoryCount
      && 0 <= numberOfErrors
      && |db| == currentDataCount
    }

    /** `__init__`: dates are stored as their ordinals; the cursor starts at page 1, `from_date`. */
    constructor (fromDate: Calendar.Date, untilDate: Calendar.Date, requiredRecordsNumber: int)
      requires Calendar.IsValidDate(fromDate) && Calendar.IsValidDate(untilDate)
      ensures Valid()
      ensures Settings() == Config(Calendar.Ordinal(fromDate), Calendar.Ordinal(untilDate), requiredRecordsNumber)
      ensures State() == Initial(Settings())
    {
      this.fromDate := Calendar.Ordinal(fromDate);
      this.untilDate := Calendar.Ordinal(untilDate);
      this.requiredRecordsNumber := requiredRecordsNumber;
      currentDate := Calendar.Ordinal(fromDate);
      pageNum := 1;
      currentDataCount := 0;
      allStoryCount := 0;
      numberOfErrors := 0;
      db := [];
      pagesParsed := [];
    }

    /** `get_search_page_url`: the day parameter and page number of the current cursor. */
    function GetSearchPageQuery(): (q: SearchQuery)
      reads this
      ensures q.page == pageNum
      ensures q.day - Calendar.REFERENCE_DAY_PARAM == currentDate - Calendar.Ordinal(Calendar.REFERENCE_DATE)
    {
      QueryFor(Cursor(pageNum, currentDate))
    }

    /**
     * `parse_pages`: walk pages 1..100 and, within each page, the dates from `from_date` to
     * `until_date`; stop as soon as a parsed page brings the accepted count to the target.
     */
    method ParsePages(web: Web)
      requires Valid()
      modifies this
      ensures Valid()
      ensures State() == Run(Settings(), web, old(State()))
    {
      ghost var start := State();
      while pageNum <= MAX_PAGE
        invariant Valid()
        invariant Run(Settings(), web, State()) == Run(Settings(), web, start)
        decreases MAX_PAGE + 1 - pageNum
      {
        ghost var page := pageNum;
        while currentDate <= untilDate
          invariant Valid() && pageNum == page <= MAX_PAGE
          invariant Run(Settings(), web, State()) == Run(Settings(), web, start)
          decreases untilDate + 1 - currentDate
        {
          ghost var before := State();
          RunVisitStep(Settings(), web, before);
          ParsePage(web);
          if currentDataCount >= requiredRecordsNumber {
            assert State() == Run(Settings(), web, start);
            break;
          }
          currentDate := currentDate + 1;
          assert State() == VisitPage(Settings(), web, before).(cursor := Cursor(page, before.cursor.date + 1));
        }
        if currentDate > untilDate {
          RunPageStep(Settings(), web, State());
        }
        if currentDataCount >= requiredRecordsNumber {
          break;
        }
        pageNum := pageNum + 1;
        currentDate := fromDate;
      }
      RunExit(Settings(), web, start);
      RunGrows(Settings(), web, start);
    }

    /** `parse_page`: log the cursor and process the page its query returns. */
    method ParsePage(web: Web)
      requires Valid() && pageNum <= MAX_PAGE
      modifies this
      ensures Valid()
      ensures State() == VisitPage(Settings(), web, old(State()))
      ensures Grows(old(CurrentProgress()), CurrentProgress())
    {
      ProcessResponseGrows(web.replaceLinks, web.fetch(GetSearchPageQuery()), requiredRecordsNumber, CurrentProgress());
      pagesParsed := pagesParsed + [Cursor(pageNum, currentDate)];
      WritePageData(web, GetSearchPageQuery());
    }

    /**
     * `write_page_data`: fetch the page (a failed request leaves everything as it was),
     * then for each story skip ads, count extraction errors, count the rest, store those
     * with at least 2000 characters of text, and stop once the target is reached.
     */
    method WritePageData(web: Web, query: SearchQuery)
      requires Valid() && pageNum <= MAX_PAGE
      modifies this
      ensures Valid()
      ensures CurrentProgress() == ProcessResponse(web.replaceLinks, web.fetch(query), requiredRecordsNumber, old(CurrentProgress()))
      ensures pageNum == old(pageNum) && currentDate == old(currentDate) && pagesParsed == old(pagesParsed)
    {
      var response := web.fetch(query);
      if response.None? {
        return;
      }
      var stories := response.value;
      ghost var goal := ProcessStories(web.replaceLinks, stories, requiredRecordsNumber, CurrentProgress());
      for i := 0 to |stories|
        invariant ProcessStories(web.replaceLinks, stories[i..], requiredRecordsNumber, CurrentProgress()) == goal
        invariant pageNum == old(pageNum) && currentDate == old(currentDate) && pagesParsed == old(pagesParsed)
        invariant Valid()
      {
        assert stories[i..][0] == stories[i] && stories[i..][1..] == stories[i + 1..];
        var stop := WriteStory(web.replaceLinks, stories[i]);
        if stop {
          break;
        }
      }
    }

    /**
     * One pass of the story loop of `write_page_data`: an ad is skipped, a story whose
     * fields cannot be extracted counts as an error, any other story is counted and, with
     * at least 2000 characters of text, stored. `stop` tells the loop to end because that
     * store reached the target.
     */
    method WriteStory(replaceLinks: string -> string, storyBlock: StoryNode) returns (stop: bool)
      requires Valid() && pageNum <= MAX_PAGE
      modifies this
      ensures Valid()
      ensures CurrentProgress() == AfterStory(Classify(replaceLinks, storyBlock), old(CurrentProgress()))
      ensures stop <==> Classify(replaceLinks, storyBlock).Kept? && currentDataCount >= requiredRecordsNumber
      ensures pageNum == old(pageNum) && currentDate == old(currentDate) && pagesParsed == old(pagesParsed)
    {
      stop := false;
      if IsAd(storyBlock) {
        return;
      }
      var storyData := GetStoryData(replaceLinks, storyBlock);
      if storyData.Failure? {
        numberOfErrors := numberOfErrors + 1;
        return;
      }
      var record := storyData.value;
      allStoryCount := allStoryCount + 1;
      if record.textLen >= MIN_TEXT_LEN {
        db := db + [record];
        currentDataCount := currentDataCount + 1;
        stop := currentDataCount >= requiredRecordsNumber;
      }
    }
  }
}
