# Pikabu story crawler, modelled in Dafny

The repository crawls pikabu.ru search results. `PikabuParser` walks a cursor `(page_num, current_date)` over pages 1 to 100, and within each page over every date from `from_date` to `until_date`. For each cursor it fetches one search page. On that page it skips advertisements, extracts a record from every other story, counts it, and appends it to the store when its normalised text has at least 2000 characters. It stops as soon as `required_records_number` stories have been stored. A separate clean-up pass reads the store back, drops rows whose `story_id` was already seen, sorts the rest by `story_datetime` and reports the number of distinct ids.

The model has these modules:

- `Wrappers`: `Option` and `Result`.
- `Calendar`: proleptic Gregorian day ordinals, as `date.toordinal()` computes them. It also holds the search endpoint's day parameter, `get_day_param`.
- `TextFilter`: `filter_str`. It covers punctuation replacement, `str.split()` over Python's whitespace characters, and `" ".join`. The URL substitution is a parameter.
- `Story`: the story node, `is_ad`, `get_text`, `get_tags` and `get_story_data`. A failed extraction is a `Failure` value.
- `Crawler`: the crawl as functions. `ProcessStories` is the story loop of `write_page_data`. `Run` is the nested page/date loops of `parse_pages`. The lemmas here state what the crawl guarantees.
- `Parser`: the class `PikabuParser`. It has the source's fields and imperative methods, and each method is proved equal to the `Crawler` function it implements.
- `UniqIdChecker`: the dedup-then-sort pass. The output is specified as a relation, because pandas' default sort is not stable. Every property is proved for every admissible output.

The day parameter follows the code. The comment at `pikabu_parser.py:69` names 12.05.2022 as the date of 5245, but the code maps 2022-05-11 to 5245. `Calendar.DayParamAtReference` proves the code's values.

The `<some_link>` placeholder that `filter_str` writes does not survive. Its `<`, `_` and `>` are punctuation and become spaces, so a link ends up as the two words `some link`.

## Model

| member | source | states |
|---|---|---|
| Calendar.Ordinal | pikabu_parser.py:70 | the day number of a valid date, as `date.toordinal()` counts it: days in the years before, in the months before, plus the day of the month. The difference of two ordinals is the `.days` of the difference of the dates |
| Calendar.DayParam | pikabu_parser.py:68-70 | `get_day_param`: 5245 plus the number of whole days from 2022-05-11 to the date |
| Calendar.NextDay | pikabu_parser.py:53 | `current_date += timedelta(days = 1)` on a valid date before 9999-12-31 gives a valid date, across month and year ends |
| Calendar.OrdinalNextDay | pikabu_parser.py:53 | the next day's ordinal is the date's ordinal plus one, so the cursor's date can be an ordinal advanced by 1 |
| Calendar.OrdinalOrder | pikabu_parser.py:49 | `current_date <= until_date` on dates is the same comparison on ordinals (strictly before iff smaller, equal iff equal) |
| Calendar.DaysBeforeNextYear | pikabu_parser.py:70 | consecutive years start 365 or 366 days apart, as the leap-year rule says |
| Calendar.DayParamAtReference | pikabu_parser.py:68-70 | the day parameter is 5245 on 2022-05-11, 5246 on 2022-05-12, 3289 on 2017-01-01 and 5262 on 2022-05-28 |
| Calendar.DayParamNextDay | pikabu_parser.py:68-70 | advancing the date by one day raises the day parameter by exactly 1, across month, year and leap-day boundaries |
| Calendar.Before | pikabu_parser.py:49 | Python's `<` on dates, which the loop test `current_date <= until_date` uses: compare the years, then the months, then the days |
| Calendar.DayParamMonotonic | pikabu_parser.py:68-70 | an earlier date has a smaller day parameter, and a smaller parameter means an earlier date |
| TextFilter.IsPunctuation | pikabu_parser.py:139-141 | the character class `[...]` built from `string.punctuation`, written as the four ASCII ranges `!`-`/`, `:`-`@`, `[`-backtick, `{`-`~` |
| TextFilter.IsSpace | pikabu_parser.py:142 | the characters `str.split()` without arguments splits on: the ASCII whitespace, the separators U+001C to U+001F, and the Unicode spaces and line separators |
| TextFilter.PunctuationRanges | pikabu_parser.py:139-141 | `string.punctuation` lists 32 distinct characters in increasing order, all inside the four ASCII ranges, and the ranges span exactly 32 code points; a character is in the ranges iff it is in `string.punctuation` |
| TextFilter.ReplacePunctuation | pikabu_parser.py:140-142 | every punctuation character becomes a space and every other character is kept in place; the result has no punctuation |
| TextFilter.LeadingWordLength | pikabu_parser.py:142 | the length of the leading run of non-whitespace characters, ending at whitespace or at the end |
| TextFilter.Split | pikabu_parser.py:142 | `split()` yields only non-empty words without whitespace |
| TextFilter.SplitNoPunctuation | pikabu_parser.py:142 | `split()` of a punctuation-free text yields punctuation-free words |
| TextFilter.SplitKeepsContent | pikabu_parser.py:142 | `split()` drops only whitespace: its words laid end to end are exactly the non-whitespace characters of the text, in order |
| TextFilter.SplitLayout | pikabu_parser.py:142 | words with whitespace before them, at least one whitespace character between each two, and any whitespace after them split into exactly those words; so the words of `split()` are the maximal non-whitespace runs |
| TextFilter.Join | pikabu_parser.py:142 | `" ".join` of words gives text with no leading or trailing whitespace and no two whitespace characters in a row; it is empty iff there are no words |
| TextFilter.FilterStr | pikabu_parser.py:138-143 | the normalised text has no ASCII punctuation, no leading or trailing whitespace, and single plain spaces between words; its words are exactly the words of the link-substituted text with punctuation turned into spaces, in order |
| TextFilter.SplitJoin | pikabu_parser.py:142 | splitting a join of words gives back the same words |
| TextFilter.FilterStrEmpty | pikabu_parser.py:138-143 | `filter_str("") == ""` |
| TextFilter.FilterStrIdempotent | pikabu_parser.py:138-143 | applying `filter_str` to its own output changes nothing |
| TextFilter.TwoWordsBetweenSpaces | pikabu_parser.py:142 | `" ".join(s.split())` of two words, each with one space on either side, is the two words joined by one space |
| TextFilter.LinkPlaceholderBecomesWords | pikabu_parser.py:141-142 | text that the URL substitution turns into `<some_link>` normalises to `some link` |
| TextFilter.PlaceholderPunctuation | pikabu_parser.py:140-141 | replacing punctuation in `<some_link>` gives ` some link ` |
| Story.IsAd | pikabu_parser.py:103-107 | `is_ad`: the author id is missing, or the author name is `pikabu.deals`, or the datetime element is missing, or the rating is missing |
| Story.GetTags | pikabu_parser.py:121-123 | one tag per tag link, in document order, each the link's raw text |
| Story.GetText | pikabu_parser.py:131-136 | a missing text block gives the empty text; otherwise the text is `filter_str` of the block's text, so it has no punctuation and is single-spaced |
| Story.GetStoryData | pikabu_parser.py:109-129 | extraction succeeds iff the time element and the title link are both present; a failure names the element that was missing; on success, the text is `get_text` of the story and the title is `filter_str` of the title link's text, `text_len` is the text's length (0 without a text block), both are free of punctuation and single-spaced, the attributes and the datetime are copied unchanged, and the tags are the raw link texts in order |
| Story.NonAdFailsOnlyWithoutTitle | pikabu_parser.py:103-107 | for a story that is not an ad, extraction fails iff the title link is missing |
| Story.IsAdDependsOnlyOnMarkers | pikabu_parser.py:103-107 | whether a story is an ad depends only on the four tested markers: author id, author name, time element and rating |
| Crawler.Classify | pikabu_parser.py:83-97 | a story is skipped iff `is_ad` holds; it is an error iff it is not an ad and extraction fails; it is stored iff it is not an ad, extraction succeeds and `text_len >= 2000` |
| Crawler.AfterStory | pikabu_parser.py:83-98 | one pass of the story loop before the target check: an ad changes nothing, an error raises `number_of_errors`, a short story raises `all_story_count`, a kept one raises `all_story_count` and `current_data_count` and is appended to the store |
| Crawler.StoryEffect | pikabu_parser.py:83-101 | one story raises the accepted count by 1 and appends its record exactly when it qualifies, raises the seen count exactly when it is extracted, and a failed extraction raises only the error count |
| Crawler.ProcessStories | pikabu_parser.py:82-101 | the story loop of `write_page_data`: each story in page order, ending right after the append that brings `current_data_count` to `required_records_number` |
| Crawler.ProcessResponse | pikabu_parser.py:72-81 | a request that raised leaves everything as it was; otherwise the page's stories go through `ProcessStories` |
| Crawler.ProcessStoriesGrows | pikabu_parser.py:82-101 | a page's story loop never lowers a counter and accepts no more stories than it counts. The store grows only at its end, by one row of at least 2000 characters per accepted story |
| Crawler.GrowsTransitive | pikabu_parser.py:82-101 | two such steps in a row are again such a step |
| Crawler.ProcessResponseGrows | pikabu_parser.py:72-101 | a failed request leaves the counters and the store unchanged; an answered one changes them only as `ProcessStoriesGrows` allows |
| Crawler.KeptRecords | pikabu_parser.py:82-97 | the records of the page's qualifying stories (not an ad, extracted, text of at least 2000 characters), in page order; `KeptRecordsMembers` and `KeptRecordsAppend` prove that, and there are no more of them than stories |
| Crawler.KeptRecordsMembers | pikabu_parser.py:84-90 | a record is among the qualifying records iff some story of the page is not an ad, is extracted and has at least 2000 characters of text, with that record |
| Crawler.KeptRecordsAppend | pikabu_parser.py:82-90 | the qualifying records of two runs of stories are those of the first followed by those of the second, so they keep page order |
| Crawler.PrefixLength | pikabu_parser.py:82-95 | the number of stories the story loop goes through before it ends, at most the number of stories on the page |
| Crawler.PrefixLengthTally | pikabu_parser.py:82-101 | the loop's effect is that of processing its first `PrefixLength` stories in full, with no early stop |
| Crawler.PrefixLengthStop | pikabu_parser.py:88-95 | when the loop ends before the last story, the last story it went through was stored and the accepted count has reached the target |
| Crawler.ProcessStoriesIsPrefixTally | pikabu_parser.py:82-95 | a page's effect is that of processing some prefix of its stories in full. When that prefix is shorter than the page, it ends with a stored story and the accepted count has reached the target, so no later story is counted as seen or as an error |
| Crawler.ProcessStoriesAppends | pikabu_parser.py:88-95 | a page appends exactly the first n qualifying records in page order. n is the smaller of what the page holds and what the target still needs, and it is at least 1 because the target is checked only after an append |
| Crawler.Initial | pikabu_parser.py:27-32 | the state `__init__` sets: page 1 at `from_date`, zero counters, no row appended by this run yet and no page parsed yet |
| Crawler.QueryFor | pikabu_parser.py:65-70 | the search query of a cursor: the day parameter of its date and its page number |
| Crawler.VisitPage | pikabu_parser.py:60-63 | `parse_page`: log the cursor, then run `write_page_data` on the answer to the cursor's query |
| Crawler.Run | pikabu_parser.py:47-58 | `parse_pages`: parse the page at the cursor and stop once the target is met, else the next date; past `until_date` stop if the target is met, else the next page at `from_date`; past page 100 stop |
| Crawler.PagesAfterProduct | pikabu_parser.py:48-58 | the pages after page p hold (100 - p) times the number of days in the window |
| Crawler.RunGrows | pikabu_parser.py:47-101 | over a crawl, no counter decreases and accepted grows no faster than seen. The store grows only at its end, by exactly the newly accepted rows, each with text of at least 2000 characters. The page log grows only at its end |
| Crawler.RunVisitsInWindow | pikabu_parser.py:47-58 | every page parsed has `1 <= page_num <= 100` and `from_date <= current_date <= until_date` |
| Crawler.RunVisitsInOrder | pikabu_parser.py:47-58 | pages are parsed in strictly increasing (page, date) order, pages outermost, and never before the starting cursor |
| Crawler.RunVisitCount | pikabu_parser.py:47-58 | no more pages are parsed than the search space holds from the starting cursor on |
| Crawler.RunExit | pikabu_parser.py:48-58 | the crawl ends either with the target met on a page up to 100, or with the target unmet and the cursor at page 101, `from_date` |
| Crawler.CrawlFromStart | pikabu_parser.py:24-58 | a crawl from the initial state parses at most 100 × (days in window) pages. Each of them is in the window and none is parsed twice. The crawl ends in one of the two exits, with accepted <= seen and every stored row at least 2000 characters long |
| Parser.PikabuParser.constructor | pikabu_parser.py:24-32 | the parser starts at page 1 on `from_date` with zero counters and no row appended by this run yet |
| Parser.PikabuParser.GetSearchPageQuery | pikabu_parser.py:65-66 | the query carries the current page number and the day parameter of the current date |
| Parser.PikabuParser.ParsePages | pikabu_parser.py:47-58 | the nested loops leave the parser in the state `Run` computes from the starting state, and they keep the invariant that accepted <= seen and the store holds one row per accepted story |
| Parser.PikabuParser.ParsePage | pikabu_parser.py:60-63 | one page records the cursor and changes the counters and store as `VisitPage` says, which only grows them as `Grows` allows; it keeps the invariant that accepted <= seen and the store holds one row per accepted story |
| Parser.PikabuParser.WritePageData | pikabu_parser.py:72-101 | the story loop leaves the counters and store as `ProcessResponse` computes, does not move the cursor, and keeps that invariant |
| Parser.PikabuParser.WriteStory | pikabu_parser.py:83-101 | one iteration changes the counters and store as `AfterStory` of the story's verdict says, asks to stop exactly when it stored a story and the target is reached, and keeps that invariant |
| UniqIdChecker.LexLe | uniq_id_checker.py:5 | Python's `<=` on strings: code point by code point, a prefix first |
| UniqIdChecker.DatetimeLe | uniq_id_checker.py:5 | the order of `sort_values('story_datetime')`: timestamps ascending as strings, missing timestamps last |
| UniqIdChecker.LexLeTotal | uniq_id_checker.py:5 | any two timestamp strings are comparable |
| UniqIdChecker.LexLeTransitive | uniq_id_checker.py:5 | string order is transitive |
| UniqIdChecker.LexLeAntisymmetric | uniq_id_checker.py:5 | strings ordered both ways are equal |
| UniqIdChecker.DatetimeLeTotal | uniq_id_checker.py:5 | any two rows are comparable by timestamp (missing timestamps last) |
| UniqIdChecker.DatetimeLeTransitive | uniq_id_checker.py:5 | the timestamp order on rows is transitive |
| UniqIdChecker.IdsCard | uniq_id_checker.py:6 | there are at most as many distinct ids as rows, and exactly as many iff no id repeats |
| UniqIdChecker.IdsPermutation | uniq_id_checker.py:5 | sorting does not change which ids occur |
| UniqIdChecker.DistinctIdsPermutation | uniq_id_checker.py:5 | sorting keeps rows free of repeated ids |
| UniqIdChecker.FirstWithId | uniq_id_checker.py:4 | the first row with an id is a row of the table with that id; there is none iff the id does not occur |
| UniqIdChecker.DropSeen | uniq_id_checker.py:4 | dropping rows with already-seen ids leaves no repeated id, keeps every id not seen before, and only removes rows |
| UniqIdChecker.DropSeenKeepsFirst | uniq_id_checker.py:4 | every row that is kept is the first input row with its id |
| UniqIdChecker.DropDuplicates | uniq_id_checker.py:4 | `drop_duplicates(subset=['story_id'])` leaves no repeated id, keeps every id of the input, and is a sub-multiset of the input |
| UniqIdChecker.DropSeenKeepsFresh | uniq_id_checker.py:4 | rows with distinct ids, none already seen, pass through unchanged |
| UniqIdChecker.DropDuplicatesOfDistinct | uniq_id_checker.py:4 | deduplicating a table without repeated ids returns it unchanged |
| UniqIdChecker.Insert | uniq_id_checker.py:5 | inserting a row into a timestamp-sorted table keeps it sorted and adds exactly that row |
| UniqIdChecker.SortByDatetime | uniq_id_checker.py:5 | one admissible `sort_values('story_datetime')`: sorted by timestamp and a permutation of its input |
| UniqIdChecker.IsCleanedDb | uniq_id_checker.py:4-5 | an output of `drop_duplicates(subset=['story_id'])` then `sort_values('story_datetime')`: the deduplicated rows, rearranged into timestamp order |
| UniqIdChecker.UniqueCount | uniq_id_checker.py:6 | `len(df['story_id'].unique())`: the number of distinct ids, a missing id counting once |
| UniqIdChecker.CleanDb | uniq_id_checker.py:4-5 | every table has an admissible cleaned output |
| UniqIdChecker.CleanedDbIds | uniq_id_checker.py:4-6 | every admissible output has no repeated id, has exactly the input's ids, and is a sub-multiset of the input. The reported count equals its length and the number of distinct input ids |
| UniqIdChecker.CleanedDbKeepsFirst | uniq_id_checker.py:4 | the row kept for each id is the first input row with that id |
| UniqIdChecker.CleanDbIdempotent | uniq_id_checker.py:4-5 | running the pass on its own output keeps the same rows, still sorted |
| UniqIdChecker.DropDuplicatesOfThree | uniq_id_checker.py:4 | a later row repeating the first row's id is dropped |
| UniqIdChecker.SortedPair | uniq_id_checker.py:5 | two distinct rows whose first sorts strictly after the second come out swapped |
| UniqIdChecker.RepeatedIdAfterLaterRow | uniq_id_checker.py:4-6 | for rows a, b, c with c repeating a's id and b earlier than a, the output is b then a, and the count is 2 |
| UniqIdChecker.ExampleTimestamps | uniq_id_checker.py:5 | "2020-01-02" does not sort at or before "2020-01-01" |
| UniqIdChecker.WorkedExample | uniq_id_checker.py:4-6 | rows (1, 2020-01-02), (2, 2020-01-01), (1, 2020-01-05) give (2, 2020-01-01), (1, 2020-01-02) and the count 2 |

## Left out

- HTTP requests are not modelled: the random User-Agent, the 6-second timeout, and the one-minute sleep after a failed request. The site's answer is the parameter `Web.fetch`, and `None` stands for a request that raised. The answer is fixed per query. That loses nothing, because no query is sent twice: `Crawler.RunVisitsInOrder` shows no cursor is parsed twice, and `Calendar.DayParamMonotonic` shows that different dates have different day parameters, so different cursors have different queries.
- HTML parsing with BeautifulSoup and lxml is not modelled. A story is the datatype `Story.StoryNode`, which holds its attributes, the first match of each looked-up element, and the tag links in document order. The search page is the sequence of its `article.story` nodes.
- The URL regular expression of `filter_str` is not modelled. It is the parameter `replaceLinks`. Only the predicate `TextFilter.ChangesOnlyLinks` is assumed of it: every match starts with `http://` or `https://`, so text without a colon is unchanged. `FilterStrEmpty` and `FilterStrIdempotent` require it.
- CSV I/O is not modelled. The store is the sequence `db` of records that only grows by appending. A failing `to_csv` inside the bare `except` is not modelled, so an append always succeeds. Turning a record into a CSV row and reading it back is not modelled either. This includes the header that the writer omits and the reader expects. `UniqIdChecker.Row` is a row as read back.
- `db` holds only the rows this run appends. `db.csv` may already hold rows of earlier runs, which `to_csv(..., mode='a')` keeps, so a restarted crawl appends after them and can repeat their ids. Only `UniqIdChecker` sees the whole file.
- `time.sleep`, `random()` jitter, wall-clock timing, the `call` summary, `KeyboardInterrupt` and `sys.exit` are not modelled: they are timing and process control. All logging and `logger_service.py` are left out too.
- A date past 9999-12-31 is not modelled. Python raises `OverflowError` there, but the crawl advances an ordinal with no such bound. `Calendar.NextDay` shows the step agrees with `timedelta(days = 1)` below that bound.
- UniqIdChecker.DropDuplicates: ids are compared as strings. pandas may parse a numeric `story_id` column as integers, so ids that differ only in leading zeros would collide there. A missing id counts as one value, as NaN does in `drop_duplicates` and `unique`.
- UniqIdChecker.SortByDatetime is one admissible order, not pandas' quicksort. Rows with equal timestamps may come out in any order, so the model proves only that the clean-up pass, run on its own output, gives the same rows, still sorted. It does not prove a byte-identical file. Missing timestamps sort last, as `na_position='last'` does.
