/**
 * The crawl controller's behaviour as functions: the per-page story loop of
 * `write_page_data` and the (page, date) traversal of `parse_pages`. The class in
 * module Parser runs the same steps imperatively and is proved equal to these.
 */
module Crawler {
  import opened Wrappers
  import opened Story
  import Calendar

  /** The last search-result page the crawler asks for. */
  const MAX_PAGE := 100
  /** The shortest normalised text a story needs to be stored. */
  const MIN_TEXT_LEN := 2000

  /** `from_date`, `until_date` (as day ordinals) and `required_records_number`. */
  datatype Config = Config(fromDate: int, untilDate: int, target: int)

  /** The traversal position `(page_num, current_date)`, the date as a day ordinal. */
  datatype Cursor = Cursor(page: int, date: int)

  /** The variable part of the search URL: `d=<day parameter>&page=<page number>`. */
  datatype SearchQuery = SearchQuery(day: int, page: int)

  /**
   * What the model cannot see: the site's answer to each search URL (`None` when the
   * request raised) and the URL substitution of `filter_str`.
   */
  datatype Web = Web(fetch: SearchQuery -> Option<seq<StoryNode>>, replaceLinks: string -> string)

  /** `current_data_count`, `all_story_count`, `number_of_errors` and the rows written to the store. */
  datatype Progress = Progress(accepted: int, seen: int, errors: int, store: seq<StoryRecord>)

  /** The controller's state; `trace` lists the cursors of the pages parsed so far, in order. */
  datatype CrawlState = CrawlState(cursor: Cursor, progress: Progress, trace: seq<Cursor>)

  /** What one story does to the counters and the store. */
  datatype Verdict = Ad | Broken(error: ExtractError) | Short(record: StoryRecord) | Kept(record: StoryRecord)

  /** The state `__init__` sets; `db` is empty because it holds only the rows this run appends. */
  function Initial(cfg: Config): CrawlState
  {
    CrawlState(Cursor(1, cfg.fromDate), Progress(0, 0, 0, []), [])
  }

  /** `get_search_page_url` for a cursor. */
  function QueryFor(c: Cursor): SearchQuery
  {
    SearchQuery(Calendar.DayParam(c.date), c.page)
  }

  /** The cursor positions `parse_pages` can be in between steps. */
  ghost predicate CursorOk(cfg: Config, c: Cursor)
  {
    1 <= c.page <= MAX_PAGE + 1 && cfg.fromDate <= c.date && (c.page == MAX_PAGE + 1 ==> c.date == cfg.fromDate)
  }

  /** The states the controller can be in: page 101 is reached only with the target unmet. */
  ghost predicate Reachable(cfg: Config, s: CrawlState)
  {
    CursorOk(cfg, s.cursor) && (s.cursor.page == MAX_PAGE + 1 ==> s.progress.accepted < cfg.target)
  }

  /** A page inside the search space: pages 1..100, dates from `from_date` to `until_date`. */
  ghost predicate InWindow(cfg: Config, c: Cursor)
  {
    1 <= c.page <= MAX_PAGE && cfg.fromDate <= c.date <= cfg.untilDate
  }

  /** The traversal order: pages outermost, dates innermost. */
  predicate Precedes(a: Cursor, b: Cursor)
  {
    a.page < b.page || (a.page == b.page && a.date < b.date)
  }

  function WindowDays(cfg: Config): nat
  {
    if cfg.fromDate <= cfg.untilDate then cfg.untilDate - cfg.fromDate + 1 else 0
  }

  /** How many pages of the search space lie on the pages after `page`. */
  function PagesAfter(cfg: Config, page: int): nat
    decreases MAX_PAGE - page
  {
    if page >= MAX_PAGE then 0 else WindowDays(cfg) + PagesAfter(cfg, page + 1)
  }

  /** How many pages of the search space lie at or after cursor `c`. */
  function Remaining(cfg: Config, c: Cursor): int
  {
    if c.page > MAX_PAGE then 0
    else (if c.date <= cfg.untilDate then cfg.untilDate - c.date + 1 else 0) + PagesAfter(cfg, c.page)
  }

  lemma {:induction false} PagesAfterProduct(cfg: Config, page: int)
    requires page <= MAX_PAGE
    ensures PagesAfter(cfg, page) == (MAX_PAGE - page) * WindowDays(cfg)
    decreases MAX_PAGE - page
  {
    if page < MAX_PAGE {
      PagesAfterProduct(cfg, page + 1);
      var d := WindowDays(cfg);
      assert (MAX_PAGE - page) * d == d + (MAX_PAGE - (page + 1)) * d;
    }
  }

  // ---------------------------------------------------------------- one page

  /** The fate of one story: skipped ad, extraction error, counted but short, or stored. */
  function Classify(replaceLinks: string -> string, node: StoryNode): (v: Verdict)
    ensures v.Ad? <==> IsAd(node)
    ensures v.Broken? <==> !IsAd(node) && GetStoryData(replaceLinks, node).Failure?
    ensures v.Kept? <==> !IsAd(node) && GetStoryData(replaceLinks, node).Success?
                         && GetStoryData(replaceLinks, node).value.textLen >= MIN_TEXT_LEN
    ensures v.Kept? ==> |v.record.text| >= MIN_TEXT_LEN
  {
    if IsAd(node) then Ad
    else match GetStoryData(replaceLinks, node)
      case Failure(e) => Broken(e)
      case Success(rec) => if rec.textLen >= MIN_TEXT_LEN then Kept(rec) else Short(rec)
  }

  /** The counters and store after one story, before the target check. */
  function AfterStory(v: Verdict, p: Progress): Progress
  {
    match v
    case Ad => p
    case Broken(_) => p.(errors := p.errors + 1)
    case Short(_) => p.(seen := p.seen + 1)
    case Kept(rec) => p.(seen := p.seen + 1, accepted := p.accepted + 1, store := p.store + [rec])
  }

  /**
   * One story of `write_page_data`: it is appended, and counted as accepted, exactly when
   * it is not an ad, extraction succeeds and its text has at least 2000 characters; it is
   * counted as seen when it is not an ad and extraction succeeds; a failed extraction
   * raises the error count and nothing else.
   */
  lemma StoryEffect(replaceLinks: string -> string, node: StoryNode, p: Progress)
    ensures var q := AfterStory(Classify(replaceLinks, node), p);
            var data := GetStoryData(replaceLinks, node);
            var extracted := !IsAd(node) && data.Success?;
            var kept := extracted && data.value.textLen >= MIN_TEXT_LEN;
            && q.accepted == p.accepted + (if kept then 1 else 0)
            && q.store == (if kept then p.store + [data.value] else p.store)
            && q.seen == p.seen + (if extracted then 1 else 0)
            && q.errors == p.errors + (if !IsAd(node) && data.Failure? then 1 else 0)
  {
  }

  /**
   * The story loop of `write_page_data`: each story in order, stopping right after the
   * append that brings the accepted count to the target.
   */
  function ProcessStories(replaceLinks: string -> string, stories: seq<StoryNode>, target: int, p: Progress): Progress
    decreases |stories|
  {
    if stories == [] then p
    else
      var v := Classify(replaceLinks, stories[0]);
      var q := AfterStory(v, p);
      if v.Kept? && q.accepted >= target then q
      else ProcessStories(replaceLinks, stories[1..], target, q)
  }

  /** `write_page_data` for one response: a failed fetch changes nothing. */
  function ProcessResponse(replaceLinks: string -> string, response: Option<seq<StoryNode>>, target: int, p: Progress): Progress
  {
    match response
    case None => p
    case Some(stories) => ProcessStories(replaceLinks, stories, target, p)
  }

  /**
   * What a page can do to the counters and the store: no counter decreases, no more stories
   * are accepted than counted, and the store only grows at its end, by one row of at least
   * 2000 characters per accepted story.
   */
  ghost predicate Grows(p: Progress, r: Progress)
  {
    && p.accepted <= r.accepted && p.seen <= r.seen && p.errors <= r.errors
    && r.accepted - p.accepted <= r.seen - p.seen
    && |r.store| == |p.store| + (r.accepted - p.accepted) && r.store[..|p.store|] == p.store
    && (forall i :: |p.store| <= i < |r.store| ==> r.store[i].textLen >= MIN_TEXT_LEN)
  }

  lemma GrowsTransitive(p: Progress, q: Progress, r: Progress)
    requires Grows(p, q) && Grows(q, r)
    ensures Grows(p, r)
  {
    assert r.store[..|p.store|] == r.store[..|q.store|][..|p.store|];
    forall i | |p.store| <= i < |r.store|
      ensures r.store[i].textLen >= MIN_TEXT_LEN
    {
      if i < |q.store| {
        assert r.store[i] == r.store[..|q.store|][i] == q.store[i];
      }
    }
  }

  /** Each story of a page changes the counters and the store as `Grows` allows. */
  lemma {:induction false} ProcessStoriesGrows(replaceLinks: string -> string, stories: seq<StoryNode>, target: int, p: Progress)
    ensures Grows(p, ProcessStories(replaceLinks, stories, target, p))
    decreases |stories|
  {
    if stories != [] {
      var v := Classify(replaceLinks, stories[0]);
      var q := AfterStory(v, p);
      assert Grows(p, q) by {
        if v.Kept? {
          assert q.store[..|p.store|] == p.store;
        }
      }
      if !(v.Kept? && q.accepted >= target) {
        ProcessStoriesGrows(replaceLinks, stories[1..], target, q);
        GrowsTransitive(p, q, ProcessStories(replaceLinks, stories[1..], target, q));
      }
    }
  }

  /** A failed request changes nothing; an answered one changes what `Grows` allows. */
  lemma ProcessResponseGrows(replaceLinks: string -> string, response: Option<seq<StoryNode>>, target: int, p: Progress)
    ensures response.None? ==> ProcessResponse(replaceLinks, response, target, p) == p
    ensures Grows(p, ProcessResponse(replaceLinks, response, target, p))
  {
    if response.Some? {
      ProcessStoriesGrows(replaceLinks, response.value, target, p);
    } else {
      assert p.store[..|p.store|] == p.store;
    }
  }

  /**
   * The records of the stories that qualify for the store, over a whole sequence of stories:
   * every record of a `Kept` verdict and nothing else (`KeptRecordsMembers`), in story order
   * (`KeptRecordsAppend`).
   */
  function KeptRecords(replaceLinks: string -> string, stories: seq<StoryNode>): (r: seq<StoryRecord>)
    ensures |r| <= |stories|
  {
    if stories == [] then []
    else
      var v := Classify(replaceLinks, stories[0]);
      (if v.Kept? then [v.record] else []) + KeptRecords(replaceLinks, stories[1..])
  }

  /** A record is kept iff some story of the run has a `Kept` verdict with that record. */
  lemma {:induction false} KeptRecordsMembers(replaceLinks: string -> string, stories: seq<StoryNode>)
    ensures forall rec :: rec in KeptRecords(replaceLinks, stories) ==>
              exists k :: 0 <= k < |stories| && Classify(replaceLinks, stories[k]) == Kept(rec)
    ensures forall k :: 0 <= k < |stories| && Classify(replaceLinks, stories[k]).Kept? ==>
              Classify(replaceLinks, stories[k]).record in KeptRecords(replaceLinks, stories)
    decreases |stories|
  {
    if stories != [] {
      KeptRecordsMembers(replaceLinks, stories[1..]);
      assert forall k :: 1 <= k < |stories| ==> stories[k] == stories[1..][k - 1];
    }
  }

  /** Processing two runs of stories keeps the records of the first before those of the second. */
  lemma {:induction false} KeptRecordsAppend(replaceLinks: string -> string, a: seq<StoryNode>, b: seq<StoryNode>)
    ensures KeptRecords(replaceLinks, a + b) == KeptRecords(replaceLinks, a) + KeptRecords(replaceLinks, b)
    decreases |a|
  {
    if a == [] {
      assert a + b == b;
    } else {
      assert (a + b)[0] == a[0] && (a + b)[1..] == a[1..] + b;
      KeptRecordsAppend(replaceLinks, a[1..], b);
      var v := Classify(replaceLinks, a[0]);
      var head: seq<StoryRecord> := if v.Kept? then [v.record] else [];
      assert head + (KeptRecords(replaceLinks, a[1..]) + KeptRecords(replaceLinks, b))
          == (head + KeptRecords(replaceLinks, a[1..])) + KeptRecords(replaceLinks, b);
    }
  }

  /** How many stories were counted in `all_story_count`: not ads, and extracted. */
  function CountExtracted(replaceLinks: string -> string, stories: seq<StoryNode>): nat
  {
    if stories == [] then 0
    else
      var v := Classify(replaceLinks, stories[0]);
      (if v.Short? || v.Kept? then 1 else 0) + CountExtracted(replaceLinks, stories[1..])
  }

  /** How many stories raised during extraction. */
  function CountBroken(replaceLinks: string -> string, stories: seq<StoryNode>): nat
  {
    if stories == [] then 0
    else
      var v := Classify(replaceLinks, stories[0]);
      (if v.Broken? then 1 else 0) + CountBroken(replaceLinks, stories[1..])
  }

  /** The effect of processing all of `stories` with no early stop, in aggregate. */
  function Tally(replaceLinks: string -> string, stories: seq<StoryNode>, p: Progress): Progress
  {
    var kept := KeptRecords(replaceLinks, stories);
    Progress(p.accepted + |kept|, p.seen + CountExtracted(replaceLinks, stories),
             p.errors + CountBroken(replaceLinks, stories), p.store + kept)
  }

  function Min(a: int, b: int): int { if a <= b then a else b }
  function Max(a: int, b: int): int { if a >= b then a else b }

  lemma TallyCons(replaceLinks: string -> string, stories: seq<StoryNode>, p: Progress)
    requires stories != []
    ensures Tally(replaceLinks, stories, p) == Tally(replaceLinks, stories[1..], AfterStory(Classify(replaceLinks, stories[0]), p))
  {
    var v := Classify(replaceLinks, stories[0]);
    TallyOfVerdict(v, p, KeptRecords(replaceLinks, stories[1..]),
                   CountExtracted(replaceLinks, stories[1..]), CountBroken(replaceLinks, stories[1..]));
  }

  /** The aggregate of one verdict followed by a tally is the tally after that verdict. */
  lemma TallyOfVerdict(v: Verdict, p: Progress, rest: seq<StoryRecord>, extracted: int, broken: int)
    ensures var head: seq<StoryRecord> := if v.Kept? then [v.record] else [];
            var q := AfterStory(v, p);
            Progress(p.accepted + |head + rest|, p.seen + ((if v.Short? || v.Kept? then 1 else 0) + extracted),
                     p.errors + ((if v.Broken? then 1 else 0) + broken), p.store + (head + rest))
            == Progress(q.accepted + |rest|, q.seen + extracted, q.errors + broken, q.store + rest)
  {
    if v.Kept? {
      assert p.store + ([v.record] + rest) == (p.store + [v.record]) + rest;
    }
  }

  /** How many stories the story loop of `write_page_data` goes through before it ends. */
  function PrefixLength(replaceLinks: string -> string, stories: seq<StoryNode>, target: int, p: Progress): (k: nat)
    ensures k <= |stories|
    decreases |stories|
  {
    if stories == [] then 0
    else
      var v := Classify(replaceLinks, stories[0]);
      var q := AfterStory(v, p);
      if v.Kept? && q.accepted >= target then 1
      else 1 + PrefixLength(replaceLinks, stories[1..], target, q)
  }

  /** The loop's effect is that of processing its first `PrefixLength` stories in full. */
  lemma {:induction false} PrefixLengthTally(replaceLinks: string -> string, stories: seq<StoryNode>, target: int, p: Progress)
    ensures var k := PrefixLength(replaceLinks, stories, target, p);
            ProcessStories(replaceLinks, stories, target, p) == Tally(replaceLinks, stories[..k], p)
    decreases |stories|
  {
    if stories == [] {
      assert stories[..0] == [];
    } else {
      var v := Classify(replaceLinks, stories[0]);
      var q := AfterStory(v, p);
      var k := PrefixLength(replaceLinks, stories, target, p);
      TallyCons(replaceLinks, stories[..k], p);
      if v.Kept? && q.accepted >= target {
        assert stories[..k][0] == stories[0] && stories[..k][1..] == [];
      } else {
        PrefixLengthTally(replaceLinks, stories[1..], target, q);
        assert stories[..k][0] == stories[0] && stories[..k][1..] == stories[1..][..k - 1];
      }
    }
  }

  /** The loop ends early only right after a stored story that brought the count to the target. */
  lemma {:induction false} PrefixLengthStop(replaceLinks: string -> string, stories: seq<StoryNode>, target: int, p: Progress)
    ensures var k := PrefixLength(replaceLinks, stories, target, p);
            k < |stories| ==> 0 < k && Classify(replaceLinks, stories[k - 1]).Kept?
                               && ProcessStories(replaceLinks, stories, target, p).accepted >= target
    decreases |stories|
  {
    if stories != [] {
      var v := Classify(replaceLinks, stories[0]);
      var q := AfterStory(v, p);
      if !(v.Kept? && q.accepted >= target) {
        PrefixLengthStop(replaceLinks, stories[1..], target, q);
        var j := PrefixLength(replaceLinks, stories[1..], target, q);
        if j < |stories[1..]| {
          assert stories[1..][j - 1] == stories[j];
        }
      }
    }
  }

  /**
   * A page has the effect of processing some prefix of its stories in full; it stops
   * before the end only right after a stored story that brought the accepted count to the
   * target, so no later story is counted as seen or as an error.
   */
  lemma ProcessStoriesIsPrefixTally(replaceLinks: string -> string, stories: seq<StoryNode>, target: int, p: Progress)
    ensures exists k :: (0 <= k <= |stories|
      && ProcessStories(replaceLinks, stories, target, p) == Tally(replaceLinks, stories[..k], p)
      && (k < |stories| ==> ProcessStories(replaceLinks, stories, target, p).accepted >= target)
      && (k < |stories| ==> 0 < k && Classify(replaceLinks, stories[k - 1]).Kept?))
  {
    var k := PrefixLength(replaceLinks, stories, target, p);
    PrefixLengthTally(replaceLinks, stories, target, p);
    PrefixLengthStop(replaceLinks, stories, target, p);
  }

  /** Appending one record and then a prefix of the rest is appending a prefix one longer. */
  lemma AppendThenPrefix(store: seq<StoryRecord>, rec: StoryRecord, rest: seq<StoryRecord>, accepted: int, target: int)
    requires accepted + 1 < target
    ensures var n' := Min(|rest|, Max(1, target - (accepted + 1)));
            var n := Min(|[rec] + rest|, Max(1, target - accepted));
            n == n' + 1 && (store + [rec]) + rest[..n'] == store + ([rec] + rest)[..n]
  {
    var n' := Min(|rest|, Max(1, target - (accepted + 1)));
    assert ([rec] + rest)[..n' + 1] == [rec] + rest[..n'];
  }

  /**
   * A page appends exactly the first `n` qualifying stories, where `n` is what the target
   * still asks for (at least one: the check follows an append), capped by what the page holds.
   */
  lemma {:induction false} ProcessStoriesAppends(replaceLinks: string -> string, stories: seq<StoryNode>, target: int, p: Progress)
    ensures var r := ProcessStories(replaceLinks, stories, target, p);
            var kept := KeptRecords(replaceLinks, stories);
            var n := Min(|kept|, Max(1, target - p.accepted));
            r.store == p.store + kept[..n] && r.accepted == p.accepted + n
    decreases |stories|
  {
    if stories != [] {
      var v := Classify(replaceLinks, stories[0]);
      var q := AfterStory(v, p);
      var rest := KeptRecords(replaceLinks, stories[1..]);
      var kept := KeptRecords(replaceLinks, stories);
      var r := ProcessStories(replaceLinks, stories, target, p);
      if v.Kept? && q.accepted >= target {
        assert r == q;
        assert kept == [v.record] + rest;
        assert kept[..1] == [v.record];
      } else {
        assert r == ProcessStories(replaceLinks, stories[1..], target, q);
        ProcessStoriesAppends(replaceLinks, stories[1..], target, q);
        var n' := Min(|rest|, Max(1, target - q.accepted));
        var n := Min(|kept|, Max(1, target - p.accepted));
        if v.Kept? {
          assert kept == [v.record] + rest;
          assert q.accepted == p.accepted + 1 && q.store == p.store + [v.record];
          AppendThenPrefix(p.store, v.record, rest, p.accepted, target);
        } else {
          assert kept == rest && q.accepted == p.accepted && q.store == p.store;
          assert n == n';
        }
      }
    }
  }

  // ---------------------------------------------------------------- the traversal

  /** `parse_page` at the current cursor: log the cursor, fetch its query, process the answer. */
  function VisitPage(cfg: Config, web: Web, s: CrawlState): CrawlState
  {
    var response := web.fetch(QueryFor(s.cursor));
    s.(progress := ProcessResponse(web.replaceLinks, response, cfg.target, s.progress), trace := s.trace + [s.cursor])
  }

  /**
   * `parse_pages`: the nested loops flattened into one transition per step. Parse the page
   * at the cursor and stop once the target is reached, else move to the next date; past
   * `until_date` move to the next page at `from_date`; past page 100 stop.
   */
  function Run(cfg: Config, web: Web, s: CrawlState): CrawlState
    decreases MAX_PAGE + 1 - s.cursor.page, cfg.untilDate + 1 - s.cursor.date
  {
    var c := s.cursor;
    if c.page > MAX_PAGE then s
    else if c.date <= cfg.untilDate then
      var v := VisitPage(cfg, web, s);
      if v.progress.accepted >= cfg.target then v
      else Run(cfg, web, v.(cursor := Cursor(c.page, c.date + 1)))
    else if s.progress.accepted >= cfg.target then s
    else Run(cfg, web, s.(cursor := Cursor(c.page + 1, cfg.fromDate)))
  }

  /** `Run` at a cursor inside the date window: parse the page, then stop or move to the next date. */
  lemma RunVisitStep(cfg: Config, web: Web, s: CrawlState)
    requires s.cursor.page <= MAX_PAGE && s.cursor.date <= cfg.untilDate
    ensures var v := VisitPage(cfg, web, s);
            Run(cfg, web, s) == if v.progress.accepted >= cfg.target then v
                                else Run(cfg, web, v.(cursor := Cursor(s.cursor.page, s.cursor.date + 1)))
  {
  }

  /** `Run` past the date window: stop if the target is met, else move to the next page. */
  lemma RunPageStep(cfg: Config, web: Web, s: CrawlState)
    requires s.cursor.page <= MAX_PAGE && s.cursor.date > cfg.untilDate
    ensures Run(cfg, web, s) == if s.progress.accepted >= cfg.target then s
                                else Run(cfg, web, s.(cursor := Cursor(s.cursor.page + 1, cfg.fromDate)))
  {
  }

  /**
   * The crawl only adds: counters never decrease, each accepted story is also counted as
   * seen, the store and the page log only grow at their ends, and every appended row holds a
   * text of at least 2000 characters.
   */
  lemma {:induction false} RunGrows(cfg: Config, web: Web, s: CrawlState)
    ensures var r := Run(cfg, web, s);
            && Grows(s.progress, r.progress)
            && |s.trace| <= |r.trace| && r.trace[..|s.trace|] == s.trace
    decreases MAX_PAGE + 1 - s.cursor.page, cfg.untilDate + 1 - s.cursor.date
  {
    var c := s.cursor;
    var r := Run(cfg, web, s);
    if c.page <= MAX_PAGE && c.date <= cfg.untilDate {
      var v := VisitPage(cfg, web, s);
      ProcessResponseGrows(web.replaceLinks, web.fetch(QueryFor(c)), cfg.target, s.progress);
      if v.progress.accepted < cfg.target {
        var next := v.(cursor := Cursor(c.page, c.date + 1));
        RunGrows(cfg, web, next);
        assert r == Run(cfg, web, next);
        GrowsTransitive(s.progress, v.progress, r.progress);
        assert r.trace[..|s.trace|] == r.trace[..|next.trace|][..|s.trace|];
      }
    } else if c.page <= MAX_PAGE && s.progress.accepted < cfg.target {
      RunGrows(cfg, web, s.(cursor := Cursor(c.page + 1, cfg.fromDate)));
    } else {
      assert s.progress.store[..|s.progress.store|] == s.progress.store;
    }
  }

  /** Every page parsed lies in the search space. */
  lemma {:induction false} RunVisitsInWindow(cfg: Config, web: Web, s: CrawlState)
    requires 1 <= s.cursor.page && cfg.fromDate <= s.cursor.date
    ensures var r := Run(cfg, web, s);
            forall i :: |s.trace| <= i < |r.trace| ==> InWindow(cfg, r.trace[i])
    decreases MAX_PAGE + 1 - s.cursor.page, cfg.untilDate + 1 - s.cursor.date
  {
    var c := s.cursor;
    if c.page <= MAX_PAGE {
      if c.date <= cfg.untilDate {
        var v := VisitPage(cfg, web, s);
        if v.progress.accepted < cfg.target {
          var next := v.(cursor := Cursor(c.page, c.date + 1));
          var r := Run(cfg, web, next);
          assert Run(cfg, web, s) == r;
          RunVisitsInWindow(cfg, web, next);
          RunGrows(cfg, web, next);
          assert r.trace[|s.trace|] == r.trace[..|next.trace|][|s.trace|] == c;
        }
      } else if s.progress.accepted < cfg.target {
        var next := s.(cursor := Cursor(c.page + 1, cfg.fromDate));
        assert Run(cfg, web, s) == Run(cfg, web, next);
        RunVisitsInWindow(cfg, web, next);
      }
    }
  }

  /** Pages are parsed in strictly increasing (page, date) order, none before the starting cursor. */
  lemma {:induction false} RunVisitsInOrder(cfg: Config, web: Web, s: CrawlState)
    ensures var r := Run(cfg, web, s);
            && (forall i :: |s.trace| <= i < |r.trace| ==> !Precedes(r.trace[i], s.cursor))
            && (forall i, j :: |s.trace| <= i < j < |r.trace| ==> Precedes(r.trace[i], r.trace[j]))
    decreases MAX_PAGE + 1 - s.cursor.page, cfg.untilDate + 1 - s.cursor.date
  {
    var c := s.cursor;
    if c.page <= MAX_PAGE {
      if c.date <= cfg.untilDate {
        var v := VisitPage(cfg, web, s);
        RunVisitStep(cfg, web, s);
        if v.progress.accepted < cfg.target {
          var next := v.(cursor := Cursor(c.page, c.date + 1));
          var r := Run(cfg, web, next);
          assert Run(cfg, web, s) == r;
          RunVisitsInOrder(cfg, web, next);
          RunGrows(cfg, web, next);
          assert next.trace == s.trace + [c];
          assert r.trace[|s.trace|] == c by {
            assert r.trace[|s.trace|] == r.trace[..|next.trace|][|s.trace|];
          }
          forall i | |next.trace| <= i < |r.trace|
            ensures Precedes(c, r.trace[i])
          {
            assert !Precedes(r.trace[i], next.cursor);
          }
        }
      } else if s.progress.accepted < cfg.target {
        var next := s.(cursor := Cursor(c.page + 1, cfg.fromDate));
        RunPageStep(cfg, web, s);
        RunVisitsInOrder(cfg, web, next);
        assert Run(cfg, web, s) == Run(cfg, web, next);
      }
    }
  }

  /** No more pages are parsed than the search space holds from the starting cursor on. */
  lemma {:induction false} RunVisitCount(cfg: Config, web: Web, s: CrawlState)
    ensures |Run(cfg, web, s).trace| - |s.trace| <= Remaining(cfg, s.cursor)
    decreases MAX_PAGE + 1 - s.cursor.page, cfg.untilDate + 1 - s.cursor.date
  {
    var c := s.cursor;
    if c.page <= MAX_PAGE {
      if c.date <= cfg.untilDate {
        var v := VisitPage(cfg, web, s);
        if v.progress.accepted < cfg.target {
          RunVisitCount(cfg, web, v.(cursor := Cursor(c.page, c.date + 1)));
        }
      } else if s.progress.accepted < cfg.target {
        RunVisitCount(cfg, web, s.(cursor := Cursor(c.page + 1, cfg.fromDate)));
      }
    }
  }

  /**
   * The two exclusive ways `parse_pages` ends: the target is reached on some page up to
   * 100, or it is unmet with the cursor reset to page 101 at `from_date`.
   */
  lemma {:induction false} RunExit(cfg: Config, web: Web, s: CrawlState)
    requires Reachable(cfg, s)
    ensures var r := Run(cfg, web, s);
            && Reachable(cfg, r)
            && ((r.progress.accepted >= cfg.target && r.cursor.page <= MAX_PAGE)
                || (r.progress.accepted < cfg.target && r.cursor == Cursor(MAX_PAGE + 1, cfg.fromDate)))
    decreases MAX_PAGE + 1 - s.cursor.page, cfg.untilDate + 1 - s.cursor.date
  {
    var c := s.cursor;
    if c.page <= MAX_PAGE {
      if c.date <= cfg.untilDate {
        var v := VisitPage(cfg, web, s);
        RunVisitStep(cfg, web, s);
        assert v.cursor == c;
        if v.progress.accepted < cfg.target {
          RunExit(cfg, web, v.(cursor := Cursor(c.page, c.date + 1)));
        }
      } else {
        RunPageStep(cfg, web, s);
        if s.progress.accepted < cfg.target {
          RunExit(cfg, web, s.(cursor := Cursor(c.page + 1, cfg.fromDate)));
        }
      }
    }
  }

  /**
   * A crawl from the initial state: at most 100 pages per day of the window, each inside
   * the window and none twice, ending in one of the two exits, with consistent counters.
   */
  lemma CrawlFromStart(cfg: Config, web: Web)
    ensures var r := Run(cfg, web, Initial(cfg));
            && |r.trace| <= MAX_PAGE * WindowDays(cfg)
            && (forall i :: 0 <= i < |r.trace| ==> InWindow(cfg, r.trace[i]))
            && (forall i, j :: 0 <= i < j < |r.trace| ==> Precedes(r.trace[i], r.trace[j]) && r.trace[i] != r.trace[j])
            && ((r.progress.accepted >= cfg.target && r.cursor.page <= MAX_PAGE)
                || (r.progress.accepted < cfg.target && r.cursor == Cursor(MAX_PAGE + 1, cfg.fromDate)))
            && 0 <= r.progress.accepted <= r.progress.seen && 0 <= r.progress.errors
            && |r.progress.store| == r.progress.accepted
            && (forall i :: 0 <= i < |r.progress.store| ==> r.progress.store[i].textLen >= MIN_TEXT_LEN)
  {
    var s := Initial(cfg);
    RunGrows(cfg, web, s);
    RunVisitCount(cfg, web, s);
    RunVisitsInWindow(cfg, web, s);
    RunVisitsInOrder(cfg, web, s);
    RunExit(cfg, web, s);
    PagesAfterProduct(cfg, 1);
  }
}
