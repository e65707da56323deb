/**
 * The clean-up pass over the collected table: drop every row whose `story_id` was already
 * seen (the first occurrence wins), sort what is left by the `story_datetime` column and
 * report the number of distinct story ids.
 *
 * The sort is specified as a relation: pandas' default sort is not stable, so any ordering
 * of the deduplicated rows by timestamp is admissible, and every property below is proved
 * for all of them. `CleanDb` is one admissible output (an insertion sort).
 */
module UniqIdChecker {
  import opened Wrappers

  /**
   * A table row as read back from the CSV file: the story id (None for an empty cell, which
   * pandas reads as NaN), the timestamp (None likewise) and the remaining cells.
   */
  datatype Row = Row(storyId: Option<string>, storyDatetime: Option<string>, rest: seq<string>)

  // ---------------------------------------------------------------------------------------
  // Ordering of the timestamp column
  // ---------------------------------------------------------------------------------------

  /** Python's string comparison `a <= b`: code point by code point, a prefix first. */
  predicate LexLe(a: string, b: string)
    decreases |a|
  {
    if a == [] then true
    else if b == [] then false
    else if a[0] != b[0] then a[0] < b[0]
    else LexLe(a[1..], b[1..])
  }

  lemma {:induction false} LexLeTotal(a: string, b: string)
    ensures LexLe(a, b) || LexLe(b, a)
    decreases |a|
  {
    if a != [] && b != [] && a[0] == b[0] {
      LexLeTotal(a[1..], b[1..]);
    }
  }

  lemma {:induction false} LexLeTransitive(a: string, b: string, c: string)
    requires LexLe(a, b) && LexLe(b, c)
    ensures LexLe(a, c)
    decreases |a|
  {
    if a != [] && b != [] && c != [] && a[0] == b[0] == c[0] {
      LexLeTransitive(a[1..], b[1..], c[1..]);
    }
  }

  lemma {:induction false} LexLeAntisymmetric(a: string, b: string)
    requires LexLe(a, b) && LexLe(b, a)
    ensures a == b
    decreases |a|
  {
    if a != [] {
      LexLeAntisymmetric(a[1..], b[1..]);
      assert a == [a[0]] + a[1..] && b == [b[0]] + b[1..];
    }
  }

  /** `sort_values('story_datetime')` order: strings ascending, missing values last. */
  predicate DatetimeLe(x: Row, y: Row)
  {
    match (x.storyDatetime, y.storyDatetime)
    case (Some(a), Some(b)) => LexLe(a, b)
    case (Some(_), None) => true
    case (None, Some(_)) => false
    case (None, None) => true
  }

  lemma DatetimeLeTotal(x: Row, y: Row)
    ensures DatetimeLe(x, y) || DatetimeLe(y, x)
  {
    if x.storyDatetime.Some? && y.storyDatetime.Some? {
      LexLeTotal(x.storyDatetime.value, y.storyDatetime.value);
    }
  }

  lemma DatetimeLeTransitive(x: Row, y: Row, z: Row)
    requires DatetimeLe(x, y) && DatetimeLe(y, z)
    ensures DatetimeLe(x, z)
  {
    if x.storyDatetime.Some? && y.storyDatetime.Some? && z.storyDatetime.Some? {
      LexLeTransitive(x.storyDatetime.value, y.storyDatetime.value, z.storyDatetime.value);
    }
  }

  /** Rows non-decreasing by timestamp; nothing is said about the order of equal timestamps. */
  ghost predicate SortedByDatetime(s: seq<Row>)
  {
    forall i, j :: 0 <= i < j < |s| ==> DatetimeLe(s[i], s[j])
  }

  // ---------------------------------------------------------------------------------------
  // Story ids
  // ---------------------------------------------------------------------------------------

  /** The distinct values of the `story_id` column (all missing ids count as one, as NaN does). */
  ghost function Ids(s: seq<Row>): set<Option<string>>
  {
    set r | r in s :: r.storyId
  }

  ghost predicate DistinctIds(s: seq<Row>)
  {
    forall i, j :: 0 <= i < j < |s| ==> s[i].storyId != s[j].storyId
  }

  lemma IdsCons(s: seq<Row>)
    requires s != []
    ensures Ids(s) == {s[0].storyId} + Ids(s[1..])
  {
    assert s == [s[0]] + s[1..];
    forall id | id in Ids(s)
      ensures id in {s[0].storyId} + Ids(s[1..])
    {
      var r :| r in s && r.storyId == id;
      if r != s[0] {
        assert r in s[1..];
      }
    }
  }

  lemma DistinctIdsCons(s: seq<Row>)
    requires s != []
    ensures DistinctIds(s) <==> DistinctIds(s[1..]) && s[0].storyId !in Ids(s[1..])
  {
    var tail := s[1..];
    if DistinctIds(s) {
      forall i, j | 0 <= i < j < |tail|
        ensures tail[i].storyId != tail[j].storyId
      {
        assert tail[i] == s[i + 1] && tail[j] == s[j + 1];
      }
      forall r | r in tail
        ensures r.storyId != s[0].storyId
      {
        var k :| 0 <= k < |tail| && tail[k] == r;
        assert s[k + 1] == r;
      }
    }
    if DistinctIds(tail) && s[0].storyId !in Ids(tail) {
      forall i, j | 0 <= i < j < |s|
        ensures s[i].storyId != s[j].storyId
      {
        assert s[j] == tail[j - 1] && s[j] in tail;
        if i > 0 {
          assert s[i] == tail[i - 1];
        }
      }
    }
  }

  /** The id column has at most as many distinct values as rows, exactly as many iff no id repeats. */
  lemma {:induction false} IdsCard(s: seq<Row>)
    ensures |Ids(s)| <= |s|
    ensures |Ids(s)| == |s| <==> DistinctIds(s)
    decreases |s|
  {
    if s == [] {
      assert Ids(s) == {};
    } else {
      IdsCons(s);
      IdsCard(s[1..]);
      DistinctIdsCons(s);
      if s[0].storyId in Ids(s[1..]) {
        assert Ids(s) == Ids(s[1..]);
      } else {
        assert |Ids(s)| == |Ids(s[1..])| + 1;
      }
    }
  }

  /** Rearranging rows does not change which ids occur. */
  lemma IdsPermutation(s: seq<Row>, t: seq<Row>)
    requires multiset(s) == multiset(t)
    ensures Ids(s) == Ids(t)
  {
    forall id | id in Ids(s)
      ensures id in Ids(t)
    {
      var r :| r in s && r.storyId == id;
      assert r in multiset(s);
    }
    forall id | id in Ids(t)
      ensures id in Ids(s)
    {
      var r :| r in t && r.storyId == id;
      assert r in multiset(t);
    }
  }

  /** Rearranging rows keeps them free of repeated ids. */
  lemma DistinctIdsPermutation(s: seq<Row>, t: seq<Row>)
    requires multiset(s) == multiset(t) && DistinctIds(s)
    ensures DistinctIds(t)
  {
    IdsPermutation(s, t);
    IdsCard(s);
    IdsCard(t);
    assert |s| == |multiset(s)| == |multiset(t)| == |t|;
  }

  /** The first row of `s` carrying `id`, in input order. */
  function FirstWithId(s: seq<Row>, id: Option<string>): (r: Option<Row>)
    ensures r.Some? ==> r.value in s && r.value.storyId == id
    ensures r.None? ==> id !in Ids(s)
  {
    if s == [] then None
    else if s[0].storyId == id then Some(s[0])
    else
      var r := FirstWithId(s[1..], id);
      assert r.None? ==> id !in Ids(s) by {
        if r.None? && id in Ids(s) {
          IdsCons(s);
        }
      }
      r
  }

  // ---------------------------------------------------------------------------------------
  // drop_duplicates(subset=['story_id'])
  // ---------------------------------------------------------------------------------------

  /** The rows of `s` whose id is neither in `seen` nor on an earlier row of `s`. */
  function DropSeen(s: seq<Row>, seen: set<Option<string>>): (r: seq<Row>)
    ensures DistinctIds(r)
    ensures Ids(r) == Ids(s) - seen
    ensures multiset(r) <= multiset(s)
    decreases |s|
  {
    if s == [] then
      assert Ids(s) == {};
      []
    else
      IdsCons(s);
      assert s == [s[0]] + s[1..];
      if s[0].storyId in seen then DropSeen(s[1..], seen)
      else
        var r := [s[0]] + DropSeen(s[1..], seen + {s[0].storyId});
        assert r[1..] == DropSeen(s[1..], seen + {s[0].storyId});
        IdsCons(r);
        DistinctIdsCons(r);
        r
  }

  /** Every row `DropSeen` keeps is the first row of its input with that id. */
  lemma {:induction false} DropSeenKeepsFirst(s: seq<Row>, seen: set<Option<string>>)
    ensures forall k :: 0 <= k < |DropSeen(s, seen)| ==>
      FirstWithId(s, DropSeen(s, seen)[k].storyId) == Some(DropSeen(s, seen)[k])
    decreases |s|
  {
    if s != [] {
      var tail := s[1..];
      if s[0].storyId in seen {
        DropSeenKeepsFirst(tail, seen);
        var r := DropSeen(s, seen);
        assert r == DropSeen(tail, seen);
        forall k | 0 <= k < |r|
          ensures FirstWithId(s, r[k].storyId) == Some(r[k])
        {
          assert r[k].storyId in Ids(r);
        }
      } else {
        var seen' := seen + {s[0].storyId};
        DropSeenKeepsFirst(tail, seen');
        var rest := DropSeen(tail, seen');
        var r := DropSeen(s, seen);
        assert r == [s[0]] + rest;
        forall k | 0 <= k < |r|
          ensures FirstWithId(s, r[k].storyId) == Some(r[k])
        {
          if k > 0 {
            assert r[k] == rest[k - 1];
            assert r[k].storyId in Ids(rest);
          }
        }
      }
    }
  }

  /** `drop_duplicates(subset=['story_id'])` with its default `keep='first'`. */
  function DropDuplicates(rows: seq<Row>): (r: seq<Row>)
    ensures DistinctIds(r)
    ensures Ids(r) == Ids(rows)
    ensures multiset(r) <= multiset(rows)
  {
    DropSeen(rows, {})
  }

  /** Rows that already have distinct ids, none of them in `seen`, all pass through. */
  lemma {:induction false} DropSeenKeepsFresh(s: seq<Row>, seen: set<Option<string>>)
    requires DistinctIds(s) && Ids(s) * seen == {}
    ensures DropSeen(s, seen) == s
    decreases |s|
  {
    if s != [] {
      IdsCons(s);
      DistinctIdsCons(s);
      DropSeenKeepsFresh(s[1..], seen + {s[0].storyId});
      assert s == [s[0]] + s[1..];
    }
  }

  /** Deduplicating a table without repeated ids changes nothing. */
  lemma DropDuplicatesOfDistinct(rows: seq<Row>)
    requires DistinctIds(rows)
    ensures DropDuplicates(rows) == rows
  {
    DropSeenKeepsFresh(rows, {});
  }

  // ---------------------------------------------------------------------------------------
  // sort_values('story_datetime')
  // ---------------------------------------------------------------------------------------

  /** Insert `x` into the sorted `s` in front of the first row it does not follow. */
  function Insert(x: Row, s: seq<Row>): (r: seq<Row>)
    requires SortedByDatetime(s)
    ensures SortedByDatetime(r)
    ensures multiset(r) == multiset(s) + multiset{x}
    decreases |s|
  {
    if s == [] then [x]
    else if DatetimeLe(x, s[0]) then
      var r := [x] + s;
      assert SortedByDatetime(r) by {
        forall i, j | 0 <= i < j < |r|
          ensures DatetimeLe(r[i], r[j])
        {
          if i == 0 && j > 1 {
            DatetimeLeTransitive(x, s[0], s[j - 1]);
          }
        }
      }
      r
    else
      DatetimeLeTotal(x, s[0]);
      var rest := Insert(x, s[1..]);
      var r := [s[0]] + rest;
      assert s == [s[0]] + s[1..];
      assert SortedByDatetime(r) by {
        forall j | 0 < j < |r|
          ensures DatetimeLe(s[0], r[j])
        {
          assert r[j] in multiset(rest);
          assert r[j] == x || r[j] in multiset(s[1..]);
          if r[j] != x {
            var k :| 0 <= k < |s[1..]| && s[1..][k] == r[j];
            assert s[k + 1] == r[j];
          }
        }
      }
      r
  }

  /** One admissible `sort_values('story_datetime')`: an insertion sort. */
  function SortByDatetime(s: seq<Row>): (r: seq<Row>)
    ensures SortedByDatetime(r)
    ensures multiset(r) == multiset(s)
    decreases |s|
  {
    if s == [] then []
    else
      assert s == [s[0]] + s[1..];
      Insert(s[0], SortByDatetime(s[1..]))
  }

  // ---------------------------------------------------------------------------------------
  // The whole pass
  // ---------------------------------------------------------------------------------------

  /** `out` is what the pass may write for `rows`: the deduplicated rows in some timestamp order. */
  ghost predicate IsCleanedDb(rows: seq<Row>, out: seq<Row>)
  {
    multiset(out) == multiset(DropDuplicates(rows)) && SortedByDatetime(out)
  }

  /** One output of the pass; every input has one. */
  function CleanDb(rows: seq<Row>): (out: seq<Row>)
    ensures IsCleanedDb(rows, out)
  {
    SortByDatetime(DropDuplicates(rows))
  }

  /** `len(df['story_id'].unique())`. */
  ghost function UniqueCount(out: seq<Row>): nat
  {
    |Ids(out)|
  }

  /**
   * Every admissible output has one row per story id of the input, no id twice, only input
   * rows, and the reported count equals its length.
   */
  lemma CleanedDbIds(rows: seq<Row>, out: seq<Row>)
    requires IsCleanedDb(rows, out)
    ensures DistinctIds(out)
    ensures Ids(out) == Ids(rows)
    ensures multiset(out) <= multiset(rows)
    ensures UniqueCount(out) == |out| == |Ids(rows)|
  {
    var dedup := DropDuplicates(rows);
    DistinctIdsPermutation(dedup, out);
    IdsPermutation(dedup, out);
    IdsCard(out);
  }

  /** The row kept for each story id is the first input row with that id. */
  lemma CleanedDbKeepsFirst(rows: seq<Row>, out: seq<Row>)
    requires IsCleanedDb(rows, out)
    ensures forall k :: 0 <= k < |out| ==> FirstWithId(rows, out[k].storyId) == Some(out[k])
  {
    var dedup := DropDuplicates(rows);
    DropSeenKeepsFirst(rows, {});
    forall k | 0 <= k < |out|
      ensures FirstWithId(rows, out[k].storyId) == Some(out[k])
    {
      assert out[k] in multiset(dedup);
      var m :| 0 <= m < |dedup| && dedup[m] == out[k];
    }
  }

  /** Running the pass again on its output keeps the same rows, still sorted by timestamp. */
  lemma CleanDbIdempotent(rows: seq<Row>, out: seq<Row>, again: seq<Row>)
    requires IsCleanedDb(rows, out) && IsCleanedDb(out, again)
    ensures multiset(again) == multiset(out) && SortedByDatetime(again)
  {
    CleanedDbIds(rows, out);
    DropDuplicatesOfDistinct(out);
  }

  /** A later row repeating the first row's id is dropped; rows with new ids stay. */
  lemma DropDuplicatesOfThree(a: Row, b: Row, c: Row)
    requires a.storyId == c.storyId != b.storyId
    ensures DropDuplicates([a, b, c]) == [a, b]
  {
    assert DropSeen([c], {a.storyId, b.storyId}) == [] by {
      assert [c][1..] == [];
    }
    assert DropSeen([b, c], {a.storyId}) == [b] by {
      assert [b, c][1..] == [c];
      assert {a.storyId} + {b.storyId} == {a.storyId, b.storyId};
    }
    assert [a, b, c][1..] == [b, c];
    assert {} + {a.storyId} == {a.storyId};
  }

  /** Two different rows whose first sorts strictly after the second come out swapped. */
  lemma SortedPair(a: Row, b: Row, out: seq<Row>)
    requires a != b && !DatetimeLe(a, b)
    requires multiset(out) == multiset([a, b]) && SortedByDatetime(out)
    ensures out == [b, a]
  {
    assert |out| == 2 by {
      assert |multiset(out)| == |multiset([a, b])|;
    }
    assert out == [out[0]] + [out[1]];
    assert multiset(out) == multiset{out[0]} + multiset{out[1]};
    assert multiset([a, b]) == multiset{a} + multiset{b};
    assert out[0] in multiset([a, b]) && out[1] in multiset([a, b]);
    assert out[0] != out[1] by {
      assert multiset(out)[out[0]] == 1;
    }
    assert DatetimeLe(out[0], out[1]);
  }

  /**
   * Three rows where the third repeats the first one's id and the second one's timestamp
   * sorts strictly before the first one's: the pass writes the second row, then the first.
   */
  lemma RepeatedIdAfterLaterRow(a: Row, b: Row, c: Row, out: seq<Row>)
    requires a.storyId == c.storyId != b.storyId && !DatetimeLe(a, b)
    requires IsCleanedDb([a, b, c], out)
    ensures out == [b, a]
    ensures UniqueCount(out) == 2
  {
    DropDuplicatesOfThree(a, b, c);
    SortedPair(a, b, out);
    CleanedDbIds([a, b, c], out);
  }

  /** The timestamps of the worked example below compare as Python compares strings. */
  lemma ExampleTimestamps()
    ensures !LexLe("2020-01-02", "2020-01-01")
  {
    assert "2020-01-02"[1..] == "020-01-02" && "2020-01-01"[1..] == "020-01-01";
  }

  /**
   * Rows (id 1, 2020-01-02), (id 2, 2020-01-01), (id 1, 2020-01-05): the pass writes
   * (id 2, 2020-01-01) then (id 1, 2020-01-02) and reports 2 unique records.
   */
  lemma WorkedExample(out: seq<Row>)
    requires IsCleanedDb([Row(Some("1"), Some("2020-01-02"), []),
                          Row(Some("2"), Some("2020-01-01"), []),
                          Row(Some("1"), Some("2020-01-05"), [])], out)
    ensures out == [Row(Some("2"), Some("2020-01-01"), []), Row(Some("1"), Some("2020-01-02"), [])]
    ensures UniqueCount(out) == 2
  {
    ExampleTimestamps();
    assert "1" != "2" by {
      assert "1"[0] != "2"[0];
    }
    RepeatedIdAfterLaterRow(Row(Some("1"), Some("2020-01-02"), []), Row(Some("2"), Some("2020-01-01"), []),
                            Row(Some("1"), Some("2020-01-05"), []), out);
  }
}
