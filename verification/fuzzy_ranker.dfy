/**
 * `MatchingHelpers.fuzzy_match_best_dicts` (helpers/helpers.py): ranking records
 * by how well chosen fields match wanted values.
 *
 * A record is a dictionary from field names to strings; a missing field reads
 * as "". The similarity measure (`fuzzywuzzy.fuzz.ratio`) is a library call
 * and enters the model as a parameter returning a score from 0 to 100.
 */
module FuzzyRanker {
  import opened Wrappers
  import opened StableSort

  type Record = map<string, string>

  type Score = x: int | 0 <= x <= 100

  /** `d.get(field, "")`. */
  function Get(d: Record, field: string): (v: string)
    ensures field !in d ==> v == ""
  {
    if field in d then d[field] else ""
  }

  /** Number of (field, value) pairs `zip` forms. */
  function Pairs(fields: seq<string>, values: seq<Option<string>>): (n: nat)
    ensures n <= |fields| && n <= |values|
    ensures n == |fields| || n == |values|
  {
    if |fields| <= |values| then |fields| else |values|
  }

  /** The similarity of pair `i` for `d`, or 0 when the wanted value is `None`
      (the source skips those pairs). */
  function PairScore(d: Record, fields: seq<string>, values: seq<Option<string>>, ratio: (string, string) -> Score, i: nat): (r: int)
    requires i < Pairs(fields, values)
    ensures 0 <= r <= 100
    ensures values[i].None? ==> r == 0
  {
    if values[i].None? then 0 else ratio(Get(d, fields[i]), values[i].value)
  }

  /** The total score of `d` over the first `n` pairs. */
  function ScoreUpTo(d: Record, fields: seq<string>, values: seq<Option<string>>, ratio: (string, string) -> Score, n: nat): (total: int)
    requires n <= Pairs(fields, values)
    ensures 0 <= total <= 100 * n
  {
    if n == 0 then 0 else ScoreUpTo(d, fields, values, ratio, n - 1) + PairScore(d, fields, values, ratio, n - 1)
  }

  function TotalScore(d: Record, fields: seq<string>, values: seq<Option<string>>, ratio: (string, string) -> Score): (total: int)
    ensures 0 <= total <= 100 * Pairs(fields, values)
  {
    ScoreUpTo(d, fields, values, ratio, Pairs(fields, values))
  }

  /** Some pair with a wanted value scores at least `threshold`. */
  ghost predicate ReachesThreshold(d: Record, fields: seq<string>, values: seq<Option<string>>, ratio: (string, string) -> Score, threshold: int) {
    exists i :: 0 <= i < Pairs(fields, values) && values[i].Some? && ratio(Get(d, fields[i]), values[i].value) >= threshold
  }

  /** The source keeps a record when its total is positive and some pair
      reaches the threshold. */
  ghost predicate Qualifies(d: Record, fields: seq<string>, values: seq<Option<string>>, ratio: (string, string) -> Score, threshold: int) {
    TotalScore(d, fields, values, ratio) > 0 && ReachesThreshold(d, fields, values, ratio, threshold)
  }

  datatype Scored = Scored(item: Record, score: int)

  /** The key of the descending sort. */
  function NegScore(m: Scored): int {
    -m.score
  }

  /** The `matches` list: every qualifying record with its total, in input order. */
  ghost function Matches(data: seq<Record>, fields: seq<string>, values: seq<Option<string>>, ratio: (string, string) -> Score, threshold: int): (ms: seq<Scored>)
    ensures |ms| <= |data|
    ensures forall m :: m in ms ==> m.item in data && m.score == TotalScore(m.item, fields, values, ratio)
  {
    if data == [] then []
    else
      var init := data[..|data| - 1];
      var d := data[|data| - 1];
      Matches(init, fields, values, ratio, threshold)
        + (if Qualifies(d, fields, values, ratio, threshold) then [Scored(d, TotalScore(d, fields, values, ratio))] else [])
  }

  function Items(ms: seq<Scored>): (r: seq<Record>)
    ensures |r| == |ms| && forall i :: 0 <= i < |ms| ==> r[i] == ms[i].item
  {
    seq(|ms|, i requires 0 <= i < |ms| => ms[i].item)
  }

  /** The records `fuzzy_match_best_dicts` returns: the matches sorted by
      descending total, ties in input order. */
  ghost function Ranked(data: seq<Record>, fields: seq<string>, values: seq<Option<string>>, ratio: (string, string) -> Score, threshold: int): seq<Record> {
    Items(SortBy(Matches(data, fields, values, ratio, threshold), NegScore))
  }

  /** `fuzzy_match_best_dicts(data_list=data, target_fields=fields,
      target_values=values, threshold=threshold)`. */
  method FuzzyMatchBestDicts(data: seq<Record>, fields: seq<string>, values: seq<Option<string>>, ratio: (string, string) -> Score, threshold: int)
    returns (r: seq<Record>)
    ensures r == Ranked(data, fields, values, ratio, threshold)
  {
    var matches: seq<Scored> := [];
    var i := 0;
    while i < |data|
      invariant 0 <= i <= |data|
      invariant matches == Matches(data[..i], fields, values, ratio, threshold)
    {
      var d := data[i];
      var total := 0;
      var reached := false;
      var j := 0;
      while j < Pairs(fields, values)
        invariant 0 <= j <= Pairs(fields, values)
        invariant total == ScoreUpTo(d, fields, values, ratio, j)
        invariant reached <==> exists k :: 0 <= k < j && values[k].Some? && ratio(Get(d, fields[k]), values[k].value) >= threshold
      {
        if values[j].Some? {
          var score := ratio(Get(d, fields[j]), values[j].value);
          total := total + score;
          if score >= threshold {
            reached := true;
          }
        }
        j := j + 1;
      }
      assert data[..i + 1][..i] == data[..i];
      if total > 0 && reached {
        matches := matches + [Scored(d, total)];
      }
      i := i + 1;
    }
    assert data[..i] == data;
    r := Items(SortBy(matches, NegScore));
  }

  /** The records kept, in input order. */
  ghost function Kept(data: seq<Record>, fields: seq<string>, values: seq<Option<string>>, ratio: (string, string) -> Score, threshold: int): (r: seq<Record>)
    ensures |r| <= |data|
  {
    if data == [] then []
    else
      var d := data[|data| - 1];
      Kept(data[..|data| - 1], fields, values, ratio, threshold)
        + (if Qualifies(d, fields, values, ratio, threshold) then [d] else [])
  }

  lemma {:induction false} MatchesItems(data: seq<Record>, fields: seq<string>, values: seq<Option<string>>, ratio: (string, string) -> Score, threshold: int)
    ensures Items(Matches(data, fields, values, ratio, threshold)) == Kept(data, fields, values, ratio, threshold)
  {
    if data != [] {
      var init := data[..|data| - 1];
      MatchesItems(init, fields, values, ratio, threshold);
      var d := data[|data| - 1];
      var tail := if Qualifies(d, fields, values, ratio, threshold) then [Scored(d, TotalScore(d, fields, values, ratio))] else [];
      assert Items(Matches(init, fields, values, ratio, threshold) + tail)
          == Items(Matches(init, fields, values, ratio, threshold)) + Items(tail);
    }
  }

  /** A record is kept exactly when it occurs in the input and qualifies. */
  lemma {:induction false} KeptMembers(data: seq<Record>, fields: seq<string>, values: seq<Option<string>>, ratio: (string, string) -> Score, threshold: int)
    ensures forall d :: d in Kept(data, fields, values, ratio, threshold) <==> d in data && Qualifies(d, fields, values, ratio, threshold)
  {
    if data != [] {
      var init := data[..|data| - 1];
      KeptMembers(init, fields, values, ratio, threshold);
      assert data == init + [data[|data| - 1]];
    }
  }

  /** The result holds the qualifying records, each as often as the input
      holds it, and nothing else. */
  lemma RankedMembers(data: seq<Record>, fields: seq<string>, values: seq<Option<string>>, ratio: (string, string) -> Score, threshold: int)
    ensures multiset(Ranked(data, fields, values, ratio, threshold)) == multiset(Kept(data, fields, values, ratio, threshold))
    ensures forall d :: d in Ranked(data, fields, values, ratio, threshold) <==> d in data && Qualifies(d, fields, values, ratio, threshold)
  {
    var ms := Matches(data, fields, values, ratio, threshold);
    SortByCorrect(ms, NegScore);
    ItemsPermute(ms, SortBy(ms, NegScore));
    MatchesItems(data, fields, values, ratio, threshold);
    KeptMembers(data, fields, values, ratio, threshold);
    var r := Ranked(data, fields, values, ratio, threshold);
    forall d ensures d in r <==> d in Kept(data, fields, values, ratio, threshold) {
      assert d in r <==> d in multiset(r);
    }
  }

  /** With no wanted value at all (every target `None`, or no pairs), no
      record qualifies and the result is empty. */
  lemma NoTargetsNoResult(data: seq<Record>, fields: seq<string>, values: seq<Option<string>>, ratio: (string, string) -> Score, threshold: int)
    requires forall i :: 0 <= i < |values| ==> values[i].None?
    ensures Ranked(data, fields, values, ratio, threshold) == []
  {
    RankedMembers(data, fields, values, ratio, threshold);
    KeptMembers(data, fields, values, ratio, threshold);
    var kept := Kept(data, fields, values, ratio, threshold);
    assert multiset(kept) == multiset{} by {
      forall d ensures multiset(kept)[d] == 0 {
        assert d !in kept;
      }
    }
    assert |multiset(Ranked(data, fields, values, ratio, threshold))| == 0;
  }

  lemma ItemsConcat(a: seq<Scored>, b: seq<Scored>)
    ensures Items(a + b) == Items(a) + Items(b)
  {
  }

  lemma {:induction false} ItemsPermute(a: seq<Scored>, b: seq<Scored>)
    requires multiset(a) == multiset(b)
    ensures multiset(Items(a)) == multiset(Items(b))
    decreases |a|
  {
    if a != [] {
      var x := a[0];
      assert x in multiset(b);
      var k :| 0 <= k < |b| && b[k] == x;
      var front, back := b[..k], b[k + 1..];
      var b' := front + back;
      assert b == front + [x] + back;
      assert multiset(b) == multiset(front) + multiset{x} + multiset(back);
      assert a == [x] + a[1..];
      assert multiset(a) == multiset{x} + multiset(a[1..]);
      assert multiset(b') == multiset(front) + multiset(back);
      assert multiset(b') == multiset(b) - multiset{x};
      assert multiset(a[1..]) == multiset(a) - multiset{x};
      ItemsPermute(a[1..], b');
      ItemsConcat([x], a[1..]);
      ItemsConcat(front + [x], back);
      ItemsConcat(front, [x]);
      ItemsConcat(front, back);
    }
  }

  /** The result is ordered by descending total score. */
  lemma RankedDescending(data: seq<Record>, fields: seq<string>, values: seq<Option<string>>, ratio: (string, string) -> Score, threshold: int)
    ensures var r := Ranked(data, fields, values, ratio, threshold);
            forall i, j :: 0 <= i < j < |r| ==> TotalScore(r[i], fields, values, ratio) >= TotalScore(r[j], fields, values, ratio)
  {
    var ms := Matches(data, fields, values, ratio, threshold);
    SortByCorrect(ms, NegScore);
    var sorted := SortBy(ms, NegScore);
    forall i | 0 <= i < |sorted| ensures sorted[i].score == TotalScore(sorted[i].item, fields, values, ratio) {
      assert sorted[i] in multiset(ms);
    }
  }

  /** Records with the same total keep their input order. */
  lemma RankedStable(data: seq<Record>, fields: seq<string>, values: seq<Option<string>>, ratio: (string, string) -> Score, threshold: int, total: int)
    ensures var ms := Matches(data, fields, values, ratio, threshold);
            WithKey(SortBy(ms, NegScore), NegScore, -total) == WithKey(ms, NegScore, -total)
  {
    SortByCorrect(Matches(data, fields, values, ratio, threshold), NegScore);
  }
}
