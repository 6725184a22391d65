/**
 * `KeywordMessageParser` (helpers/keywordmessageparser.py): finding Bible
 * references such as "John 3:16" in a chat message, once against the
 * Christian book titles and once against the titles of the Sefaria index.
 *
 * The pattern `\b(t1|t2|...)\s+(\d+(?:\.\d+|:\d+)*)`, with every title
 * escaped, is read by a hand-written scanner: at a word boundary, the titles
 * are tried in list order and the first one for which the whole pattern
 * succeeds wins; the white space, the digit run and the `.digits`/`:digits`
 * groups are taken greedily, which is what the regular expression engine
 * returns since nothing follows them. `re.finditer` is `FindIter`: a match
 * at the earliest position, then the search resumes at its end.
 */
module KeywordScanner {
  import opened Wrappers
  import opened Text
  import opened StableSort
  import opened BookTable
  import Sefaria

  /** A `\w` character at position `p`; outside the string there is none. */
  predicate WordAt(s: string, p: int) {
    0 <= p < |s| && IsWordChar(s[p])
  }

  /** `\b` at position `p`. */
  predicate Boundary(s: string, p: int) {
    WordAt(s, p - 1) != WordAt(s, p)
  }

  predicate IsSeparator(c: char) {
    c == '.' || c == ':'
  }

  /** Where `(?:\.\d+|:\d+)*` starting at `i` ends. */
  function GroupsEnd(s: string, i: nat): (j: nat)
    requires i <= |s|
    ensures i <= j <= |s|
    decreases |s| - i
  {
    if i + 1 < |s| && IsSeparator(s[i]) && IsDigit(s[i + 1]) then GroupsEnd(s, RunEnd(s, i + 1, IsDigit)) else i
  }

  /** A match: where it starts and ends, the title (group 1) and the numbers
      (group 2). */
  datatype Found = Found(start: nat, end: nat, title: string, numbers: string)

  /** The pattern with the single title `title`, at position `p` (the word
      boundary aside). */
  function TryTitle(s: string, p: nat, title: string): (m: Option<Found>)
    requires p <= |s|
    ensures m.Some? ==> m.value.start == p < m.value.end <= |s| && m.value.title == title
  {
    if p + |title| <= |s| && s[p..p + |title|] == title then
      var a := p + |title|;
      var b := RunEnd(s, a, IsSpace);
      var c := if b == a then b else RunEnd(s, b, IsDigit);
      if b == a || c == b then None
      else
        var e := GroupsEnd(s, c);
        Some(Found(p, e, title, s[b..e]))
    else None
  }

  /** The alternation: the first title, in list order, for which the pattern
      succeeds. */
  function FirstTitle(s: string, p: nat, titles: seq<string>): (m: Option<Found>)
    requires p <= |s|
    ensures m.Some? ==> m.value.start == p < m.value.end <= |s| && m.value.title in titles
  {
    if titles == [] then None
    else
      match TryTitle(s, p, titles[0])
      case Some(f) => Some(f)
      case None => FirstTitle(s, p, titles[1..])
  }

  /** `"|".join(titles)`: with no titles the group is empty, as with the one
      title "". */
  function Alternatives(titles: seq<string>): (r: seq<string>)
    ensures r != []
    ensures titles != [] ==> r == titles
  {
    if titles == [] then [""] else titles
  }

  /** The whole pattern at position `p`: nothing matches away from a word
      boundary, and at one the alternation decides. */
  function MatchAt(s: string, p: nat, titles: seq<string>): (m: Option<Found>)
    requires p <= |s|
    ensures m.Some? ==> m.value.start == p < m.value.end <= |s| && m.value.title in Alternatives(titles)
    ensures m.Some? ==> Boundary(s, p)
  {
    if Boundary(s, p) then FirstTitle(s, p, Alternatives(titles)) else None
  }

  /** `re.finditer(pattern, s)` from position `p`. */
  function FindIter(s: string, p: nat, titles: seq<string>): (ms: seq<Found>)
    requires p <= |s|
    ensures forall m :: m in ms ==> p <= m.start < m.end <= |s|
    decreases |s| - p
  {
    match MatchAt(s, p, titles)
    case Some(m) => [m] + FindIter(s, m.end, titles)
    case None => if p == |s| then [] else FindIter(s, p + 1, titles)
  }

  /** Every match is the one the pattern finds at its own start. */
  lemma {:induction false} FindIterSound(s: string, p: nat, titles: seq<string>)
    requires p <= |s|
    ensures forall m :: m in FindIter(s, p, titles) ==> p <= m.start <= |s| && MatchAt(s, m.start, titles) == Some(m)
    decreases |s| - p
  {
    match MatchAt(s, p, titles)
    case Some(m) =>
      FindIterSound(s, m.end, titles);
    case None =>
      if p < |s| {
        FindIterSound(s, p + 1, titles);
      }
  }

  /** Matches are non-overlapping and listed left to right. */
  predicate Ordered(ms: seq<Found>) {
    forall i, j :: 0 <= i < j < |ms| ==> ms[i].end <= ms[j].start
  }

  lemma OrderedCons(m: Found, rest: seq<Found>)
    requires Ordered(rest) && forall n :: n in rest ==> m.end <= n.start
    ensures Ordered([m] + rest)
  {
    var ms := [m] + rest;
    forall i, j | 0 <= i < j < |ms| ensures ms[i].end <= ms[j].start {
      assert ms[j] == rest[j - 1] && rest[j - 1] in rest;
      if i > 0 {
        assert ms[i] == rest[i - 1];
      }
    }
  }

  /** `finditer` reports matches in order, none overlapping the next. */
  lemma {:induction false} FindIterOrdered(s: string, p: nat, titles: seq<string>)
    requires p <= |s|
    ensures Ordered(FindIter(s, p, titles))
    decreases |s| - p
  {
    match MatchAt(s, p, titles)
    case Some(m) =>
      FindIterOrdered(s, m.end, titles);
      OrderedCons(m, FindIter(s, m.end, titles));
    case None =>
      if p < |s| {
        FindIterOrdered(s, p + 1, titles);
      }
  }

  /** Position `q` lies inside one of the matches `ms`. */
  predicate Covered(ms: seq<Found>, q: int) {
    exists i :: 0 <= i < |ms| && ms[i].start <= q < ms[i].end
  }

  lemma CoveredCons(m: Found, rest: seq<Found>, q: int)
    requires Covered(rest, q)
    ensures Covered([m] + rest, q)
  {
    var i :| 0 <= i < |rest| && rest[i].start <= q < rest[i].end;
    assert ([m] + rest)[i + 1] == rest[i];
  }

  /** Nothing is missed: every position where the pattern matches is covered
      by a reported match, either as its start or inside it. */
  lemma FindIterComplete(s: string, p: nat, titles: seq<string>)
    requires p <= |s|
    ensures forall q :: p <= q <= |s| && MatchAt(s, q, titles).Some? ==> Covered(FindIter(s, p, titles), q)
  {
    forall q | p <= q <= |s| && MatchAt(s, q, titles).Some?
      ensures Covered(FindIter(s, p, titles), q)
    {
      FindIterCovers(s, p, titles, q);
    }
  }

  /** One matching position `q` is covered. */
  lemma {:induction false} FindIterCovers(s: string, p: nat, titles: seq<string>, q: nat)
    requires p <= q <= |s| && MatchAt(s, q, titles).Some?
    ensures Covered(FindIter(s, p, titles), q)
    decreases |s| - p
  {
    match MatchAt(s, p, titles)
    case Some(m) =>
      var rest := FindIter(s, m.end, titles);
      assert FindIter(s, p, titles) == [m] + rest;
      if q < m.end {
        assert ([m] + rest)[0] == m;
      } else {
        FindIterCovers(s, m.end, titles, q);
        CoveredCons(m, rest, q);
      }
    case None =>
      assert q != p;
      FindIterCovers(s, p + 1, titles, q);
  }

  /** The first title in list order wins, not the longest: a match names the
      first title for which the pattern succeeds. */
  lemma {:induction false} FirstTitleWins(s: string, p: nat, titles: seq<string>)
    requires p <= |s|
    ensures FirstTitle(s, p, titles).Some? ==>
              exists k :: 0 <= k < |titles| && TryTitle(s, p, titles[k]) == FirstTitle(s, p, titles)
                && forall j :: 0 <= j < k ==> TryTitle(s, p, titles[j]).None?
    decreases |titles|
  {
    if titles != [] && TryTitle(s, p, titles[0]).None? {
      FirstTitleWins(s, p, titles[1..]);
      var tail := titles[1..];
      if FirstTitle(s, p, tail).Some? {
        var k :| 0 <= k < |tail| && TryTitle(s, p, tail[k]) == FirstTitle(s, p, tail)
                 && forall j :: 0 <= j < k ==> TryTitle(s, p, tail[j]).None?;
        assert titles[k + 1] == tail[k];
        assert forall j :: 0 < j < k + 1 ==> titles[j] == tail[j - 1];
      }
    }
  }

  /** The pattern matches at `p` exactly when `p` is a word boundary and
      some title succeeds there, and then the first such title in list order
      gives the match. */
  lemma MatchAtWins(s: string, p: nat, titles: seq<string>)
    requires p <= |s|
    ensures Boundary(s, p) ==> MatchAt(s, p, titles) == FirstTitle(s, p, Alternatives(titles))
    ensures var alts := Alternatives(titles);
            && (MatchAt(s, p, titles).Some? <==>
                  Boundary(s, p) && exists k :: 0 <= k < |alts| && TryTitle(s, p, alts[k]).Some?)
            && (MatchAt(s, p, titles).Some? ==>
                  exists k :: 0 <= k < |alts| && TryTitle(s, p, alts[k]) == MatchAt(s, p, titles)
                    && forall j :: 0 <= j < k ==> TryTitle(s, p, alts[j]).None?)
  {
    FirstTitleWins(s, p, Alternatives(titles));
    FirstTitleNone(s, p, Alternatives(titles));
  }

  /** There is no match exactly when the pattern fails with every title. */
  lemma {:induction false} FirstTitleNone(s: string, p: nat, titles: seq<string>)
    requires p <= |s|
    ensures FirstTitle(s, p, titles).None? <==> forall k :: 0 <= k < |titles| ==> TryTitle(s, p, titles[k]).None?
    decreases |titles|
  {
    if titles != [] && TryTitle(s, p, titles[0]).None? {
      FirstTitleNone(s, p, titles[1..]);
      var tail := titles[1..];
      assert forall k :: 0 < k < |titles| ==> titles[k] == tail[k - 1];
    }
  }

  /** The shape of a match: the title at the start, one or more white-space
      characters, then the numbers, which start with a digit. */
  lemma TryTitleShape(s: string, p: nat, title: string)
    requires p <= |s| && TryTitle(s, p, title).Some?
    ensures var m := TryTitle(s, p, title).value;
            var b := m.end - |m.numbers|;
            && s[p..p + |title|] == title
            && p + |title| < b
            && (forall k :: p + |title| <= k < b ==> IsSpace(s[k]))
            && m.numbers == s[b..m.end] && IsDigit(m.numbers[0])
  {
    var a := p + |title|;
    var b := RunEnd(s, a, IsSpace);
    var c := RunEnd(s, b, IsDigit);
    var e := GroupsEnd(s, c);
    assert TryTitle(s, p, title).value == Found(p, e, title, s[b..e]);
    RunEndMaximal(s, a, IsSpace);
    RunEndMaximal(s, b, IsDigit);
  }

  /** The numbers hold only digits, "." and ":", and end where no further
      digit and no `.digits` or `:digits` group follows: a range such as
      "3:16-18" is cut before the dash. */
  lemma TryTitleNumbers(s: string, p: nat, title: string)
    requires p <= |s| && TryTitle(s, p, title).Some?
    ensures var m := TryTitle(s, p, title).value;
            && (forall k :: 0 <= k < |m.numbers| ==> IsDigit(m.numbers[k]) || IsSeparator(m.numbers[k]))
            && (m.end == |s| || !IsDigit(s[m.end]))
            && (m.end + 1 < |s| ==> !(IsSeparator(s[m.end]) && IsDigit(s[m.end + 1])))
  {
    var a := p + |title|;
    var b := RunEnd(s, a, IsSpace);
    var c := RunEnd(s, b, IsDigit);
    var e := GroupsEnd(s, c);
    var numbers := s[b..e];
    assert TryTitle(s, p, title).value == Found(p, e, title, numbers);
    RunEndMaximal(s, b, IsDigit);
    assert b < c && IsDigit(s[c - 1]);
    GroupsShape(s, c);
    assert c <= e;
    forall k | 0 <= k < |numbers| ensures IsDigit(numbers[k]) || IsSeparator(numbers[k]) {
      assert numbers[k] == s[b + k];
    }
  }

  /** The groups after a digit run: digits and separators, and maximal. */
  lemma {:induction false} GroupsShape(s: string, i: nat)
    requires 0 < i <= |s| && IsDigit(s[i - 1])
    requires i == |s| || !IsDigit(s[i])
    ensures var j := GroupsEnd(s, i);
            && (forall k :: i <= k < j ==> IsDigit(s[k]) || IsSeparator(s[k]))
            && (j == |s| || !IsDigit(s[j]))
            && (j + 1 < |s| ==> !(IsSeparator(s[j]) && IsDigit(s[j + 1])))
            && (j > i ==> IsDigit(s[j - 1]))
    decreases |s| - i
  {
    if i + 1 < |s| && IsSeparator(s[i]) && IsDigit(s[i + 1]) {
      var r := RunEnd(s, i + 1, IsDigit);
      RunEndMaximal(s, i + 1, IsDigit);
      GroupsShape(s, r);
    }
  }

  // ---------------------------------------------------------------------
  // Results.

  /** A result triple: the match start, the tag of the list that found it,
      and the title, one space and the numbers. */
  datatype Hit = Hit(start: nat, tag: string, text: string)

  function HitOf(m: Found, tag: string): (h: Hit)
    ensures h.start == m.start && h.tag == tag && |h.text| == |m.title| + 1 + |m.numbers|
    ensures h.text[..|m.title|] == m.title && h.text[|m.title|] == ' ' && h.text[|m.title| + 1..] == m.numbers
  {
    Hit(m.start, tag, m.title + " " + m.numbers)
  }

  function Tagged(ms: seq<Found>, tag: string): (hs: seq<Hit>)
    ensures |hs| == |ms| && forall i :: 0 <= i < |ms| ==> hs[i] == HitOf(ms[i], tag)
  {
    seq(|ms|, i requires 0 <= i < |ms| => HitOf(ms[i], tag))
  }

  /** `re.search(r"\d+[:.\s]\d+", text)`: a digit, a separator or white
      space, and a digit, next to each other. */
  predicate IsSpecific(text: string) {
    exists i :: 0 <= i < |text| - 2 && IsDigit(text[i]) && (IsSeparator(text[i + 1]) || IsSpace(text[i + 1])) && IsDigit(text[i + 2])
  }

  /** The final comprehension: keeps the specific results, in order. */
  function Specific(hits: seq<Hit>): (r: seq<Hit>)
    ensures |r| <= |hits|
    ensures forall h :: h in r <==> h in hits && IsSpecific(h.text)
  {
    if hits == [] then []
    else (if IsSpecific(hits[0].text) then [hits[0]] else []) + Specific(hits[1..])
  }

  function StartKey(h: Hit): int {
    h.start
  }

  const ChristianTag := "biblegateway"
  const JewishTag := "sefaria"

  /** The results `parse_message` returns for the two title lists. */
  function Parse(christianTitles: seq<string>, jewishTitles: seq<string>, message: string): seq<Hit> {
    var a := Tagged(FindIter(message, 0, christianTitles), ChristianTag);
    var b := Tagged(FindIter(message, 0, jewishTitles), JewishTag);
    Specific(SortBy(a + b, StartKey))
  }

  /** `[d["title"] for d in sefaria_index if "title" in d]`. */
  function IndexTitles(index: seq<Sefaria.IndexNode>): (r: seq<string>)
    ensures forall t :: t in r <==> exists i :: 0 <= i < |index| && index[i].title == Some(t)
  {
    if index == [] then []
    else
      var r := (if index[0].title.Some? then [index[0].title.value] else []) + IndexTitles(index[1..]);
      assert forall t :: (exists i :: 0 <= i < |index| && index[i].title == Some(t)) <==>
                         index[0].title == Some(t) || t in IndexTitles(index[1..]) by {
        forall t | exists i :: 0 <= i < |index| && index[i].title == Some(t)
          ensures index[0].title == Some(t) || t in IndexTitles(index[1..])
        {
          var i :| 0 <= i < |index| && index[i].title == Some(t);
          if i > 0 {
            assert index[1..][i - 1] == index[i];
          }
        }
        forall t | t in IndexTitles(index[1..])
          ensures exists i :: 0 <= i < |index| && index[i].title == Some(t)
        {
          var i :| 0 <= i < |index[1..]| && index[1..][i].title == Some(t);
          assert index[i + 1] == index[1..][i];
        }
      }
      r
  }

  /** `[title for title in titles if title not in christian]`. */
  function Without(titles: seq<string>, christian: seq<string>): (r: seq<string>)
    ensures |r| <= |titles|
    ensures forall t :: t in r <==> t in titles && t !in christian
  {
    if titles == [] then []
    else (if titles[0] !in christian then [titles[0]] else []) + Without(titles[1..], christian)
  }

  /** The second title list: every title of the index that is not exactly a
      Christian title, so a name on both lists is only ever tagged
      "biblegateway". */
  function SecondList(index: seq<Sefaria.IndexNode>, christian: seq<string>): (r: seq<string>)
    ensures forall t :: t in r <==> t !in christian && exists i :: 0 <= i < |index| && index[i].title == Some(t)
  {
    Without(IndexTitles(index), christian)
  }

  class KeywordMessageParser {
    var christianTitles: seq<string>
    var jewishTitles: seq<string>

    constructor (sefariaIndex: seq<Sefaria.IndexNode>)
      ensures christianTitles == BibleBooksList
      ensures jewishTitles == SecondList(sefariaIndex, BibleBooksList)
    {
      var christian := BibleBooksList;
      var titles := IndexTitles(sefariaIndex);
      christianTitles := christian;
      jewishTitles := Without(titles, christian);
    }

    /** `parse_message(message)`; it leaves both title lists as they are. */
    method ParseMessage(message: string) returns (r: seq<Hit>)
      ensures r == Parse(christianTitles, jewishTitles, message)
    {
      var combined: seq<Hit> := [];
      var matchesA := FindIter(message, 0, christianTitles);
      for i := 0 to |matchesA|
        invariant combined == Tagged(matchesA[..i], ChristianTag)
      {
        combined := combined + [HitOf(matchesA[i], ChristianTag)];
      }
      assert matchesA[..|matchesA|] == matchesA;
      ghost var a := combined;
      var matchesB := FindIter(message, 0, jewishTitles);
      for j := 0 to |matchesB|
        invariant combined == a + Tagged(matchesB[..j], JewishTag)
      {
        combined := combined + [HitOf(matchesB[j], JewishTag)];
      }
      assert matchesB[..|matchesB|] == matchesB;
      combined := SortBy(combined, StartKey);
      r := Specific(combined);
    }
  }

  // ---------------------------------------------------------------------
  // Properties of the results.

  lemma {:induction false} SpecificSorted(hits: seq<Hit>)
    requires SortedBy(hits, StartKey)
    ensures SortedBy(Specific(hits), StartKey)
    decreases |hits|
  {
    if hits != [] {
      assert SortedBy(hits[1..], StartKey) by {
        forall i, j | 0 <= i < j < |hits[1..]| ensures StartKey(hits[1..][i]) <= StartKey(hits[1..][j]) {
          assert hits[1..][i] == hits[i + 1] && hits[1..][j] == hits[j + 1];
        }
      }
      SpecificSorted(hits[1..]);
      var rest := Specific(hits[1..]);
      forall h | h in rest ensures StartKey(hits[0]) <= StartKey(h) {
        var k :| 1 <= k < |hits| && hits[k] == h;
      }
    }
  }

  lemma {:induction false} SpecificAppend(a: seq<Hit>, b: seq<Hit>)
    ensures Specific(a + b) == Specific(a) + Specific(b)
    decreases |a|
  {
    if a != [] {
      assert (a + b)[0] == a[0];
      assert (a + b)[1..] == a[1..] + b;
      SpecificAppend(a[1..], b);
    } else {
      assert a + b == b;
    }
  }

  lemma {:induction false} SpecificWithKey(hits: seq<Hit>, k: int)
    ensures WithKey(Specific(hits), StartKey, k) == Specific(WithKey(hits, StartKey, k))
    decreases |hits|
  {
    if hits != [] {
      SpecificWithKey(hits[1..], k);
      var h := hits[0];
      var keep := if IsSpecific(h.text) then [h] else [];
      WithKeyAppend(keep, Specific(hits[1..]), StartKey, k);
      var same := if StartKey(h) == k then [h] else [];
      SpecificAppend(same, WithKey(hits[1..], StartKey, k));
    }
  }

  /** The results are ordered by start, every one names a chapter and a
      verse, and they are exactly the specific hits of both lists. */
  lemma ParseResults(christianTitles: seq<string>, jewishTitles: seq<string>, message: string)
    ensures var a := Tagged(FindIter(message, 0, christianTitles), ChristianTag);
            var b := Tagged(FindIter(message, 0, jewishTitles), JewishTag);
            var r := Parse(christianTitles, jewishTitles, message);
            && SortedBy(r, StartKey)
            && (forall h :: h in r ==> IsSpecific(h.text))
            && (forall h :: h in r <==> (h in a || h in b) && IsSpecific(h.text))
  {
    var a := Tagged(FindIter(message, 0, christianTitles), ChristianTag);
    var b := Tagged(FindIter(message, 0, jewishTitles), JewishTag);
    SortByCorrect(a + b, StartKey);
    SpecificSorted(SortBy(a + b, StartKey));
    forall h ensures h in SortBy(a + b, StartKey) <==> h in a + b {
      assert h in SortBy(a + b, StartKey) <==> h in multiset(SortBy(a + b, StartKey));
    }
  }

  /** The sort is stable: among results with the same start, those of the
      Christian list come first, each list in its own order. */
  lemma ParseStable(christianTitles: seq<string>, jewishTitles: seq<string>, message: string, k: int)
    ensures var a := Tagged(FindIter(message, 0, christianTitles), ChristianTag);
            var b := Tagged(FindIter(message, 0, jewishTitles), JewishTag);
            WithKey(Parse(christianTitles, jewishTitles, message), StartKey, k)
              == Specific(WithKey(a, StartKey, k)) + Specific(WithKey(b, StartKey, k))
  {
    var a := Tagged(FindIter(message, 0, christianTitles), ChristianTag);
    var b := Tagged(FindIter(message, 0, jewishTitles), JewishTag);
    SortByCorrect(a + b, StartKey);
    SpecificWithKey(SortBy(a + b, StartKey), k);
    WithKeyAppend(a, b, StartKey, k);
    SpecificAppend(WithKey(a, StartKey, k), WithKey(b, StartKey, k));
  }

  /** A bare chapter is dropped, a chapter with a verse is kept. */
  lemma SpecificExamples()
    ensures !IsSpecific("John 3")
    ensures !IsSpecific("1 Samuel 3")
    ensures IsSpecific("John 3:16") && IsSpecific("John 3.16")
  {
    assert IsDigit("John 3:16"[5]) && IsSeparator("John 3:16"[6]) && IsDigit("John 3:16"[7]);
    assert IsDigit("John 3.16"[5]) && IsSeparator("John 3.16"[6]) && IsDigit("John 3.16"[7]);
  }

  /** The numbers stop before a range: in "John 3:16-18" the match is
      "John 3:16". */
  lemma RangeExample()
    ensures TryTitle("John 3:16-18", 0, "John") == Some(Found(0, 9, "John", "3:16"))
  {
    var s := "John 3:16-18";
    assert s[0..4] == "John";
    RunEndIs(s, 4, 5, IsSpace);
    RunEndIs(s, 5, 6, IsDigit);
    RunEndIs(s, 7, 9, IsDigit);
    assert GroupsEnd(s, 9) == 9;
    assert GroupsEnd(s, 6) == 9;
    assert s[5..9] == "3:16";
  }
}
