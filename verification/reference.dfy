/**
 * `BibleBooks.extract_book_reference` (helpers/helpers.py): reading a Bible
 * reference such as "1 Sam 3:4-9" out of user input.
 *
 * The source matches the anchored pattern
 *   ^(\d*\s*[A-Za-z]+(?:\s[A-Za-z]+)*)(?:\s+(\d+)([ab])?(?:[:.](\d+(?:-\d+)?))?)?
 * Every quantifier in it is greedy and every later part is optional, so the
 * first match the backtracking engine reports is the one that takes, at each
 * step, the longest run of the current character class. The functions below
 * compute that match directly as a left-to-right scan.
 */
module Reference {
  import opened Wrappers
  import opened Text
  import opened BookTable

  /** `(?:\s[A-Za-z]+)*` from position `i`: each further word is exactly one
      white-space character followed by the longest run of letters. */
  function WordsEnd(s: string, i: nat): (j: nat)
    requires i <= |s|
    ensures i <= j <= |s|
    decreases |s| - i
  {
    if i + 1 < |s| && IsSpace(s[i]) && IsAsciiLetter(s[i + 1]) then
      WordsEnd(s, RunEnd(s, i + 1, IsAsciiLetter))
    else
      i
  }

  /** The four groups of a successful match. */
  datatype Captures = Captures(title: string, chapter: Option<string>, side: Option<string>, verse: Option<string>)

  /** `re.match` of the reference pattern against `s`; `None` when the input
      does not start with an optional number, optional white space and a
      letter. */
  function MatchReference(s: string): (m: Option<Captures>)
    ensures m.Some? ==> m.value.title <= s && m.value.title != []
    ensures m.Some? && m.value.chapter.Some? ==> m.value.chapter.value != [] && AllDigits(m.value.chapter.value)
    ensures m.Some? && m.value.chapter.None? ==> m.value.side.None? && m.value.verse.None?
  {
    var d := RunEnd(s, 0, IsDigit);
    var w := RunEnd(s, d, IsSpace);
    var l := RunEnd(s, w, IsAsciiLetter);
    if l == w then None
    else Some(MatchTail(s, WordsEnd(s, l)))
  }

  /** The optional chapter, side and verse after a title that ends at `t`. */
  function MatchTail(s: string, t: nat): (c: Captures)
    requires t <= |s|
    ensures c.title == s[..t]
    ensures c.chapter.Some? ==> c.chapter.value != [] && AllDigits(c.chapter.value)
    ensures c.chapter.None? ==> c.side.None? && c.verse.None?
  {
    var sp := RunEnd(s, t, IsSpace);
    var ch := RunEnd(s, sp, IsDigit);
    if sp == t || ch == sp then Captures(s[..t], None, None, None)
    else
      RunEndMaximal(s, sp, IsDigit);
      var side := if ch < |s| && (s[ch] == 'a' || s[ch] == 'b') then Some([s[ch]]) else None;
      var v := if side.Some? then ch + 1 else ch;
      Captures(s[..t], Some(s[sp..ch]), side, MatchVerse(s, v))
  }

  /** `(?:[:.](\d+(?:-\d+)?))?` at position `i`. */
  function MatchVerse(s: string, i: nat): (v: Option<string>)
    requires i <= |s|
    ensures v.Some? ==> i < |s| && (s[i] == ':' || s[i] == '.') && v.value != []
  {
    if i < |s| && (s[i] == ':' || s[i] == '.') then
      var a := RunEnd(s, i + 1, IsDigit);
      if a == i + 1 then None
      else if a + 1 < |s| && s[a] == '-' && IsDigit(s[a + 1]) then Some(s[i + 1..RunEnd(s, a + 1, IsDigit)])
      else Some(s[i + 1..a])
    else
      None
  }

  /** `int()` of a string of ASCII digits. */
  function DecimalValue(s: string): (n: nat)
    requires AllDigits(s)
    ensures s == [] ==> n == 0
  {
    if s == [] then 0 else DecimalValue(s[..|s| - 1]) * 10 + (s[|s| - 1] as int - '0' as int)
  }

  /** The large-reference rule: no verse at all, or a range `a-b` with
      `b - a > 10`. A verse never holds anything but digits and at most one
      hyphen, which is what `map(int, verse.split("-"))` needs. */
  function IsLargeVerse(verse: Option<string>): (large: bool)
  {
    if verse.None? || verse.value == [] then true
    else
      var k := IndexOf(verse.value, '-');
      if k == |verse.value| then false
      else if AllDigits(verse.value[..k]) && AllDigits(verse.value[k + 1..]) then
        DecimalValue(verse.value[k + 1..]) - DecimalValue(verse.value[..k]) > 10
      else false
  }

  /** The dictionary returned by `extract_book_reference`. */
  datatype ParsedReference = ParsedReference(
    book: Option<string>,
    chapter: Option<string>,
    verse: Option<string>,
    side: Option<string>,
    reference: string,
    valid: bool,
    largeReference: bool)

  /** Python truthiness of an optional string. */
  predicate Truthy(x: Option<string>) {
    x.Some? && x.value != []
  }

  /** The formatted `reference`: `f"{book}"`, then " chapter", the side and
      ":verse" for each part that is present. A missing book prints "None". */
  function FormatReference(book: Option<string>, chapter: Option<string>, side: Option<string>, verse: Option<string>): (r: string)
    ensures book.None? && !Truthy(chapter) && !Truthy(side) && !Truthy(verse) ==> r == "None"
  {
    var b := if book.Some? then book.value else "None";
    var withChapter := if Truthy(chapter) then b + " " + chapter.value else b;
    var withSide := if Truthy(side) then withChapter + side.value else withChapter;
    if Truthy(verse) then withSide + ":" + verse.value else withSide
  }

  /** `extract_book_reference` with the alias table as a parameter; the
      lemmas below hold for any table. */
  function ExtractReferenceIn(table: seq<BookEntry>, userInput: string): (r: ParsedReference)
    ensures MatchReference(userInput).None? ==> r == ParsedReference(None, None, None, None, "None", false, false)
    ensures r.valid <==> r.chapter.Some? && r.book.Some? && r.book.value != []
    ensures r.largeReference ==> r.book.Some?
  {
    match MatchReference(userInput)
    case None =>
      ParsedReference(None, None, None, None, FormatReference(None, None, None, None), false, false)
    case Some(m) =>
      var book := BookNameIn(table, Strip(m.title));
      var valid := book != [] && Truthy(m.chapter);
      ParsedReference(Some(book), m.chapter, m.verse, m.side,
                      FormatReference(Some(book), m.chapter, m.side, m.verse),
                      valid, IsLargeVerse(m.verse))
  }

  /** `BibleBooks.extract_book_reference`: the source's table. */
  function ExtractBookReference(userInput: string): (r: ParsedReference)
    ensures MatchReference(userInput).None? ==> r == ParsedReference(None, None, None, None, "None", false, false)
    ensures r.valid <==> r.chapter.Some? && r.book.Some? && r.book.value != []
    ensures r.largeReference ==> r.book.Some?
  {
    ExtractReferenceIn(BibleBooks, userInput)
  }

  /** The title of a match holds a letter, which `strip()` keeps. */
  lemma MatchedTitleNonEmpty(s: string)
    requires MatchReference(s).Some?
    ensures Strip(MatchReference(s).value.title) != []
  {
    var d := RunEnd(s, 0, IsDigit);
    var w := RunEnd(s, d, IsSpace);
    var l := RunEnd(s, w, IsAsciiLetter);
    RunEndMaximal(s, w, IsAsciiLetter);
    assert MatchReference(s).value.title == s[..WordsEnd(s, l)];
    StripKeepsNonSpace(MatchReference(s).value.title, w);
  }

  /** A match always resolves to a non-empty book when every book of the
      table is named; `valid` then says exactly that a chapter was
      captured. */
  lemma MatchedBookNamed(table: seq<BookEntry>, s: string)
    requires NamedBooks(table)
    ensures var r := ExtractReferenceIn(table, s);
            && (MatchReference(s).Some? <==> r.book.Some?)
            && (r.book.Some? ==> r.book.value != [])
            && (r.valid <==> r.chapter.Some?)
  {
    if MatchReference(s).Some? {
      MatchedTitleNonEmpty(s);
      BookNameInNamed(table, Strip(MatchReference(s).value.title));
    }
  }

  /** For the source's table: a match always names a book, and `valid` holds
      exactly when a chapter was captured. */
  lemma ExtractBookReferenceValid(s: string)
    ensures var r := ExtractBookReference(s);
            && (MatchReference(s).Some? <==> r.book.Some?)
            && (r.book.Some? ==> r.book.value != [])
            && (r.valid <==> r.chapter.Some?)
  {
    BibleBooksNamed();
    MatchedBookNamed(BibleBooks, s);
  }

  // ---------------------------------------------------------------------
  // References written in the shape the pattern reads.

  /** A book title: an optional number, optional white space, then one or
      more words of letters separated by single spaces ("1 Samuel",
      "Song of Solomon"). */
  datatype Title = Title(number: string, gap: string, words: seq<string>) {
    predicate WellFormed() {
      && AllDigits(number)
      && (forall i :: 0 <= i < |gap| ==> IsSpace(gap[i]))
      && |words| >= 1
      && forall i :: 0 <= i < |words| ==> Word(words[i])
    }

    function Text(): string
      requires |words| >= 1
    {
      number + gap + words[0] + Join(words[1..])
    }
  }

  predicate Word(w: string) {
    w != [] && forall i :: 0 <= i < |w| ==> IsAsciiLetter(w[i])
  }

  /** Each word preceded by one space. */
  function Join(ws: seq<string>): (r: string)
    ensures ws == [] ==> r == []
  {
    if ws == [] then [] else " " + ws[0] + Join(ws[1..])
  }

  /** A verse or a verse range. */
  datatype Verse = Single(first: string) | Range(first: string, last: string) {
    predicate WellFormed() {
      && first != [] && AllDigits(first)
      && (Range? ==> last != [] && AllDigits(last))
    }

    function Text(): string {
      if Single? then first else first + "-" + last
    }
  }

  /** What follows the title: a space, the chapter, the side, and the verse
      after the separator `sep`. */
  function TailText(chapter: string, side: Option<char>, sep: char, verse: Option<Verse>): string {
    " " + chapter + (if side.Some? then [side.value] else []) + (if verse.Some? then [sep] + verse.value.Text() else [])
  }

  /** The text of a whole reference. */
  function ReferenceText(t: Title, chapter: string, side: Option<char>, sep: char, verse: Option<Verse>): string
    requires |t.words| >= 1
  {
    t.Text() + TailText(chapter, side, sep, verse)
  }


  /** `s` holds `x` from position `i` on. */
  ghost predicate HoldsAt(s: string, i: nat, x: string) {
    i + |x| <= |s| && forall k :: 0 <= k < |x| ==> s[i + k] == x[k]
  }

  lemma HoldsAtSplit(s: string, i: nat, x: string, y: string)
    requires HoldsAt(s, i, x + y)
    ensures HoldsAt(s, i, x) && HoldsAt(s, i + |x|, y)
  {
    forall k | 0 <= k < |x| ensures s[i + k] == x[k] {
      assert (x + y)[k] == x[k];
    }
    forall k | 0 <= k < |y| ensures s[i + |x| + k] == y[k] {
      assert (x + y)[|x| + k] == y[k];
    }
  }

  lemma HoldsWhole(s: string)
    ensures HoldsAt(s, 0, s)
  {
  }

  /** The further words of a title are read as such, given that the title
      ends where the next character cannot continue it. */
  lemma {:induction false} WordsEndJoin(s: string, i: nat, ws: seq<string>)
    requires HoldsAt(s, i, Join(ws))
    requires forall k :: 0 <= k < |ws| ==> Word(ws[k])
    requires var e := i + |Join(ws)|;
             e == |s| || (!IsAsciiLetter(s[e]) && !(e + 1 < |s| && IsSpace(s[e]) && IsAsciiLetter(s[e + 1])))
    ensures WordsEnd(s, i) == i + |Join(ws)|
    decreases |ws|
  {
    if ws != [] {
      var w := ws[0];
      var rest := Join(ws[1..]);
      assert Word(w);
      assert Join(ws) == " " + w + rest;
      HoldsAtSplit(s, i, " " + w, rest);
      HoldsAtSplit(s, i, " ", w);
      assert s[i] == ' ' by { assert s[i + 0] == " "[0]; }
      forall k | i + 1 <= k < i + 1 + |w| ensures IsAsciiLetter(s[k]) {
        assert s[i + 1 + (k - i - 1)] == w[k - i - 1];
      }
      if rest != [] {
        assert s[i + 1 + |w|] == ' ' by {
          assert s[i + 1 + |w| + 0] == rest[0];
          assert ws[1..] != [];
        }
      }
      RunEndIs(s, i + 1, i + 1 + |w|, IsAsciiLetter);
      WordsEndJoin(s, i + 1 + |w|, ws[1..]);
    }
  }

  /** Where the parts of a title lie in a string that holds it. */
  lemma TitleParts(s: string, t: Title)
    requires t.WellFormed() && HoldsAt(s, 0, t.Text())
    ensures var n, g, w0 := |t.number|, |t.gap|, |t.words[0]|;
            && |t.Text()| == n + g + w0 + |Join(t.words[1..])|
            && (forall k :: 0 <= k < n ==> IsDigit(s[k]))
            && (forall k :: n <= k < n + g ==> IsSpace(s[k]))
            && (forall k :: n + g <= k < n + g + w0 ==> IsAsciiLetter(s[k]))
            && HoldsAt(s, n + g + w0, Join(t.words[1..]))
  {
    var n, g, w0 := |t.number|, |t.gap|, |t.words[0]|;
    var w := t.words[0];
    assert Word(w);
    HoldsAtSplit(s, 0, t.number + t.gap + w, Join(t.words[1..]));
    HoldsAtSplit(s, 0, t.number + t.gap, w);
    HoldsAtSplit(s, 0, t.number, t.gap);
    forall k | 0 <= k < n ensures IsDigit(s[k]) {
      assert s[0 + k] == t.number[k];
    }
    forall k | n <= k < n + g ensures IsSpace(s[k]) {
      assert s[n + (k - n)] == t.gap[k - n];
    }
    forall k | n + g <= k < n + g + w0 ensures IsAsciiLetter(s[k]) {
      assert s[n + g + (k - n - g)] == w[k - n - g];
    }
  }

  /** The number and the white space after it are each read as one
      maximal run. */
  lemma TitleRuns(s: string, t: Title)
    requires t.WellFormed() && HoldsAt(s, 0, t.Text())
    ensures RunEnd(s, 0, IsDigit) == |t.number|
    ensures RunEnd(s, |t.number|, IsSpace) == |t.number| + |t.gap|
  {
    TitleParts(s, t);
    var n, g := |t.number|, |t.gap|;
    assert !IsDigit(s[n]);
    RunEndIs(s, 0, n, IsDigit);
    assert !IsSpace(s[n + g]);
    RunEndIs(s, n, n + g, IsSpace);
  }

  /** So is the first word, given that the title ends where no letter
      follows. */
  lemma FirstWordRun(s: string, t: Title)
    requires t.WellFormed() && HoldsAt(s, 0, t.Text())
    requires var e := |t.Text()|; e == |s| || !IsAsciiLetter(s[e])
    ensures RunEnd(s, |t.number| + |t.gap|, IsAsciiLetter) == |t.number| + |t.gap| + |t.words[0]|
  {
    TitleParts(s, t);
    var n, g, w0 := |t.number|, |t.gap|, |t.words[0]|;
    var l := n + g + w0;
    var J := Join(t.words[1..]);
    if J != [] {
      assert s[l] == ' ' by {
        assert s[l + 0] == J[0];
        assert t.words[1..] != [];
      }
    }
    RunEndIs(s, n + g, l, IsAsciiLetter);
  }

  /** The title group of a reference ends exactly where its title does. */
  lemma TitleScan(s: string, t: Title)
    requires t.WellFormed() && HoldsAt(s, 0, t.Text())
    requires var e := |t.Text()|;
             e == |s| || (!IsAsciiLetter(s[e]) && !(e + 1 < |s| && IsSpace(s[e]) && IsAsciiLetter(s[e + 1])))
    ensures MatchReference(s) == Some(MatchTail(s, |t.Text()|))
  {
    var n, g, w0 := |t.number|, |t.gap|, |t.words[0]|;
    TitleRuns(s, t);
    FirstWordRun(s, t);
    TitleParts(s, t);
    WordsEndJoin(s, n + g + w0, t.words[1..]);
    MatchReferenceAt(s, n, n + g, n + g + w0, |t.Text()|);
  }

  /** The match as a function of where the runs of the title end. */
  lemma MatchReferenceAt(s: string, d: nat, w: nat, l: nat, e: nat)
    requires d <= w < l <= e <= |s|
    requires RunEnd(s, 0, IsDigit) == d && RunEnd(s, d, IsSpace) == w && RunEnd(s, w, IsAsciiLetter) == l
    requires WordsEnd(s, l) == e
    ensures MatchReference(s) == Some(MatchTail(s, e))
  {
  }

  /** One space and a chapter number are read as the chapter; what follows
      is `rest`. */
  lemma TailChapter(s: string, e: nat, chapter: string, rest: string)
    requires chapter != [] && AllDigits(chapter)
    requires e <= |s| && s[e..] == " " + chapter + rest
    requires rest == [] || !IsDigit(rest[0])
    ensures var c := e + 1 + |chapter|;
            && c <= |s| && RunEnd(s, e, IsSpace) == e + 1 && RunEnd(s, e + 1, IsDigit) == c
            && s[e + 1..c] == chapter && s[c..] == rest
  {
    var c := e + 1 + |chapter|;
    var x := s[e..];
    assert s[e] == ' ' by { assert x[0] == s[e]; }
    forall k | e + 1 <= k < c ensures IsDigit(s[k]) {
      assert s[k] == x[k - e] == chapter[k - e - 1];
    }
    if c < |s| {
      assert s[c] == x[c - e] == rest[0];
    }
    RunEndIs(s, e, e + 1, IsSpace);
    RunEndIs(s, e + 1, c, IsDigit);
    assert s[e + 1..c] == x[1..1 + |chapter|];
    assert s[c..] == x[1 + |chapter|..];
  }

  /** A side letter, if any, then the verse text. */
  lemma TailSide(s: string, c: nat, side: Option<char>, verseText: string)
    requires side == None || side == Some('a') || side == Some('b')
    requires verseText == [] || verseText[0] == ':' || verseText[0] == '.'
    requires c <= |s| && s[c..] == (if side.Some? then [side.value] else []) + verseText
    ensures (c < |s| && (s[c] == 'a' || s[c] == 'b')) == side.Some?
    ensures side.Some? ==> s[c] == side.value
    ensures s[if side.Some? then c + 1 else c..] == verseText
  {
    var x := s[c..];
    if c < |s| {
      assert s[c] == x[0];
    }
    if side.Some? {
      assert s[c + 1..] == x[1..];
    }
  }

  /** The verse text, if any, is read back as the verse. */
  lemma TailVerse(s: string, v: nat, sep: char, verse: Option<Verse>)
    requires sep == ':' || sep == '.'
    requires verse.Some? ==> verse.value.WellFormed()
    requires v <= |s| && s[v..] == (if verse.Some? then [sep] + verse.value.Text() else [])
    ensures MatchVerse(s, v) == (if verse.Some? then Some(verse.value.Text()) else None)
  {
    if verse.Some? {
      var x := [sep] + verse.value.Text();
      assert HoldsAt(s, v, x) by {
        forall k | 0 <= k < |x| ensures s[v + k] == x[k] {
          assert s[v..][k] == s[v + k];
        }
      }
      VerseScan(s, v, sep, verse.value);
    }
  }

  /** A separator and a verse that end the input are read as the verse. */
  lemma VerseScan(s: string, v: nat, sep: char, verse: Verse)
    requires verse.WellFormed() && (sep == ':' || sep == '.')
    requires HoldsAt(s, v, [sep] + verse.Text()) && v + 1 + |verse.Text()| == |s|
    ensures MatchVerse(s, v) == Some(verse.Text())
  {
    HoldsAtSplit(s, v, [sep], verse.Text());
    assert s[v] == sep by { assert s[v + 0] == [sep][0]; }
    var f := verse.first;
    var a := v + 1 + |f|;
    var x := verse.Text();
    assert s[v + 1..|s|] == x;
    forall k | v + 1 <= k < a ensures IsDigit(s[k]) {
      assert s[k] == x[k - v - 1] == f[k - v - 1];
    }
    if verse.Single? {
      RunEndIs(s, v + 1, a, IsDigit);
    } else {
      var b := verse.last;
      assert s[a] == x[|f|] == '-';
      assert s[a + 1] == x[|f| + 1] == b[0];
      RunEndIs(s, v + 1, a, IsDigit);
      forall k | a + 1 <= k < |s| ensures IsDigit(s[k]) {
        assert s[k] == x[k - v - 1] == b[k - a - 1];
      }
      RunEndIs(s, a + 1, |s|, IsDigit);
    }
  }

  /** The tail as a function of where the chapter ends. */
  lemma MatchTailAt(s: string, e: nat, c: nat)
    requires e + 1 < c <= |s|
    requires RunEnd(s, e, IsSpace) == e + 1 && RunEnd(s, e + 1, IsDigit) == c
    ensures var ab := c < |s| && (s[c] == 'a' || s[c] == 'b');
            MatchTail(s, e) == Captures(s[..e], Some(s[e + 1..c]), if ab then Some([s[c]]) else None,
                                        MatchVerse(s, if ab then c + 1 else c))
  {
  }

  /** The tail is read back from where its runs end, the side and the
      verse. */
  lemma MatchTailText(s: string, e: nat, c: nat, chapter: string, side: Option<char>, verse: Option<string>)
    requires chapter != [] && c == e + 1 + |chapter| && c <= |s|
    requires && RunEnd(s, e, IsSpace) == e + 1 && RunEnd(s, e + 1, IsDigit) == c && s[e + 1..c] == chapter
             && (c < |s| && (s[c] == 'a' || s[c] == 'b')) == side.Some?
             && (side.Some? ==> s[c] == side.value)
             && MatchVerse(s, if side.Some? then c + 1 else c) == verse
    ensures MatchTail(s, e) == Captures(s[..e], Some(chapter), if side.Some? then Some([side.value]) else None, verse)
  {
    MatchTailAt(s, e, c);
  }

  /** Reading a reference written in the pattern's shape gives back its
      parts: the title, the chapter, the side and the verse, whichever
      separator precedes the verse. */
  lemma MatchReferenceText(t: Title, chapter: string, side: Option<char>, sep: char, verse: Option<Verse>)
    requires t.WellFormed()
    requires chapter != [] && AllDigits(chapter)
    requires side == None || side == Some('a') || side == Some('b')
    requires sep == ':' || sep == '.'
    requires verse.Some? ==> verse.value.WellFormed()
    ensures MatchReference(ReferenceText(t, chapter, side, sep, verse))
         == Some(Captures(t.Text(), Some(chapter),
                          if side.Some? then Some([side.value]) else None,
                          if verse.Some? then Some(verse.value.Text()) else None))
  {
    var s := ReferenceText(t, chapter, side, sep, verse);
    var T := t.Text();
    var tail := TailText(chapter, side, sep, verse);
    assert tail[0] == ' ' && tail[1] == chapter[0];
    TitleRead(s, t, tail);
    assert s[|T|..] == tail && s[..|T|] == T;
    TailRead(s, |T|, chapter, side, sep, verse);
  }

  /** A title followed by a space and a chapter digit is read as the title. */
  lemma TitleRead(s: string, t: Title, tail: string)
    requires t.WellFormed() && s == t.Text() + tail && |tail| >= 2 && tail[0] == ' ' && IsDigit(tail[1])
    ensures MatchReference(s) == Some(MatchTail(s, |t.Text()|))
  {
    TitleBeforeChapter(s, t.Text(), tail);
    TitleScan(s, t);
  }

  /** A tail written in the pattern's shape is read back as written. */
  lemma TailRead(s: string, e: nat, chapter: string, side: Option<char>, sep: char, verse: Option<Verse>)
    requires chapter != [] && AllDigits(chapter)
    requires side == None || side == Some('a') || side == Some('b')
    requires sep == ':' || sep == '.'
    requires verse.Some? ==> verse.value.WellFormed()
    requires e <= |s| && s[e..] == TailText(chapter, side, sep, verse)
    ensures MatchTail(s, e) == Captures(s[..e], Some(chapter), if side.Some? then Some([side.value]) else None,
                                        if verse.Some? then Some(verse.value.Text()) else None)
  {
    var sideText: string := if side.Some? then [side.value] else [];
    var verseText: string := if verse.Some? then [sep] + verse.value.Text() else [];
    assert s[e..] == " " + chapter + (sideText + verseText);
    TailChapter(s, e, chapter, sideText + verseText);
    var c := e + 1 + |chapter|;
    TailSide(s, c, side, verseText);
    TailVerse(s, if side.Some? then c + 1 else c, sep, verse);
    MatchTailText(s, e, c, chapter, side, if verse.Some? then Some(verse.value.Text()) else None);
  }

  /** A title followed by a space and a digit ends where the title group
      stops. */
  lemma TitleBeforeChapter(s: string, T: string, tail: string)
    requires s == T + tail && |tail| >= 2 && tail[0] == ' ' && IsDigit(tail[1])
    ensures HoldsAt(s, 0, T) && HoldsAt(s, |T|, tail)
    ensures |T| + 1 < |s| && s[|T|] == ' ' && IsDigit(s[|T| + 1])
  {
    HoldsWhole(s);
    HoldsAtSplit(s, 0, T, tail);
    assert s[|T| + 0] == tail[0];
    assert s[|T| + 1] == tail[1];
  }

  /** A well-formed title has no white space at either end. */
  lemma TitleEnds(t: Title)
    requires t.WellFormed() && (t.number != [] || t.gap == [])
    ensures !IsSpace(t.Text()[0]) && IsAsciiLetter(t.Text()[|t.Text()| - 1])
  {
    var w := t.words[0];
    var J := Join(t.words[1..]);
    var front := t.number + t.gap + w;
    assert Word(w);
    assert t.Text() == front + J;
    if t.number != [] {
      assert front[0] == t.number[0];
    } else {
      assert front[0] == w[0];
    }
    if J == [] {
      assert front[|front| - 1] == w[|w| - 1];
    } else {
      var c := LastWord(t.words[1..]);
      assert (front + J)[|front| + |J| - 1] == J[|J| - 1];
    }
  }

  /** The last character of a non-empty joined word list is a letter. */
  function LastWord(ws: seq<string>): (c: char)
    requires ws != [] && forall k :: 0 <= k < |ws| ==> Word(ws[k])
    ensures IsAsciiLetter(c)
    ensures Join(ws)[|Join(ws)| - 1] == c
  {
    assert Word(ws[0]);
    if |ws| == 1 then
      assert Join(ws) == " " + ws[0];
      ws[0][|ws[0]| - 1]
    else
      assert Join(ws) == " " + ws[0] + Join(ws[1..]);
      LastWord(ws[1..])
  }

  /** Reading such a reference resolves the title through the alias table,
      keeps the chapter, side and verse, writes the verse after ':' even when
      it was given after '.', and calls it large exactly when it has no verse
      or a range of more than ten verses. */
  lemma ExtractReferenceInText(table: seq<BookEntry>, t: Title, chapter: string, side: Option<char>, sep: char, verse: Option<Verse>)
    requires t.WellFormed()
    requires t.number != [] || t.gap == []
    requires chapter != [] && AllDigits(chapter)
    requires side == None || side == Some('a') || side == Some('b')
    requires sep == ':' || sep == '.'
    requires verse.Some? ==> verse.value.WellFormed()
    ensures var r := ExtractReferenceIn(table, ReferenceText(t, chapter, side, sep, verse));
            var book := BookNameIn(table, t.Text());
            && r.book == Some(book)
            && r.chapter == Some(chapter)
            && r.side == (if side.Some? then Some([side.value]) else None)
            && r.verse == (if verse.Some? then Some(verse.value.Text()) else None)
            && r.valid == (book != [])
            && r.reference == book + TailText(chapter, side, ':', verse)
            && r.largeReference == (verse.None? || (verse.value.Range? && DecimalValue(verse.value.last) - DecimalValue(verse.value.first) > 10))
  {
    var title := t.Text();
    var sides := if side.Some? then Some([side.value]) else None;
    var verses := if verse.Some? then Some(verse.value.Text()) else None;
    MatchReferenceText(t, chapter, side, sep, verse);
    TitleEnds(t);
    StripUnchanged(title);
    ExtractFromMatch(table, ReferenceText(t, chapter, side, sep, verse), title, Some(chapter), sides, verses);
    FormatReferenceText(BookNameIn(table, title), chapter, side, verse);
    assert IsLargeVerse(verses) == (verse.None? || (verse.value.Range? && DecimalValue(verse.value.last) - DecimalValue(verse.value.first) > 10)) by {
      if verse.Some? {
        LargeVerseText(verse.value);
      }
    }
  }

  /** The parsed reference of an input whose match is known. */
  lemma ExtractFromMatch(table: seq<BookEntry>, s: string, title: string, chapter: Option<string>, side: Option<string>, verse: Option<string>)
    requires MatchReference(s) == Some(Captures(title, chapter, side, verse)) && Strip(title) == title
    ensures var book := BookNameIn(table, title);
            ExtractReferenceIn(table, s)
              == ParsedReference(Some(book), chapter, verse, side, FormatReference(Some(book), chapter, side, verse),
                                 book != [] && Truthy(chapter), IsLargeVerse(verse))
  {
  }

  /** The formatted reference writes the verse after ':'. */
  lemma FormatReferenceText(book: string, chapter: string, side: Option<char>, verse: Option<Verse>)
    requires chapter != []
    requires verse.Some? ==> verse.value.WellFormed()
    ensures FormatReference(Some(book), Some(chapter), if side.Some? then Some([side.value]) else None,
                            if verse.Some? then Some(verse.value.Text()) else None)
         == book + TailText(chapter, side, ':', verse)
  {
  }

  /** The large-reference rule on a written verse. */
  lemma LargeVerseText(v: Verse)
    requires v.WellFormed()
    ensures IsLargeVerse(Some(v.Text())) == (v.Range? && DecimalValue(v.last) - DecimalValue(v.first) > 10)
  {
    var x := v.Text();
    var k := |v.first|;
    if v.Single? {
      assert forall j :: 0 <= j < |x| ==> x[j] != '-';
    } else {
      assert x[k] == '-';
      assert IndexOf(x, '-') == k by {
        var j := IndexOf(x, '-');
        assert forall j' :: 0 <= j' < k ==> x[j'] == v.first[j'];
      }
      assert x[..k] == v.first && x[k + 1..] == v.last;
    }
  }

  /** The large-reference rule on examples: "1-11" spans eleven verses and
      is not large, "1-12" is, a reversed range never is, nor is a single
      verse; a chapter without a verse is. */
  lemma LargeVerseExamples()
    ensures !IsLargeVerse(Some("1-11"))
    ensures IsLargeVerse(Some("1-12"))
    ensures !IsLargeVerse(Some("10-5"))
    ensures !IsLargeVerse(Some("7"))
    ensures IsLargeVerse(None)
  {
    assert IndexOf("1-11", '-') == 1 && "1-11"[..1] == "1" && "1-11"[2..] == "11";
    assert DecimalValue("11") == 11;
    assert IndexOf("1-12", '-') == 1 && "1-12"[..1] == "1" && "1-12"[2..] == "12";
    assert DecimalValue("12") == 12;
    assert IndexOf("10-5", '-') == 2 && "10-5"[..2] == "10" && "10-5"[3..] == "5";
    assert DecimalValue("10") == 10;
  }

  /** Inputs that start with ":" or with a number that no letter follows do
      not match, and give the all-empty result. */
  lemma NoMatchExamples(table: seq<BookEntry>)
    ensures ExtractReferenceIn(table, ":3") == ParsedReference(None, None, None, None, "None", false, false)
    ensures ExtractReferenceIn(table, "12 3") == ParsedReference(None, None, None, None, "None", false, false)
  {
    var s := ":3";
    RunEndIs(s, 0, 0, IsDigit);
    RunEndIs(s, 0, 0, IsSpace);
    RunEndIs(s, 0, 0, IsAsciiLetter);
    var u := "12 3";
    RunEndIs(u, 0, 2, IsDigit);
    RunEndIs(u, 2, 3, IsSpace);
    RunEndIs(u, 3, 3, IsAsciiLetter);
  }

  /** Reading back the formatted reference of such an input keeps the
      chapter, side and verse, and looks the resolved book name up once more;
      so the result is stable whenever the table maps a resolved name to
      itself. */
  lemma ReparseReference(table: seq<BookEntry>, t: Title, resolved: Title, chapter: string, side: Option<char>, sep: char, verse: Option<Verse>)
    requires t.WellFormed() && (t.number != [] || t.gap == [])
    requires resolved.WellFormed() && (resolved.number != [] || resolved.gap == [])
    requires resolved.Text() == BookNameIn(table, t.Text())
    requires chapter != [] && AllDigits(chapter)
    requires side == None || side == Some('a') || side == Some('b')
    requires sep == ':' || sep == '.'
    requires verse.Some? ==> verse.value.WellFormed()
    ensures var r := ExtractReferenceIn(table, ReferenceText(t, chapter, side, sep, verse));
            var again := ExtractReferenceIn(table, r.reference);
            && r.book == Some(resolved.Text())
            && again.book == Some(BookNameIn(table, resolved.Text()))
            && again.chapter == r.chapter && again.side == r.side && again.verse == r.verse
            && again.largeReference == r.largeReference
            && (BookNameIn(table, resolved.Text()) == resolved.Text() ==> again == r)
  {
    ExtractReferenceInText(table, t, chapter, side, sep, verse);
    ExtractReferenceInText(table, resolved, chapter, side, ':', verse);
  }
}
