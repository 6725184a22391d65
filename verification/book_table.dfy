/**
 * The book-name alias table of `BibleBooks` and its lookup `get_book_name`
 * (helpers/helpers.py).
 *
 * Each entry names a book and the abbreviations that resolve to it. Lookup
 * compares the whole reference with every abbreviation, ignoring case, in
 * table order, and the first entry that lists it wins; a reference no entry
 * lists comes back unchanged. Canonical book names are not consulted.
 */
module BookTable {
  import opened Text

  datatype BookEntry = BookEntry(book: string, abbreviations: seq<string>)

  /** Entries from Genesis to Jude, in source order, in three parts. */
  const CanonEntries: seq<BookEntry> := HistoryEntries + ProphetsEntries + NewTestamentEntries

  /** Genesis to Esther. */
  const HistoryEntries: seq<BookEntry> := [
    BookEntry("Genesis", ["Gen", "Ge", "Gn"]),
    BookEntry("Exodus", ["Exod", "Ex", "Exo"]),
    BookEntry("Leviticus", ["Lev", "Lv", "Le"]),
    BookEntry("Numbers", ["Num", "Nu", "Nm", "Nb"]),
    BookEntry("Deuteronomy", ["Deut", "Dt", "De"]),
    BookEntry("Joshua", ["Josh", "Jos", "Jsh"]),
    BookEntry("Judges", ["Judg", "Jdg", "Jdgs", "Jg"]),
    BookEntry("Ruth", ["Ruth", "Ru", "Rth"]),
    BookEntry("1 Samuel", ["1 Sam", "1 Sm", "1 Sa", "I Sam", "I Sa", "I Sm", "First Samuel", "First Sam"]),
    BookEntry("2 Samuel", [
      "2 Sam", "2 Sm", "2 Sa", "II Sam", "II Sa", "II Sm", "Second Samuel", "Second Sam"]),
    BookEntry("1 Kings", [
      "1 Kings", "1 Kgs", "1 Ki", "1Kgs", "1Kin", "1Ki", "1K", "I Kgs", "I Ki", "1st Kings", "1st Kgs",
      "First Kings", "First Kgs"]),
    BookEntry("2 Kings", [
      "2 Kings", "2 Kgs", "2 Ki", "2Kgs", "2Kin", "2Ki", "2K", "II Kgs", "II Ki", "2nd Kings", "2nd Kgs",
      "Second Kings", "Second Kgs"]),
    BookEntry("1 Chronicles", [
      "1 Chron", "1 Chr", "1 Ch", "1Chron", "1Chr", "1Ch", "I Chron", "I Chr", "I Ch", "1st Chronicles",
      "1st Chron", "First Chronicles", "First Chron"]),
    BookEntry("2 Chronicles", [
      "2 Chron", "2 Chr", "2 Ch", "2Chron", "2Chr", "2Ch", "II Chron", "II Chr", "II Ch", "2nd Chronicles",
      "2nd Chron", "Second Chronicles", "Second Chron"]),
    BookEntry("Ezra", ["Ez", "Ezr"]),
    BookEntry("Nehemiah", ["Neh", "Ne"]),
    BookEntry("Esther", ["Esth", "Est", "Es"])
  ]

  /** Job to Malachi. */
  const ProphetsEntries: seq<BookEntry> := [
    BookEntry("Job", ["Jb"]),
    BookEntry("Psalms", ["Ps", "Psa", "Psm", "Pss", "Psalm", "Pslm"]),
    BookEntry("Proverbs", ["Prov", "Prv", "Pr", "Pro"]),
    BookEntry("Ecclesiastes", ["Eccles", "Eccle", "Eccl", "Ecc", "Qoheleth", "Qoh"]),
    BookEntry("Song of Songs", [
      "Song", "SoS", "Song of Solomon", "So", "Canticles", "Canticle of Canticles", "Cant"]),
    BookEntry("Isaiah", ["Isa", "Is"]),
    BookEntry("Jeremiah", ["Jer", "Je", "Jr"]),
    BookEntry("Lamentations", ["Lam", "La", "Lament"]),
    BookEntry("Ezekiel", ["Ezek", "Eze", "Ezk"]),
    BookEntry("Daniel", ["Dan", "Dn", "Da"]),
    BookEntry("Hosea", ["Hos", "Ho"]),
    BookEntry("Joel", ["Jl"]),
    BookEntry("Amos", ["Am"]),
    BookEntry("Obadiah", ["Obad", "Ob"]),
    BookEntry("Jonah", ["Jon", "Jnh"]),
    BookEntry("Micah", ["Mic", "Mc"]),
    BookEntry("Nahum", ["Nah", "Na"]),
    BookEntry("Habakkuk", ["Hab", "Hb"]),
    BookEntry("Zephaniah", ["Zeph", "Zep", "Zp"]),
    BookEntry("Haggai", ["Hag", "Hg"]),
    BookEntry("Zechariah", ["Zech", "Zec", "Zc"]),
    BookEntry("Malachi", ["Mal", "Ml"])
  ]

  /** Matthew to Jude (Colossians is listed twice), in two parts. */
  const NewTestamentEntries: seq<BookEntry> := GospelsToColossiansEntries + ThessaloniansToJudeEntries

  /** Matthew to Colossians. */
  const GospelsToColossiansEntries: seq<BookEntry> := [
    BookEntry("Matthew", ["Matt", "Mt"]),
    BookEntry("Mark", ["Mar", "Mk", "Mrk", "Mr"]),
    BookEntry("Luke", ["Lk", "L"]),
    BookEntry("John", ["Jn", "Jhn", "Joh"]),
    BookEntry("Acts", ["Ac", "Act"]),
    BookEntry("Romans", ["Rom", "Ro", "Rm"]),
    BookEntry("1 Corinthians", [
      "1 Cor", "1 Co", "I Cor", "I Co", "1Cor", "1Co", "I Corinthians", "1Corinthians", "1st Corinthians",
      "First Corinthians"]),
    BookEntry("2 Corinthians", [
      "2 Cor", "2 Co", "II Cor", "II Co", "2Cor", "2Co", "II Corinthians", "2Corinthians",
      "2nd Corinthians", "Second Corinthians"]),
    BookEntry("Galatians", ["Gal", "Ga"]),
    BookEntry("Ephesians", ["Eph", "Ep", "Ephes"]),
    BookEntry("Philippians", ["Phil", "Php", "Phl", "Pp"]),
    BookEntry("Colossians", ["Col", "Cl"]),
    BookEntry("Colossians", ["Col", "Cl"])
  ]

  /** 1 Thessalonians to Jude. */
  const ThessaloniansToJudeEntries: seq<BookEntry> := [
    BookEntry("1 Thessalonians", [
      "1 Thess", "1 Thes", "1 Th", "I Thessalonians", "I Thess", "I Thes", "I Th", "1Thessalonians",
      "1Thess", "1Thes", "1Th", "1st Thessalonians", "1st Thess", "First Thessalonians", "First Thess"]),
    BookEntry("2 Thessalonians", [
      "2 Thess", "2 Thes", "2 Th", "II Thessalonians", "II Thess", "II Thes", "II Th", "2Thessalonians",
      "2Thess", "2Thes", "2Th", "2nd Thessalonians", "2nd Thess", "Second Thessalonians", "Second Thess"]),
    BookEntry("1 Timothy", [
      "1 Tim", "1 Ti", "I Timothy", "I Tim", "I Ti", "1Timothy", "1Tim", "1Ti", "1st Timothy", "1st Tim",
      "First Timothy", "First Tim"]),
    BookEntry("2 Timothy", [
      "2 Tim", "2 Ti", "II Timothy", "II Tim", "II Ti", "2Timothy", "2Tim", "2Ti", "2nd Timothy",
      "2nd Tim", "Second Timothy", "Second Tim"]),
    BookEntry("Titus", ["Titus", "Tit", "ti"]),
    BookEntry("Philemon", ["Philem", "Phm", "Pm"]),
    BookEntry("Hebrews", ["Heb"]),
    BookEntry("James", ["James", "Jas", "Jm"]),
    BookEntry("1 Peter", [
      "1 Pet", "1 Pe", "1 Pt", "1 P", "I Pet", "I Pt", "I Pe", "1Peter", "1Pet", "1Pe", "1Pt", "1P",
      "I Peter", "1st Peter", "First Peter"]),
    BookEntry("2 Peter", [
      "2 Pet", "2 Pe", "2 Pt", "2 P", "II Peter", "II Pet", "II Pt", "II Pe", "2Peter", "2Pet", "2Pe",
      "2Pt", "2P", "2nd Peter", "Second Peter"]),
    BookEntry("1 John", [
      "1 John", "1 Jhn", "1 Jn", "1 J", "1John", "1Jhn", "1Joh", "1Jn", "1Jo", "1J", "I John", "I Jhn",
      "I Joh", "I Jn", "I Jo", "1st John", "First John"]),
    BookEntry("2 John", [
      "2 John", "2 Jhn", "2 Jn", "2 J", "2John", "2Jhn", "2Joh", "2Jn", "2Jo", "2J", "II John", "II Jhn",
      "II Joh", "II Jn", "II Jo", "2nd John", "Second John"]),
    BookEntry("3 John", [
      "3 John", "3 Jhn", "3 Jn", "3 J", "3John", "3Jhn", "3Joh", "3Jn", "3Jo", "3J", "III John", "III Jhn",
      "III Joh", "III Jn", "III Jo", "3rd John", "Third John"]),
    BookEntry("Jude", ["Jude", "Jud", "Jd"])
  ]

  /** Entries from Revelation to the Epistle to the Laodiceans. The source
      lists this block twice in a row, unchanged. */
  const RepeatedEntries: seq<BookEntry> := [
    BookEntry("Revelation", ["Rev", "Re", "The Revelation"]),
    BookEntry("Tobit", ["Tob", "Tb"]),
    BookEntry("Judith", ["Jth", "Jdth", "Jdt"]),
    BookEntry("Additions to Esther", [
      "Add Esth", "Add Es", "Rest of Esther", "The Rest of Esther", "AEs", "AddEsth"]),
    BookEntry("Wisdom of Solomon", ["Wisd of Sol", "Wisdom", "Wis", "Ws"]),
    BookEntry("Sirach", ["Sir", "Ecclesiasticus"]),
    BookEntry("Ecclesiasticus", ["Ecclus"]),
    BookEntry("Baruch", ["Bar"]),
    BookEntry("Letter of Jeremiah", ["Ep Jer", "Let Jer", "Ltr Jer", "LJe"]),
    BookEntry("Song of Three Youths", [
      "Sg of 3 Childr", "Song of Three", "Song of Thr", "Song Thr", "The Song of Three Youths",
      "The Song of the Three Holy Children", "Song of the Three Holy Children", "Song of Three Children",
      "The Song of Three Jews", "Song of Three Jews", "Prayer of Azariah", "Azariah", "Pr Az"]),
    BookEntry("Susanna", ["Sus"]),
    BookEntry("Bel and the Dragon", ["Bel"]),
    BookEntry("1 Maccabees", [
      "1 Macc", "1 Mac", "1Maccabees", "1Macc", "1Mac", "1Ma", "1M", "I Maccabees", "I Macc", "I Mac",
      "I Ma", "1st Maccabees", "First Maccabees"]),
    BookEntry("2 Maccabees", [
      "2 Macc", "2 Mac", "2Maccabees", "2Macc", "2Mac", "2Ma", "2M", "II Maccabees", "II Macc", "II Mac",
      "II Ma", "2nd Maccabees", "Second Maccabees"]),
    BookEntry("3 Maccabees", [
      "3 Macc", "3 Mac", "3Maccabees", "3Macc", "3Mac", "3Ma", "3M", "III Maccabees", "III Macc",
      "III Mac", "III Ma", "3rd Maccabees", "Third Maccabees"]),
    BookEntry("4 Maccabees", [
      "4 Macc", "4 Mac", "4Maccabees", "4Macc", "4Mac", "4Ma", "4M", "IV Maccabees", "IV Macc", "IV Mac",
      "IV Ma", "4th Maccabees", "Fourth Maccabees"]),
    BookEntry("1 Esdras", [
      "1 Esd", "1 Esdr", "1Esdras", "1Esdr", "1Esd", "1Es", "I Esdras", "I Esdr", "I Esd", "I Es",
      "1st Esdras", "First Esdras"]),
    BookEntry("2 Esdras", [
      "2 Esd", "2 Esdr", "2Esdras", "2Esdr", "2Esd", "2Es", "II Esdras", "II Esdr", "II Esd", "II Es",
      "2nd Esdras", "Second Esdras"]),
    BookEntry("Prayer of Manasseh", ["Pr of Man", "Pr of Man", "PMa", "Prayer of Manasses"]),
    BookEntry("Additional Psalm", ["Add Psalm", "Add Ps"]),
    BookEntry("Ode", ["Ode"]),
    BookEntry("Psalms of Solomon", ["Ps Solomon", "Ps Sol", "Psalms Solomon", "PsSol"]),
    BookEntry("Epistle to the Laodiceans", [
      "Ep Lao", "Epistle to Laodiceans", "Epistle Laodiceans", "Epist Laodiceans", "Ep Laod", "Laodiceans",
      "Laod"])
  ]

  /** `bible_books`, exactly as the source lists it. */
  const BibleBooks: seq<BookEntry> := CanonEntries + RepeatedEntries + RepeatedEntries

  /** `bible_books_list`: the canonical titles in declaration order. */
  const BibleBooksList: seq<string> := [
    "Genesis", "Exodus", "Leviticus", "Numbers", "Deuteronomy", "Joshua", "Judges", "Ruth",
    "1 Samuel", "2 Samuel", "1 Kings", "2 Kings", "1 Chronicles", "2 Chronicles", "Ezra",
    "Nehemiah", "Esther", "Job", "Psalm", "Proverbs", "Ecclesiastes", "Song of Songs", "Isaiah",
    "Jeremiah", "Lamentations", "Ezekiel", "Daniel", "Hosea", "Joel", "Amos", "Obadiah", "Jonah",
    "Micah", "Nahum", "Habakkuk", "Zephaniah", "Haggai", "Zechariah", "Malachi", "Matthew", "Mark",
    "Luke", "John", "Acts", "Romans", "1 Corinthians", "2 Corinthians", "Galatians", "Ephesians",
    "Philippians", "Colossians", "1 Thessalonians", "2 Thessalonians", "1 Timothy", "2 Timothy",
    "Titus", "Philemon", "Hebrews", "James", "1 Peter", "2 Peter", "1 John", "2 John", "3 John",
    "Jude", "Revelation", "Tobit", "Judith", "Greek Esther", "Wisdom of Solomon", "Sirach",
    "Baruch", "Letter of Jeremiah", "Prayer of Azariah", "Susanna", "Bel and the Dragon",
    "1 Maccabees", "2 Maccabees", "1 Esdras", "Prayer of Manasseh", "Psalm 151", "3 Maccabees",
    "2 Esdras", "4 Maccabees"
  ]

  /** `reference.lower() in [abbr.lower() for abbr in abbreviations]`. */
  predicate Owns(entry: BookEntry, reference: string) {
    Lower(reference) in LowerAll(entry.abbreviations)
  }

  /** Entry `k` lists `reference` and no entry before it does. */
  ghost predicate FirstOwnerAt(table: seq<BookEntry>, reference: string, k: int) {
    && 0 <= k < |table|
    && Owns(table[k], reference)
    && forall j :: 0 <= j < k ==> !Owns(table[j], reference)
  }

  ghost predicate NoOwner(table: seq<BookEntry>, reference: string) {
    forall j :: 0 <= j < |table| ==> !Owns(table[j], reference)
  }

  /** The search loop of `get_book_name`, over any table: the (stripped) book
      of some entry that lists the reference, or the reference itself. Which
      entry is `BookNameInFirstOwner`. */
  function BookNameIn(table: seq<BookEntry>, reference: string): (r: string)
    ensures r == reference || exists k :: 0 <= k < |table| && Owns(table[k], reference) && r == Strip(table[k].book)
  {
    if table == [] then reference
    else if Owns(table[0], reference) then Strip(table[0].book)
    else
      var r := BookNameIn(table[1..], reference);
      assert r == reference || exists k :: 1 <= k < |table| && Owns(table[k], reference) && r == Strip(table[k].book) by {
        if r != reference {
          var k :| 0 <= k < |table[1..]| && Owns(table[1..][k], reference) && r == Strip(table[1..][k].book);
          assert table[k + 1] == table[1..][k];
        }
      }
      r
  }

  /** The first entry that lists the reference decides; with no such entry the
      reference is returned unchanged. */
  lemma {:induction false} BookNameInFirstOwner(table: seq<BookEntry>, reference: string)
    ensures forall k :: FirstOwnerAt(table, reference, k) ==> BookNameIn(table, reference) == Strip(table[k].book)
    ensures NoOwner(table, reference) ==> BookNameIn(table, reference) == reference
  {
    if table != [] && !Owns(table[0], reference) {
      BookNameInFirstOwner(table[1..], reference);
      forall k | FirstOwnerAt(table, reference, k)
        ensures BookNameIn(table, reference) == Strip(table[k].book)
      {
        assert FirstOwnerAt(table[1..], reference, k - 1) by {
          forall j | 0 <= j < k - 1 ensures !Owns(table[1..][j], reference) {
            assert table[1..][j] == table[j + 1];
          }
        }
      }
      if NoOwner(table, reference) {
        assert NoOwner(table[1..], reference) by {
          forall j | 0 <= j < |table[1..]| ensures !Owns(table[1..][j], reference) {
            assert table[1..][j] == table[j + 1];
          }
        }
      }
    }
  }

  /** Every entry of `b` either occurs in `a` or does not list the reference:
      then searching `a + b` is searching `a`. */
  lemma {:induction false} BookNameIgnoresRedundant(a: seq<BookEntry>, b: seq<BookEntry>, reference: string)
    requires forall i :: 0 <= i < |b| ==> b[i] in a || !Owns(b[i], reference)
    ensures BookNameIn(a + b, reference) == BookNameIn(a, reference)
  {
    if a == [] {
      assert a + b == b;
      NoOwnerNone(b, reference);
    } else {
      assert (a + b)[1..] == a[1..] + b;
      if !Owns(a[0], reference) {
        forall i | 0 <= i < |b| ensures b[i] in a[1..] || !Owns(b[i], reference) {
          if b[i] in a && Owns(b[i], reference) {
            var j :| 0 <= j < |a| && a[j] == b[i];
            assert j != 0;
            assert a[1..][j - 1] == b[i];
          }
        }
        BookNameIgnoresRedundant(a[1..], b, reference);
      }
    }
  }

  /** A table no entry of which lists the reference returns it unchanged. */
  lemma {:induction false} NoOwnerNone(table: seq<BookEntry>, reference: string)
    requires forall i :: 0 <= i < |table| ==> !Owns(table[i], reference)
    ensures BookNameIn(table, reference) == reference
  {
    if table != [] {
      NoOwnerNone(table[1..], reference);
    }
  }

  /** Every book of the table has a name that starts with a character other
      than white space. */
  ghost predicate NamedBooks(table: seq<BookEntry>) {
    forall k :: 0 <= k < |table| ==> table[k].book != [] && !IsSpace(table[k].book[0])
  }

  lemma NamedBooksAppend(a: seq<BookEntry>, b: seq<BookEntry>)
    requires NamedBooks(a) && NamedBooks(b)
    ensures NamedBooks(a + b)
  {
    forall k | 0 <= k < |a + b| ensures (a + b)[k].book != [] && !IsSpace((a + b)[k].book[0]) {
      if k >= |a| {
        assert (a + b)[k] == b[k - |a|];
      }
    }
  }

  lemma HistoryNamed()
    ensures NamedBooks(HistoryEntries)
  {
  }

  lemma ProphetsNamed()
    ensures NamedBooks(ProphetsEntries)
  {
  }

  lemma GospelsToColossiansNamed()
    ensures NamedBooks(GospelsToColossiansEntries)
  {
  }

  lemma ThessaloniansToJudeNamed()
    ensures NamedBooks(ThessaloniansToJudeEntries)
  {
  }

  lemma RepeatedNamed()
    ensures NamedBooks(RepeatedEntries)
  {
  }

  /** Over a table of named books a non-empty reference resolves to a
      non-empty name. */
  lemma BookNameInNamed(table: seq<BookEntry>, reference: string)
    requires NamedBooks(table) && reference != []
    ensures BookNameIn(table, reference) != []
  {
    var r := BookNameIn(table, reference);
    if r != reference {
      var k :| 0 <= k < |table| && Owns(table[k], reference) && r == Strip(table[k].book);
      StripKeepsNonSpace(table[k].book, 0);
    }
  }

  /** Every book of the source's table is named. */
  lemma BibleBooksNamed()
    ensures NamedBooks(BibleBooks)
  {
    HistoryNamed();
    ProphetsNamed();
    GospelsToColossiansNamed();
    ThessaloniansToJudeNamed();
    NamedBooksAppend(GospelsToColossiansEntries, ThessaloniansToJudeEntries);
    RepeatedNamed();
    NamedBooksAppend(HistoryEntries, ProphetsEntries);
    NamedBooksAppend(HistoryEntries + ProphetsEntries, NewTestamentEntries);
    NamedBooksAppend(CanonEntries, RepeatedEntries);
    NamedBooksAppend(CanonEntries + RepeatedEntries, RepeatedEntries);
  }

  /** `BibleBooks.get_book_name`: `BookNameIn` over the source's table. */
  function GetBookName(reference: string): string
  {
    BookNameIn(BibleBooks, reference)
  }

  /** Lookups answered by the first entry: "gen" and "GN" (case is ignored)
      resolve to "Genesis". */
  lemma GetBookNameGenesis()
    ensures GetBookName("gen") == "Genesis"
    ensures GetBookName("GN") == "Genesis"
  {
    assert BibleBooks[0] == HistoryEntries[0];
    GenesisFirst(BibleBooks);
  }

  /** A table that starts with the Genesis entry answers "gen" and "GN". */
  lemma GenesisFirst(table: seq<BookEntry>)
    requires table != [] && table[0] == BookEntry("Genesis", ["Gen", "Ge", "Gn"])
    ensures BookNameIn(table, "gen") == "Genesis"
    ensures BookNameIn(table, "GN") == "Genesis"
  {
    assert Lower("gen") == "gen" == LowerAll(table[0].abbreviations)[0];
    assert Lower("GN") == "gn" == LowerAll(table[0].abbreviations)[2];
    StripUnchanged("Genesis");
  }

  /** The repeated block of the table never changes a lookup: every answer
      comes from the first 89 entries. */
  lemma RepeatedBlockIrrelevant(reference: string)
    ensures GetBookName(reference) == BookNameIn(CanonEntries + RepeatedEntries, reference)
  {
    var a := CanonEntries + RepeatedEntries;
    forall i | 0 <= i < |RepeatedEntries| ensures RepeatedEntries[i] in a || !Owns(RepeatedEntries[i], reference) {
      assert RepeatedEntries[i] == a[|CanonEntries| + i];
    }
    BookNameIgnoresRedundant(a, RepeatedEntries, reference);
  }

  /** Lookup ignores the case of the reference. */
  lemma {:induction false} BookNameIgnoresCase(table: seq<BookEntry>, reference: string, other: string)
    requires Lower(reference) == Lower(other)
    ensures BookNameIn(table, reference) == BookNameIn(table, other) || (BookNameIn(table, reference) == reference && BookNameIn(table, other) == other)
  {
    if table != [] {
      assert Owns(table[0], reference) == Owns(table[0], other);
      BookNameIgnoresCase(table[1..], reference, other);
    }
  }

  /** `BibleBooks.get_books`: a fresh list of the canonical titles. */
  function GetBooks(): (r: seq<string>)
    ensures |r| == 84
    ensures r == BibleBooksList
  {
    BibleBooksList
  }
}
