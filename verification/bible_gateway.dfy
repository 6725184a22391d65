/**
 * `BibleData.convert_version` (sources/biblegateway.py): converting between
 * the short code of a Bible version ("KJV") and its long name ("King James
 * Version (KJV)"). The `versions` dictionary is a list of (code, name) pairs
 * in declaration order; its codes are distinct, as a dictionary's keys are.
 *
 * `get_books` of the same class returns the 84 titles of
 * `BookTable.BibleBooksList`, which it declares again in the same order.
 */
module BibleGateway {
  import opened Wrappers
  import opened Text

  type VersionTable = seq<(string, string)>

  /** The `versions` dictionary. */
  const Versions: VersionTable := [
    ("KJ21", "21st Century King James Version (KJ21)"),
    ("ASV", "American Standard Version (ASV)"),
    ("AMP", "Amplified Bible (AMP)"),
    ("AMPC", "Amplified Bible, Classic Edition (AMPC)"),
    ("BRG", "BRG Bible (BRG)"),
    ("CSB", "Christian Standard Bible (CSB)"),
    ("CEB", "Common English Bible (CEB)"),
    ("CJB", "Complete Jewish Bible (CJB)"),
    ("CEV", "Contemporary English Version (CEV)"),
    ("DARBY", "Darby Translation (DARBY)"),
    ("DLNT", "Disciples\U{2019} Literal New Testament (DLNT)"),
    ("DRA", "Douay-Rheims 1899 American Edition (DRA)"),
    ("ERV", "Easy-to-Read Version (ERV)"),
    ("EASY", "EasyEnglish Bible (EASY)"),
    ("EHV", "Evangelical Heritage Version (EHV)"),
    ("ESV", "English Standard Version (ESV)"),
    ("ESVUK", "English Standard Version Anglicised (ESVUK)"),
    ("EXB", "Expanded Bible (EXB)"),
    ("GNV", "1599 Geneva Bible (GNV)"),
    ("GW", "GOD\U{2019}S WORD Translation (GW)"),
    ("GNT", "Good News Translation (GNT)"),
    ("HCSB", "Holman Christian Standard Bible (HCSB)"),
    ("ICB", "International Children\U{2019}s Bible (ICB)"),
    ("ISV", "International Standard Version (ISV)"),
    ("PHILLIPS", "J.B. Phillips New Testament (PHILLIPS)"),
    ("JUB", "Jubilee Bible 2000 (JUB)"),
    ("KJV", "King James Version (KJV)"),
    ("AKJV", "Authorized (King James) Version (AKJV)"),
    ("LSB", "Legacy Standard Bible (LSB)"),
    ("LEB", "Lexham English Bible (LEB)"),
    ("TLB", "Living Bible (TLB)"),
    ("MSG", "The Message (MSG)"),
    ("MEV", "Modern English Version (MEV)"),
    ("MOUNCE", "Mounce Reverse Interlinear New Testament (MOUNCE)"),
    ("NOG", "Names of God Bible (NOG)"),
    ("NABRE", "New American Bible (Revised Edition) (NABRE)"),
    ("NASB", "New American Standard Bible (NASB)"),
    ("NASB1995", "New American Standard Bible 1995 (NASB1995)"),
    ("NCB", "New Catholic Bible (NCB)"),
    ("NCV", "New Century Version (NCV)"),
    ("NET", "New English Translation (NET)"),
    ("NIRV", "New International Reader\'s Version (NIRV)"),
    ("NIV", "New International Version (NIV)"),
    ("NIVUK", "New International Version - UK (NIVUK)"),
    ("NKJV", "New King James Version (NKJV)"),
    ("NLV", "New Life Version (NLV)"),
    ("NLT", "New Living Translation (NLT)"),
    ("NMB", "New Matthew Bible (NMB)"),
    ("NRSVA", "New Revised Standard Version, Anglicised (NRSVA)"),
    ("NRSVACE", "New Revised Standard Version, Anglicised Catholic Edition (NRSVACE)"),
    ("NRSVCE", "New Revised Standard Version Catholic Edition (NRSVCE)"),
    ("NRSVUE", "New Revised Standard Version Updated Edition (NRSVUE)"),
    ("NTFE", "New Testament for Everyone (NTFE)"),
    ("OJB", "Orthodox Jewish Bible (OJB)"),
    ("RGT", "Revised Geneva Translation (RGT)"),
    ("RSV", "Revised Standard Version (RSV)"),
    ("RSVCE", "Revised Standard Version Catholic Edition (RSVCE)"),
    ("TLV", "Tree of Life Version (TLV)"),
    ("VOICE", "The Voice (VOICE)"),
    ("WEB", "World English Bible (WEB)"),
    ("WE", "Worldwide English (New Testament) (WE)"),
    ("WYC", "Wycliffe Bible (WYC)"),
    ("YLT", "Young\'s Literal Translation (YLT)")
  ]

  /** `version in self.versions`, with the position of the entry. */
  function KeyIndex(table: VersionTable, version: string): (k: nat)
    ensures k <= |table|
    ensures k < |table| ==> table[k].0 == version
    ensures forall j :: 0 <= j < k ==> table[j].0 != version
  {
    if table == [] || table[0].0 == version then 0 else 1 + KeyIndex(table[1..], version)
  }

  /** The first entry whose long name equals `version` ignoring case. */
  function LongNameIndex(table: VersionTable, version: string): (k: nat)
    ensures k <= |table|
    ensures k < |table| ==> Lower(table[k].1) == Lower(version)
    ensures forall j :: 0 <= j < k ==> Lower(table[j].1) != Lower(version)
  {
    if table == [] || Lower(version) == Lower(table[0].1) then 0 else 1 + LongNameIndex(table[1..], version)
  }

  /** `convert_version` over `table`: the long name of a code, else the code
      of the first long name equal ignoring case, else `None`. */
  function ConvertIn(table: VersionTable, version: string): (r: Option<string>)
    ensures r.None? <==>
              (forall j :: 0 <= j < |table| ==> table[j].0 != version && Lower(table[j].1) != Lower(version))
    ensures (exists j :: 0 <= j < |table| && table[j].0 == version) ==>
              r.Some? && exists j :: 0 <= j < |table| && table[j].0 == version && r.value == table[j].1
  {
    var k := KeyIndex(table, version);
    if k < |table| then Some(table[k].1)
    else
      var m := LongNameIndex(table, version);
      if m < |table| then Some(table[m].0) else None
  }

  /** `convert_version(version)`. */
  function ConvertVersion(version: string): Option<string> {
    ConvertIn(Versions, version)
  }

  /** A code maps to its own entry's long name when codes are distinct. */
  lemma ConvertCode(table: VersionTable, i: nat)
    requires i < |table|
    requires forall j, k :: 0 <= j < k < |table| ==> table[j].0 != table[k].0
    ensures ConvertIn(table, table[i].0) == Some(table[i].1)
  {
    var k := KeyIndex(table, table[i].0);
  }

  /** A string that is no code maps to the code of the first entry whose long
      name it equals ignoring case. */
  lemma ConvertLongName(table: VersionTable, version: string, i: nat)
    requires i < |table| && Lower(table[i].1) == Lower(version)
    requires forall j :: 0 <= j < i ==> Lower(table[j].1) != Lower(version)
    requires forall j :: 0 <= j < |table| ==> table[j].0 != version
    ensures ConvertIn(table, version) == Some(table[i].0)
  {
    var m := LongNameIndex(table, version);
  }

  /** What the round trip needs of a table: distinct codes, no long name
      that is also a code, and long names distinct ignoring case. */
  ghost predicate WellFormed(table: VersionTable) {
    && (forall j, k :: 0 <= j < k < |table| ==> table[j].0 != table[k].0)
    && (forall j, k :: 0 <= j < |table| && 0 <= k < |table| ==> table[j].1 != table[k].0)
    && (forall j, k :: 0 <= j < k < |table| ==> Lower(table[j].1) != Lower(table[k].1))
  }

  /** Converting a code twice gives the code back, and converting a long
      name (in any ASCII case) twice gives its long name. */
  lemma RoundTrip(table: VersionTable, i: nat)
    requires WellFormed(table) && i < |table|
    ensures ConvertIn(table, table[i].0) == Some(table[i].1)
    ensures ConvertIn(table, table[i].1) == Some(table[i].0)
    ensures ConvertIn(table, ConvertIn(table, table[i].0).value) == Some(table[i].0)
  {
    ConvertCode(table, i);
    ConvertLongName(table, table[i].1, i);
  }

  /** Matching long names is case-insensitive: any string with the same
      lower-case form converts alike, as long as it is no code. */
  lemma ConvertIgnoresCase(table: VersionTable, version: string, other: string)
    requires Lower(version) == Lower(other)
    requires forall j :: 0 <= j < |table| ==> table[j].0 != version && table[j].0 != other
    ensures ConvertIn(table, version) == ConvertIn(table, other)
  {
    LongNamesAgree(table, version, other);
  }

  lemma {:induction false} LongNamesAgree(table: VersionTable, version: string, other: string)
    requires Lower(version) == Lower(other)
    ensures LongNameIndex(table, version) == LongNameIndex(table, other)
    decreases |table|
  {
    if table != [] {
      LongNamesAgree(table[1..], version, other);
    }
  }
}
