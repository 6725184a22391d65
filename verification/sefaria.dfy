/**
 * The local logic of `SefariaAPI` (sources/sefaria.py): flattening the nested
 * lexicon senses and the nested text index, post-processing the fetched
 * version records, choosing the request parameters of a text lookup, and
 * stripping link tags from lexicon definitions.
 *
 * HTTP requests and the thread pool that issues them are not modelled: what
 * they return enters as a parameter (a list of fetched record lists, in the
 * order the requests completed, or a function from request to response).
 */
module Sefaria {
  import opened Wrappers
  import opened Text
  import opened FuzzyRanker
  import opened Reference
  import opened Pagination
  import Embeds

  // ---------------------------------------------------------------------
  // Lexicon senses.

  /** One item of a `senses` list: its `definition`, if it has one, and its
      nested `senses` (a missing key and an empty list behave alike). */
  datatype Sense = Sense(definition: Option<string>, senses: seq<Sense>)

  /** The definitions of `items` in pre-order: each item's own definition
      before those of its nested senses, siblings in list order. */
  function Definitions(items: seq<Sense>): (r: seq<string>)
    decreases items
  {
    if items == [] then [] else ItemDefinitions(items[0]) + Definitions(items[1..])
  }

  function ItemDefinitions(item: Sense): (r: seq<string>)
    decreases item
  {
    (if item.definition.Some? then [item.definition.value] else []) + Definitions(item.senses)
  }

  /** The definitions of a list are those of its parts, in order. */
  lemma {:induction false} DefinitionsAppend(a: seq<Sense>, b: seq<Sense>)
    ensures Definitions(a + b) == Definitions(a) + Definitions(b)
    decreases |a|
  {
    if a != [] {
      assert (a + b)[0] == a[0];
      assert (a + b)[1..] == a[1..] + b;
      DefinitionsAppend(a[1..], b);
      calc {
        Definitions(a + b);
        ItemDefinitions(a[0]) + Definitions(a[1..] + b);
        ItemDefinitions(a[0]) + (Definitions(a[1..]) + Definitions(b));
      }
    } else {
      assert a + b == b;
    }
  }

  /** One more item of the list contributes its own definitions. */
  lemma DefinitionsStep(senses: seq<Sense>, i: nat)
    requires i < |senses|
    ensures Definitions(senses[..i + 1]) == Definitions(senses[..i]) + ItemDefinitions(senses[i])
  {
    assert senses[..i + 1] == senses[..i] + [senses[i]];
    DefinitionsAppend(senses[..i], [senses[i]]);
    assert Definitions([senses[i]]) == ItemDefinitions(senses[i]);
  }

  /** An item without a definition adds nothing of its own, but its nested
      senses are still visited; an item with one puts it first. */
  lemma ItemDefinitionsShape(item: Sense)
    ensures item.definition.None? ==> ItemDefinitions(item) == Definitions(item.senses)
    ensures item.definition.Some? ==> ItemDefinitions(item) == [item.definition.value] + Definitions(item.senses)
  {
  }

  /** No item anywhere in the tree, at any depth, has a definition. */
  ghost predicate NoDefinitions(items: seq<Sense>)
    decreases items
  {
    forall i :: 0 <= i < |items| ==> items[i].definition.None? && NoDefinitions(items[i].senses)
  }

  lemma {:induction false} NoDefinitionsEmpty(items: seq<Sense>)
    requires NoDefinitions(items)
    ensures Definitions(items) == []
    decreases items
  {
    if items != [] {
      NoDefinitionsEmpty(items[0].senses);
      assert NoDefinitions(items[1..]) by {
        forall i | 0 <= i < |items[1..]| ensures items[1..][i].definition.None? && NoDefinitions(items[1..][i].senses) {
          assert items[1..][i] == items[i + 1];
        }
      }
      NoDefinitionsEmpty(items[1..]);
    }
  }

  /** The nested `extract_definitions`: appends the definitions of `senses`
      to those collected so far. */
  method ExtractDefinitions(senses: seq<Sense>, definitions: seq<string>) returns (out: seq<string>)
    ensures out == definitions + Definitions(senses)
    decreases senses
  {
    out := definitions;
    for i := 0 to |senses|
      invariant out == definitions + Definitions(senses[..i])
    {
      var item := senses[i];
      DefinitionsStep(senses, i);
      if item.definition.Some? {
        out := out + [item.definition.value];
      }
      out := ExtractItemSenses(item, out);
    }
    assert senses[..|senses|] == senses;
  }

  method ExtractItemSenses(item: Sense, definitions: seq<string>) returns (out: seq<string>)
    ensures out == definitions + Definitions(item.senses)
    decreases item
  {
    out := ExtractDefinitions(item.senses, definitions);
  }

  /** `flatten_definitions(definitions_dict=senses)`. */
  method FlattenDefinitions(senses: seq<Sense>) returns (definitions: seq<string>)
    ensures definitions == Definitions(senses)
  {
    definitions := ExtractDefinitions(senses, []);
  }

  // ---------------------------------------------------------------------
  // The text index.

  /** An index entry: a category holding `contents`, or a text. Either may
      have a `title`. */
  datatype IndexNode = Category(title: Option<string>, contents: seq<IndexNode>) | Leaf(title: Option<string>)

  /** The texts under `entries`, in depth-first order. */
  function Leaves(entries: seq<IndexNode>): (r: seq<IndexNode>)
    decreases entries
  {
    if entries == [] then [] else EntryLeaves(entries[0]) + Leaves(entries[1..])
  }

  function EntryLeaves(entry: IndexNode): (r: seq<IndexNode>)
    decreases entry
  {
    match entry
    case Category(_, contents) => Leaves(contents)
    case Leaf(_) => [entry]
  }

  lemma {:induction false} LeavesAppend(a: seq<IndexNode>, b: seq<IndexNode>)
    ensures Leaves(a + b) == Leaves(a) + Leaves(b)
    decreases |a|
  {
    if a != [] {
      assert (a + b)[0] == a[0];
      assert (a + b)[1..] == a[1..] + b;
      LeavesAppend(a[1..], b);
      calc {
        Leaves(a + b);
        EntryLeaves(a[0]) + Leaves(a[1..] + b);
        EntryLeaves(a[0]) + (Leaves(a[1..]) + Leaves(b));
      }
    } else {
      assert a + b == b;
    }
  }

  /** Categories never survive flattening; texts at the top level do. */
  lemma {:induction false} LeavesAreTexts(entries: seq<IndexNode>)
    ensures forall x :: x in Leaves(entries) ==> x.Leaf?
    ensures forall x :: x in entries && x.Leaf? ==> x in Leaves(entries)
    decreases entries
  {
    if entries != [] {
      if entries[0].Category? {
        LeavesAreTexts(entries[0].contents);
      }
      LeavesAreTexts(entries[1..]);
      forall x | x in entries && x.Leaf? ensures x in Leaves(entries) {
        if x != entries[0] {
          assert x in entries[1..];
        }
      }
    }
  }

  /** The nested `recurse`: appends the texts under `entries`. */
  method Recurse(entries: seq<IndexNode>, flattened: seq<IndexNode>) returns (out: seq<IndexNode>)
    ensures out == flattened + Leaves(entries)
    decreases entries
  {
    out := flattened;
    for i := 0 to |entries|
      invariant out == flattened + Leaves(entries[..i])
    {
      var entry := entries[i];
      assert entries[..i + 1] == entries[..i] + [entry];
      LeavesAppend(entries[..i], [entry]);
      assert Leaves([entry]) == EntryLeaves(entry);
      if entry.Category? {
        out := RecurseInto(entry, out);
      } else {
        out := out + [entry];
      }
    }
    assert entries[..|entries|] == entries;
  }

  method RecurseInto(entry: IndexNode, flattened: seq<IndexNode>) returns (out: seq<IndexNode>)
    requires entry.Category?
    ensures out == flattened + Leaves(entry.contents)
    decreases entry
  {
    out := Recurse(entry.contents, flattened);
  }

  /** `[d for d in xs if "title" in d]`. */
  function Titled(xs: seq<IndexNode>): (r: seq<IndexNode>)
    ensures |r| <= |xs|
    ensures forall x :: x in r <==> x in xs && x.title.Some?
  {
    if xs == [] then []
    else (if xs[0].title.Some? then [xs[0]] else []) + Titled(xs[1..])
  }

  /** The local part of `fetch_sefaria_index`, given the fetched index. */
  method FlattenIndex(indexData: seq<IndexNode>) returns (flattened: seq<IndexNode>)
    ensures flattened == Titled(Leaves(indexData))
  {
    flattened := Recurse(indexData, []);
    assert flattened == Leaves(indexData);
    flattened := Titled(flattened);
  }

  /** What the flattened index holds: exactly the titled texts of the tree;
      a titled text at the top level is among them. */
  lemma FlattenIndexMembers(indexData: seq<IndexNode>)
    ensures forall x :: x in Titled(Leaves(indexData)) <==> x in Leaves(indexData) && x.title.Some?
    ensures forall x :: x in Titled(Leaves(indexData)) ==> x.Leaf?
    ensures forall x :: x in indexData && x.Leaf? && x.title.Some? ==> x in Titled(Leaves(indexData))
  {
    LeavesAreTexts(indexData);
  }

  // ---------------------------------------------------------------------
  // Version records.

  /** The `titles` argument: one title or a list of them. */
  datatype TitlesArgument = OneTitle(title: string) | ManyTitles(titles: seq<string>)

  /** `if isinstance(titles, str): titles = [titles]`. */
  function TitleList(titles: TitlesArgument): (r: seq<string>)
    ensures titles.OneTitle? ==> r == [titles.title]
    ensures titles.ManyTitles? ==> r == titles.titles
  {
    match titles
    case OneTitle(t) => [t]
    case ManyTitles(ts) => ts
  }

  /** `[d for sublist in versions for d in sublist]`. */
  function Concat(xss: seq<seq<Record>>): (r: seq<Record>)
    ensures forall d :: d in r <==> exists i :: 0 <= i < |xss| && d in xss[i]
  {
    if xss == [] then []
    else
      var r := xss[0] + Concat(xss[1..]);
      assert forall d :: (exists i :: 0 <= i < |xss| && d in xss[i]) <==> d in xss[0] || d in Concat(xss[1..]) by {
        forall d | exists i :: 0 <= i < |xss| && d in xss[i]
          ensures d in xss[0] || d in Concat(xss[1..])
        {
          var i :| 0 <= i < |xss| && d in xss[i];
          if i > 0 {
            assert xss[1..][i - 1] == xss[i];
          }
        }
        forall d | d in Concat(xss[1..])
          ensures exists i :: 0 <= i < |xss| && d in xss[i]
        {
          var i :| 0 <= i < |xss[1..]| && d in xss[1..][i];
          assert xss[i + 1] == xss[1..][i];
        }
      }
      r
  }

  predicate HasVersionKeys(d: Record) {
    "title" in d && "versionTitle" in d && "languageFamilyName" in d
  }

  /** `[d for d in versions if "title" in d and "versionTitle" in d and
      "languageFamilyName" in d]`. */
  function WithVersionKeys(xs: seq<Record>): (r: seq<Record>)
    ensures |r| <= |xs|
    ensures forall d :: d in r <==> d in xs && HasVersionKeys(d)
  {
    if xs == [] then []
    else (if HasVersionKeys(xs[0]) then [xs[0]] else []) + WithVersionKeys(xs[1..])
  }

  /** The local part of `fetch_sefaria_versions`: `fetched` holds the record
      lists of the requests that succeeded, in the order they completed. */
  function CollectVersions(fetched: seq<seq<Record>>): (r: seq<Record>)
    ensures forall d :: d in r <==> HasVersionKeys(d) && exists i :: 0 <= i < |fetched| && d in fetched[i]
  {
    WithVersionKeys(Concat(fetched))
  }

  /** Both steps keep order: the records of earlier lists come first. */
  lemma CollectVersionsAppend(a: seq<seq<Record>>, b: seq<seq<Record>>)
    ensures CollectVersions(a + b) == CollectVersions(a) + CollectVersions(b)
  {
    ConcatAppend(a, b);
    WithVersionKeysAppend(Concat(a), Concat(b));
  }

  lemma {:induction false} ConcatAppend(a: seq<seq<Record>>, b: seq<seq<Record>>)
    ensures Concat(a + b) == Concat(a) + Concat(b)
    decreases |a|
  {
    if a != [] {
      assert (a + b)[0] == a[0];
      assert (a + b)[1..] == a[1..] + b;
      ConcatAppend(a[1..], b);
      calc {
        Concat(a + b);
        a[0] + Concat(a[1..] + b);
        a[0] + (Concat(a[1..]) + Concat(b));
      }
    } else {
      assert a + b == b;
    }
  }

  lemma {:induction false} WithVersionKeysAppend(a: seq<Record>, b: seq<Record>)
    ensures WithVersionKeys(a + b) == WithVersionKeys(a) + WithVersionKeys(b)
    decreases |a|
  {
    if a != [] {
      assert (a + b)[0] == a[0];
      assert (a + b)[1..] == a[1..] + b;
      WithVersionKeysAppend(a[1..], b);
      var head := if HasVersionKeys(a[0]) then [a[0]] else [];
      calc {
        WithVersionKeys(a + b);
        head + WithVersionKeys(a[1..] + b);
        head + (WithVersionKeys(a[1..]) + WithVersionKeys(b));
        (head + WithVersionKeys(a[1..])) + WithVersionKeys(b);
        WithVersionKeys(a) + WithVersionKeys(b);
      }
    } else {
      assert a + b == b;
    }
  }

  // ---------------------------------------------------------------------
  // A text lookup.

  /** `d.get(key)` printed by an f-string: a missing key prints "None". */
  function Printed(d: Record, key: string): (r: string)
    ensures key in d ==> r == d[key]
    ensures key !in d ==> r == "None"
  {
    if key in d then d[key] else "None"
  }

  /** The `version` request parameter: `"<languageFamilyName>|<versionTitle>"`
      of the best candidate, or "primary" when no candidate ranked. */
  function VersionParameter(best: seq<Record>): (r: string)
    ensures best == [] ==> r == "primary"
    ensures best != [] ==> '|' in r
  {
    if best != [] then Printed(best[0], "languageFamilyName") + "|" + Printed(best[0], "versionTitle")
    else "primary"
  }

  /** `1 if fill_in_missing_segments else 0`. */
  function FillParameter(fill: bool): (r: int)
    ensures r == 1 <==> fill
    ensures r == 0 <==> !fill
  {
    if fill then 1 else 0
  }

  /** The parameter splits back into the family and the version title at
      its first "|", as long as the family name holds no "|". */
  lemma VersionParameterSplits(best: seq<Record>)
    requires best != [] && HasVersionKeys(best[0])
    requires '|' !in best[0]["languageFamilyName"]
    ensures var r := VersionParameter(best);
            var k := IndexOf(r, '|');
            k < |r| && r[..k] == best[0]["languageFamilyName"] && r[k + 1..] == best[0]["versionTitle"]
  {
    var family := best[0]["languageFamilyName"];
    var r := VersionParameter(best);
    var k := IndexOf(r, '|');
    assert r[|family|] == '|';
    assert forall j :: 0 <= j < |family| ==> r[j] == family[j];
    assert k == |family|;
  }

  /** The query a text lookup sends. */
  datatype SefariaRequest = SefariaRequest(reference: string, version: string, fillInMissingSegments: int)

  /** The `text` a returned version carries: one string or a list of lines. */
  datatype TextValue = Str(s: string) | Lines(lines: seq<string>)

  /** A version in the response, with its `text` if it has one. */
  datatype ResponseVersion = ResponseVersion(text: Option<TextValue>)

  const NotFound := "Reference not found."

  /** The text of the first returned version, or "Reference not found." when
      the response holds no versions or the first has no text. */
  function ResponseText(versions: Option<seq<ResponseVersion>>): (t: TextValue)
    ensures versions.None? || versions.value == [] ==> t == Str(NotFound)
    ensures versions.Some? && versions.value != [] && versions.value[0].text.Some? ==> t == versions.value[0].text.value
    ensures versions.Some? && versions.value != [] && versions.value[0].text.None? ==> t == Str(NotFound)
  {
    if versions.Some? && versions.value != [] then versions.value[0].text.GetOr(Str(NotFound))
    else Str(NotFound)
  }

  /** The `EmbedData` of one line of text: only a description. */
  function LineData(text: string): Embeds.Embed {
    Embeds.Embed(None, Some(text), None, None, None, None, None, [], "rich")
  }

  /** The embed the library is given for one line: the description is cut
      to 4093 characters plus "...", and nothing else is set. */
  function LineEmbed(text: string): (e: Embeds.Embed)
    ensures e == Embeds.Embed(None, Some(Embeds.Shorten(text, Embeds.MaxDescriptionLength)), None, None, None, None, None, [], "rich")
  {
    Embeds.Created(LineData(text))
  }

  /** One embed for a string, one per line for a list. */
  function LineEmbeds(text: TextValue, markdownify: string -> string): (r: seq<Embeds.Embed>)
    ensures text.Str? ==> r == [LineEmbed(markdownify(text.s))]
    ensures text.Lines? ==> |r| == |text.lines| && forall i :: 0 <= i < |r| ==> r[i] == LineEmbed(markdownify(text.lines[i]))
  {
    match text
    case Str(s) => [LineEmbed(markdownify(s))]
    case Lines(ls) => seq(|ls|, i requires 0 <= i < |ls| => LineEmbed(markdownify(ls[i])))
  }

  /** The embeds of the text, built one `create_embed` call per line. */
  method CreateLineEmbeds(text: TextValue, markdownify: string -> string) returns (embeds: seq<Embeds.Embed>)
    ensures embeds == LineEmbeds(text, markdownify)
  {
    match text
    case Str(s) =>
      var data := new Embeds.EmbedData(LineData(markdownify(s)));
      var e := Embeds.CreateEmbed(data);
      embeds := [e];
    case Lines(ls) =>
      embeds := [];
      for i := 0 to |ls|
        invariant |embeds| == i
        invariant forall j :: 0 <= j < i ==> embeds[j] == LineEmbed(markdownify(ls[j]))
      {
        var data := new Embeds.EmbedData(LineData(markdownify(ls[i])));
        var e := Embeds.CreateEmbed(data);
        embeds := embeds + [e];
      }
  }

  /** The footer text of the header. */
  function FooterText(best: Record): string {
    "Results from Sefaria (" + Printed(best, "versionTitle") + ")"
  }

  /** The `EmbedData` of the header: the reference as title, three inline
      fields and a footer. A missing version or language is an empty field
      value. */
  function HeaderData(reference: string, version: Option<string>, language: Option<string>, fill: bool, best: Record): Embeds.Embed {
    Embeds.Embed(Some(reference), None, None, None, None, Some(Embeds.EmbedFooter(FooterText(best), None)), None,
                 HeaderFields(version, language, fill), "rich")
  }

  /** The three inline fields of the header. */
  function HeaderFields(version: Option<string>, language: Option<string>, fill: bool): seq<Embeds.EmbedField> {
    [Embeds.EmbedField("Version", Embeds.OrEmpty(version), true),
     Embeds.EmbedField("Language", Embeds.OrEmpty(language), true),
     Embeds.EmbedField("Fill Missing Segments", if fill then "True" else "False", true)]
  }

  /** The header embed the library is given: the reference as title, cut to
      256 characters plus "...", the footer naming the best candidate's
      version title, cut to 2045 plus "...", and the version and language
      fields cut to 1021 characters. The total stays under 6000, so the
      header never gains a description. */
  function HeaderEmbed(reference: string, version: Option<string>, language: Option<string>, fill: bool, best: Record): (h: Embeds.Embed)
    ensures h.title == Some(Embeds.Shorten(reference, Embeds.MaxTitleLength))
    ensures h.description.None?
    ensures h.footer == Some(Embeds.EmbedFooter(Embeds.Shorten(FooterText(best), Embeds.MaxFooterTextLength), None))
    ensures h.fields == [Embeds.EmbedField("Version", Embeds.Cut(Embeds.OrEmpty(version), Embeds.MaxFieldValueLength), true),
                         Embeds.EmbedField("Language", Embeds.Cut(Embeds.OrEmpty(language), Embeds.MaxFieldValueLength), true),
                         Embeds.EmbedField("Fill Missing Segments", if fill then "True" else "False", true)]
    ensures h.kind == "rich"
    ensures h.url.None? && h.timestamp.None? && h.color.None? && h.author.None?
  {
    var d := HeaderData(reference, version, language, fill, best);
    HeaderCounted(version, language, fill);
    Embeds.CreatedWithinTotal(d);
    Embeds.Created(d)
  }

  /** The header built through `create_embed`. */
  method CreateHeaderEmbed(reference: string, version: Option<string>, language: Option<string>, fill: bool, best: Record)
    returns (header: Embeds.Embed)
    ensures header == HeaderEmbed(reference, version, language, fill, best)
  {
    var data := new Embeds.EmbedData(HeaderData(reference, version, language, fill, best));
    header := Embeds.CreateEmbed(data);
  }

  /** Only the version and language values can be cut, so the field loop
      adds at most twice 1021 characters to the total. */
  lemma HeaderCounted(version: Option<string>, language: Option<string>, fill: bool)
    ensures Embeds.FieldsCounted(Embeds.KeptFields(HeaderFields(version, language, fill))) <= 2 * Embeds.MaxFieldValueLength
  {
    var fs := HeaderFields(version, language, fill);
    Embeds.FieldsCountedStep(fs, 0);
    Embeds.FieldsCountedStep(fs, 1);
    Embeds.FieldsCountedStep(fs, 2);
    assert fs[..0] == [] && fs[..3] == fs;
  }

  const RankedFields := ["title", "versionTitle", "language"]
  const Threshold := 80

  /** `get_sefaria_text(reference=reference, version=version,
      language=language, fill_in_missing_segments=fill)`: the HTTP request is
      the function `fetch`, `markdownify` the library call of that name.
      Without a ranked candidate the footer text indexes an empty list, which
      the source raises as an `IndexError`. */
  method GetSefariaText(sefariaVersions: seq<Record>, reference: string, version: Option<string>, language: Option<string>,
                        fill: bool, ratio: (string, string) -> Score,
                        fetch: SefariaRequest -> Option<seq<ResponseVersion>>, markdownify: string -> string)
    returns (request: SefariaRequest, r: Result<seq<Page<Embeds.Embed>>>)
    ensures var parsed := ExtractBookReference(reference);
            var best := Ranked(sefariaVersions, RankedFields, [parsed.book, version, language], ratio, Threshold);
            && request == SefariaRequest(parsed.reference, VersionParameter(best), FillParameter(fill))
            && (r.Failure? <==> best == [])
            && (r.Success? ==>
                  r.value == WrapAll(Some(HeaderEmbed(reference, version, language, fill, best[0])),
                                     PageContents(LineEmbeds(ResponseText(fetch(request)), markdownify), Capacity(true, false, 10)), None))
  {
    var parsed := ExtractBookReference(reference);
    var best := FuzzyMatchBestDicts(sefariaVersions, RankedFields, [parsed.book, version, language], ratio, Threshold);
    var sefariaVersion: Option<string> := None;
    if best != [] {
      sefariaVersion := Some(Printed(best[0], "languageFamilyName") + "|" + Printed(best[0], "versionTitle"));
    }
    request := SefariaRequest(parsed.reference, sefariaVersion.GetOr("primary"), if fill then 1 else 0);
    var text := ResponseText(fetch(request));
    if best == [] {
      r := Failure("IndexError: list index out of range");
      return;
    }
    var header := CreateHeaderEmbed(reference, version, language, fill, best[0]);
    var embeds := CreateLineEmbeds(text, markdownify);
    var pages := CreatePaginatedEmbeds(embeds, Some(header), None, 10);
    r := Success(pages);
  }

  /** Every page of a lookup starts with the header, and the lines of the
      text appear across the pages in order; no lines give no pages. */
  lemma SefariaPages(header: Embeds.Embed, text: TextValue, markdownify: string -> string)
    ensures var lines := LineEmbeds(text, markdownify);
            var cs := PageContents(lines, Capacity(true, false, 10));
            var pages := WrapAll(Some(header), cs, None);
            && Flatten(cs) == lines
            && (lines == [] <==> pages == [])
            && (forall i :: 0 <= i < |pages| ==> pages[i].embeds[0] == header)
  {
    Paginated(LineEmbeds(text, markdownify), Some(header), None, 10);
  }

  /** A page holds at most ten embeds, and a single string gives a single
      page. */
  lemma SefariaPageSizes(header: Embeds.Embed, text: TextValue, markdownify: string -> string)
    ensures var lines := LineEmbeds(text, markdownify);
            var pages := WrapAll(Some(header), PageContents(lines, Capacity(true, false, 10)), None);
            && (forall i :: 0 <= i < |pages| ==> |pages[i].embeds| <= 10)
            && (text.Str? ==> |pages| == 1)
  {
    ChunksSizes(LineEmbeds(text, markdownify), 9);
  }

  // ---------------------------------------------------------------------
  // Link tags in lexicon definitions.

  /** `re.sub(r"<a[^>]*>|</a>", "", s)`: removes every opening `a` tag up to
      its first ">" and every closing `</a>` tag, scanning left to right. */
  function StripAnchors(s: string): (r: string)
    ensures |r| <= |s|
    decreases |s|
  {
    if s == [] then []
    else if |s| >= 2 && s[..2] == "<a" && IndexOf(s[2..], '>') < |s| - 2 then
      StripAnchors(s[2 + IndexOf(s[2..], '>') + 1..])
    else if |s| >= 4 && s[..4] == "</a>" then
      StripAnchors(s[4..])
    else
      [s[0]] + StripAnchors(s[1..])
  }

  /** A character other than "<" is kept. */
  lemma StripAnchorsKeep(c: char, rest: string)
    requires c != '<'
    ensures StripAnchors([c] + rest) == [c] + StripAnchors(rest)
  {
    var t := [c] + rest;
    assert t[0] == c;
    assert !(|t| >= 2 && t[..2] == "<a");
    assert !(|t| >= 4 && t[..4] == "</a>");
    assert t[1..] == rest;
  }

  /** Text without "<" passes unchanged. */
  lemma {:induction false} StripAnchorsPlain(s: string, rest: string)
    requires '<' !in s
    ensures StripAnchors(s + rest) == s + StripAnchors(rest)
    decreases |s|
  {
    if s != [] {
      assert s + rest == [s[0]] + (s[1..] + rest);
      StripAnchorsKeep(s[0], s[1..] + rest);
      StripAnchorsPlain(s[1..], rest);
      assert s == [s[0]] + s[1..];
    } else {
      assert s + rest == rest;
    }
  }

  /** An opening tag is removed up to its first ">". */
  lemma StripAnchorsOpening(attributes: string, rest: string)
    requires '>' !in attributes
    ensures StripAnchors("<a" + attributes + ">" + rest) == StripAnchors(rest)
  {
    var s := "<a" + attributes + ">" + rest;
    assert s[..2] == "<a";
    assert s[2..] == attributes + ">" + rest;
    var k := IndexOf(s[2..], '>');
    assert s[2..][|attributes|] == '>';
    assert forall j :: 0 <= j < |attributes| ==> s[2..][j] == attributes[j];
    assert k == |attributes|;
    assert s[2 + k + 1..] == rest;
  }

  /** A closing tag is removed. */
  lemma StripAnchorsClosing(rest: string)
    ensures StripAnchors("</a>" + rest) == StripAnchors(rest)
  {
    var s := "</a>" + rest;
    assert s[..2] != "<a" by {
      assert s[1] == '/';
    }
    assert s[..4] == "</a>";
    assert s[4..] == rest;
  }

  /** A link keeps its text and loses both tags. */
  lemma StripAnchorsLink(attributes: string, text: string, rest: string)
    requires '>' !in attributes && '<' !in text
    ensures StripAnchors("<a" + attributes + ">" + text + "</a>" + rest) == text + StripAnchors(rest)
  {
    assert "<a" + attributes + ">" + text + "</a>" + rest == "<a" + attributes + ">" + (text + ("</a>" + rest));
    StripAnchorsOpening(attributes, text + ("</a>" + rest));
    StripAnchorsPlain(text, "</a>" + rest);
    StripAnchorsClosing(rest);
  }
}
