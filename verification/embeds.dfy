/**
 * The truncation half of `DiscordEmbedCreator.EmbedData.to_discord_embed`
 * (helpers/pycord_helpers.py): before an embed is handed to the Discord
 * library, its texts are cut against Discord's length limits, in place.
 *
 * The order of the steps matters and is kept:
 *   1. title, description, footer text and author name longer than their
 *      limit become their first `limit` characters followed by "...";
 *   2. only the first 25 fields are kept;
 *   3. the running total starts with the lengths of title, description,
 *      footer text and author name;
 *   4. each field name and value longer than its limit is cut to exactly the
 *      limit (no "..."), and only the lengths of the texts that were cut are
 *      added to the total;
 *   5. if the total exceeds 6000, the description loses the excess from its
 *      end, or becomes "" when it is not longer than the excess.
 *
 * The footer, author and field objects are modelled as values: the class
 * reassigns them where the source assigns to one of their attributes.
 * Steps 2 to 5 are shared by both copies of the routine (`Finish`).
 */
module Embeds {
  import opened Wrappers

  const MaxTitleLength: nat := 256
  const MaxDescriptionLength: nat := 4093
  const MaxFields: nat := 25
  const MaxFieldNameLength: nat := 253
  const MaxFieldValueLength: nat := 1021
  const MaxFooterTextLength: nat := 2045
  const MaxAuthorNameLength: nat := 253
  const MaxTotalCharacters: nat := 6000

  datatype EmbedFooter = EmbedFooter(text: string, iconUrl: Option<string>)

  datatype EmbedAuthor = EmbedAuthor(name: string, url: Option<string>, iconUrl: Option<string>)

  datatype EmbedField = EmbedField(name: string, value: string, inline: bool)

  /** The attributes of an `EmbedData` that the truncation reads or writes,
      plus those it passes on unchanged. */
  datatype Embed = Embed(
    title: Option<string>,
    description: Option<string>,
    url: Option<string>,
    timestamp: Option<string>,
    color: Option<int>,
    footer: Option<EmbedFooter>,
    author: Option<EmbedAuthor>,
    fields: seq<EmbedField>,
    kind: string)

  /** `s or ""`. */
  function OrEmpty(s: Option<string>): string {
    if s.Some? then s.value else ""
  }

  function Min(a: nat, b: nat): nat {
    if a <= b then a else b
  }

  /** `f"{s[:max]}..."` when `s` is longer than `max`, else `s`. */
  function Shorten(s: string, max: nat): (r: string)
    ensures |r| <= max + 3
    ensures |s| <= max ==> r == s
    ensures |s| > max ==> |r| == max + 3 && r[..max] == s[..max] && r[max..] == "..."
  {
    if |s| > max then s[..max] + "..." else s
  }

  /** Shortening what was already shortened changes nothing. */
  lemma ShortenIdempotent(s: string, max: nat)
    ensures Shorten(Shorten(s, max), max) == Shorten(s, max)
  {
    if |s| > max {
      var r := Shorten(s, max);
      assert r[..max] + "..." == r;
    }
  }

  /** `if s and len(s) > max: s = f"{s[:max]}..."` on an optional text. */
  function ShortenOpt(s: Option<string>, max: nat): (r: Option<string>)
    ensures r.Some? <==> s.Some?
    ensures r.Some? ==> r.value == Shorten(s.value, max)
  {
    if s.Some? then Some(Shorten(s.value, max)) else None
  }

  /** `s[:max]` applied to an over-long field text: a prefix of `s` of the
      limited length. */
  function Cut(s: string, max: nat): (r: string)
    ensures r <= s && |r| == Min(|s|, max)
  {
    if |s| > max then s[..max] else s
  }

  /** What the loop adds to the total for one field text: the cut length if
      the text was cut, and nothing otherwise. */
  function Counted(s: string, max: nat): (n: nat)
    ensures n == (if Cut(s, max) == s then 0 else |Cut(s, max)|)
  {
    if |s| > max then max else 0
  }

  function CutField(f: EmbedField): (r: EmbedField)
    ensures r.name <= f.name && |r.name| == Min(|f.name|, MaxFieldNameLength)
    ensures r.value <= f.value && |r.value| == Min(|f.value|, MaxFieldValueLength)
    ensures r.inline == f.inline
  {
    f.(name := Cut(f.name, MaxFieldNameLength), value := Cut(f.value, MaxFieldValueLength))
  }

  function CutFields(fs: seq<EmbedField>): (r: seq<EmbedField>)
    ensures |r| == |fs| && forall i :: 0 <= i < |fs| ==> r[i] == CutField(fs[i])
  {
    seq(|fs|, i requires 0 <= i < |fs| => CutField(fs[i]))
  }

  /** The characters the field loop adds for the fields `fs`. */
  function FieldsCounted(fs: seq<EmbedField>): nat {
    if fs == [] then 0
    else
      var f := fs[|fs| - 1];
      FieldsCounted(fs[..|fs| - 1]) + Counted(f.name, MaxFieldNameLength) + Counted(f.value, MaxFieldValueLength)
  }

  /** `self.fields[:25]` when there are more than 25 fields. */
  function KeptFields(fs: seq<EmbedField>): (r: seq<EmbedField>)
    ensures r <= fs && |r| == Min(|fs|, MaxFields)
  {
    if |fs| > MaxFields then fs[..MaxFields] else fs
  }

  /** The lengths of title, description, footer text and author name. */
  function HeadLength(e: Embed): nat {
    |OrEmpty(e.title)| + |OrEmpty(e.description)|
      + (if e.footer.Some? then |e.footer.value.text| else 0)
      + (if e.author.Some? then |e.author.value.name| else 0)
  }

  function Max0(n: int): nat {
    if n > 0 then n else 0
  }

  /** The final step: with a total above 6000 the description loses the
      excess from its end, or becomes "". */
  function CutDescription(description: Option<string>, total: int): (r: Option<string>)
    ensures total <= MaxTotalCharacters ==> r == description
    ensures total > MaxTotalCharacters ==>
              && r.Some?
              && r.value <= OrEmpty(description)
              && |r.value| == Max0(|OrEmpty(description)| - (total - MaxTotalCharacters))
  {
    if total > MaxTotalCharacters then
      var excess := total - MaxTotalCharacters;
      if description.Some? && |description.value| > excess then
        Some(description.value[..|description.value| - excess])
      else
        Some("")
    else
      description
  }

  /** Steps 2 to 5 applied to `e`, whose title, description, footer and author
      have already been shortened. */
  function Finish(e: Embed): Embed {
    var kept := KeptFields(e.fields);
    var total := HeadLength(e) + FieldsCounted(kept);
    e.(fields := CutFields(kept), description := CutDescription(e.description, total))
  }

  /** Step 1. */
  function ShortenHead(e: Embed): Embed {
    e.(title := ShortenOpt(e.title, MaxTitleLength),
       description := ShortenOpt(e.description, MaxDescriptionLength),
       footer := if e.footer.Some? then Some(e.footer.value.(text := Shorten(e.footer.value.text, MaxFooterTextLength))) else None,
       author := if e.author.Some? then Some(e.author.value.(name := Shorten(e.author.value.name, MaxAuthorNameLength))) else None)
  }

  /** The embed after all truncation steps. */
  function Truncated(e: Embed): Embed {
    Finish(ShortenHead(e))
  }

  /** The Discord embed types the library is given; any other becomes
      "rich". */
  function EmbedType(kind: string): (r: string)
    ensures r == kind || r == "rich"
    ensures r in ["rich", "image", "video", "gifv", "article", "link", "poll_result"]
  {
    if kind in ["rich", "image", "video", "gifv", "article", "link", "poll_result"] then kind else "rich"
  }

  /** The embed the library is given for the data `d`: truncated, with the
      type filtered. */
  function Created(d: Embed): Embed {
    Truncated(d).(kind := EmbedType(d.kind))
  }

  /** Data whose total stays within 6000 characters keeps its description
      as step 1 left it: only the head texts are shortened and the fields
      cut. */
  lemma CreatedWithinTotal(d: Embed)
    requires HeadLength(ShortenHead(d)) + FieldsCounted(KeptFields(d.fields)) <= MaxTotalCharacters
    ensures Created(d) == ShortenHead(d).(fields := CutFields(KeptFields(d.fields)), kind := EmbedType(d.kind))
  {
  }

  /** `DiscordEmbedCreator.create_embed(embed_data=data)`: the data object is
      truncated in place and the library is given the result. */
  method CreateEmbed(data: EmbedData) returns (embed: Embed)
    modifies data
    ensures data.State() == Truncated(old(data.State()))
    ensures embed == Created(old(data.State()))
  {
    embed := data.ToDiscordEmbed();
  }

  /** The field loop closing over one more field. */
  lemma FieldsCountedStep(fs: seq<EmbedField>, k: nat)
    requires k < |fs|
    ensures FieldsCounted(fs[..k + 1])
         == FieldsCounted(fs[..k]) + Counted(fs[k].name, MaxFieldNameLength) + Counted(fs[k].value, MaxFieldValueLength)
  {
    assert fs[..k + 1][..k] == fs[..k];
  }

  class EmbedData {
    var title: Option<string>
    var description: Option<string>
    var url: Option<string>
    var timestamp: Option<string>
    var color: Option<int>
    var footer: Option<EmbedFooter>
    var author: Option<EmbedAuthor>
    var fields: seq<EmbedField>
    var kind: string

    function State(): Embed
      reads this
    {
      Embed(title, description, url, timestamp, color, footer, author, fields, kind)
    }

    constructor (e: Embed)
      ensures State() == e
    {
      title, description, url, timestamp, color := e.title, e.description, e.url, e.timestamp, e.color;
      footer, author, fields, kind := e.footer, e.author, e.fields, e.kind;
    }

    /** The truncation part of `to_discord_embed`; the result is what the
        library is then given, with the type filtered. */
    method ToDiscordEmbed() returns (embed: Embed)
      modifies this
      ensures State() == Truncated(old(State()))
      ensures embed == State().(kind := EmbedType(kind))
    {
      ShortenTexts();
      TruncateFields();
      embed := State().(kind := EmbedType(kind));
    }

    /** Step 1 on the current state. */
    method ShortenTexts()
      modifies this
      ensures State() == ShortenHead(old(State()))
    {
      if title.Some? && |title.value| > MaxTitleLength {
        title := Some(title.value[..MaxTitleLength] + "...");
      }
      if description.Some? && |description.value| > MaxDescriptionLength {
        description := Some(description.value[..MaxDescriptionLength] + "...");
      }
      if footer.Some? && |footer.value.text| > MaxFooterTextLength {
        footer := Some(footer.value.(text := footer.value.text[..MaxFooterTextLength] + "..."));
      }
      if author.Some? && |author.value.name| > MaxAuthorNameLength {
        author := Some(author.value.(name := author.value.name[..MaxAuthorNameLength] + "..."));
      }
    }

    /** Steps 2 to 5 on the current state. */
    method TruncateFields()
      modifies this
      ensures State() == Finish(old(State()))
    {
      if |fields| > MaxFields {
        fields := fields[..MaxFields];
      }
      var total := |OrEmpty(title)| + |OrEmpty(description)|
        + (if footer.Some? then |footer.value.text| else 0)
        + (if author.Some? then |author.value.name| else 0);
      var cut, counted := CutFieldsCounting(fields);
      fields := cut;
      ShortenDescription(total + counted);
    }

    /** Step 5 against the total `total`. */
    method ShortenDescription(total: int)
      modifies this
      ensures State() == old(State()).(description := CutDescription(old(description), total))
    {
      if total > MaxTotalCharacters {
        var excess := total - MaxTotalCharacters;
        if description.Some? && |description.value| > excess {
          description := Some(description.value[..|description.value| - excess]);
        } else {
          description := Some("");
        }
      }
    }
  }

  /** The field loop of `to_discord_embed`: every name and value cut to its
      limit, and the characters it counts. */
  method CutFieldsCounting(fs: seq<EmbedField>) returns (cut: seq<EmbedField>, counted: nat)
    ensures cut == CutFields(fs)
    ensures counted == FieldsCounted(fs)
  {
    cut := fs;
    counted := 0;
    for k := 0 to |fs|
      invariant |cut| == |fs|
      invariant forall j :: 0 <= j < k ==> cut[j] == CutField(fs[j])
      invariant forall j :: k <= j < |fs| ==> cut[j] == fs[j]
      invariant counted == FieldsCounted(fs[..k])
    {
      var field := cut[k];
      var nameLength := 0;
      if |field.name| > MaxFieldNameLength {
        field := field.(name := field.name[..MaxFieldNameLength]);
        nameLength := |field.name|;
      }
      var valueLength := 0;
      if |field.value| > MaxFieldValueLength {
        field := field.(value := field.value[..MaxFieldValueLength]);
        valueLength := |field.value|;
      }
      FieldsCountedStep(fs, k);
      cut := cut[k := field];
      counted := counted + nameLength + valueLength;
    }
    assert fs[..|fs|] == fs;
  }

  /** Every text ends within its limit: title 259, description 4096, footer
      2048, author 256 characters, at most 25 fields with names of at most
      253 and values of at most 1021 characters. Nothing else changes. */
  lemma TruncatedBounds(e: Embed)
    ensures var r := Truncated(e);
            && (r.title.Some? ==> |r.title.value| <= MaxTitleLength + 3)
            && (r.description.Some? ==> |r.description.value| <= MaxDescriptionLength + 3)
            && (r.footer.Some? ==> |r.footer.value.text| <= MaxFooterTextLength + 3)
            && (r.author.Some? ==> |r.author.value.name| <= MaxAuthorNameLength + 3)
            && |r.fields| <= MaxFields
            && (forall i :: 0 <= i < |r.fields| ==> |r.fields[i].name| <= MaxFieldNameLength && |r.fields[i].value| <= MaxFieldValueLength)
            && r.url == e.url && r.timestamp == e.timestamp && r.color == e.color && r.kind == e.kind
            && r.title.Some? == e.title.Some? && r.footer.Some? == e.footer.Some? && r.author.Some? == e.author.Some?
  {
  }

  /** What survives is the original text: the title, footer text and author
      name are the original or its first `limit` characters plus "...", the
      description is a prefix of its shortened form, and the kept fields are
      the first fields, each name and value a prefix of the original. */
  lemma TruncatedKeepsPrefixes(e: Embed)
    ensures var r := Truncated(e);
            && r.title == ShortenOpt(e.title, MaxTitleLength)
            && (r.description.Some? ==> r.description.value <= OrEmpty(ShortenOpt(e.description, MaxDescriptionLength)))
            && (e.footer.Some? ==> r.footer == Some(e.footer.value.(text := Shorten(e.footer.value.text, MaxFooterTextLength))))
            && (e.author.Some? ==> r.author == Some(e.author.value.(name := Shorten(e.author.value.name, MaxAuthorNameLength))))
            && |r.fields| == Min(|e.fields|, MaxFields)
            && (forall i :: 0 <= i < |r.fields| ==>
                  r.fields[i].name <= e.fields[i].name && r.fields[i].value <= e.fields[i].value && r.fields[i].inline == e.fields[i].inline)
  {
    var h := ShortenHead(e);
    var kept := KeptFields(h.fields);
    forall i | 0 <= i < |kept| ensures kept[i] == e.fields[i] {
    }
  }

  /** The description is cut only when the counted total exceeds 6000, and
      then by exactly enough to bring the counted total down to 6000, unless
      the description is too short, in which case it becomes "". */
  lemma FinishMeetsTotal(e: Embed)
    ensures var r := Finish(e);
            var counted := FieldsCounted(KeptFields(e.fields));
            && (HeadLength(e) + counted <= MaxTotalCharacters ==> r.description == e.description)
            && (HeadLength(e) + counted > MaxTotalCharacters ==>
                  r.description.Some? && (HeadLength(r) + counted == MaxTotalCharacters || r.description == Some("")))
  {
  }

  /** A field text within its limit adds nothing to the total, however long
      it is: the total the description is cut against can stay at or below
      6000 while the fields hold far more text. */
  lemma UncutFieldsUncounted(fs: seq<EmbedField>)
    requires forall i :: 0 <= i < |fs| ==> |fs[i].name| <= MaxFieldNameLength && |fs[i].value| <= MaxFieldValueLength
    ensures FieldsCounted(fs) == 0
  {
    if fs != [] {
      UncutFieldsUncounted(fs[..|fs| - 1]);
    }
  }
}
