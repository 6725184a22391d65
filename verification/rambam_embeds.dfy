/**
 * The truncation half of `to_discord_embed` in the vendored copy
 * rambam/helpers/pycord_helpers.py. Its first step differs from the other
 * copy: the f-strings that should shorten title, description, footer text and
 * author name contain no braces, so an over-long text is replaced by the
 * fixed text of the expression itself. Steps 2 to 5 (25 fields, field cuts,
 * the total and the description cut) are the same and reuse `Embeds.Finish`.
 */
module RambamEmbeds {
  import opened Wrappers
  import Embeds

  const TitleLiteral := "self.title[:self.MAX_TITLE_LENGTH]..."
  const DescriptionLiteral := "self.description[:self.MAX_DESCRIPTION_LENGTH]..."
  const FooterLiteral := "self.footer.text[:self.MAX_FOOTER_TEXT_LENGTH]..."
  const AuthorLiteral := "self.author.name[:self.MAX_AUTHOR_NAME_LENGTH]..."

  /** `if s and len(s) > max: s = literal`. */
  function Replace(s: string, max: nat, literal: string): (r: string)
    ensures |s| <= max ==> r == s
    ensures |s| > max ==> r == literal
  {
    if |s| > max then literal else s
  }

  /** Step 1 as written in this copy. */
  function ReplaceHead(e: Embeds.Embed): Embeds.Embed {
    e.(title := if e.title.Some? then Some(Replace(e.title.value, Embeds.MaxTitleLength, TitleLiteral)) else None,
       description := if e.description.Some? then Some(Replace(e.description.value, Embeds.MaxDescriptionLength, DescriptionLiteral)) else None,
       footer := if e.footer.Some? then Some(e.footer.value.(text := Replace(e.footer.value.text, Embeds.MaxFooterTextLength, FooterLiteral))) else None,
       author := if e.author.Some? then Some(e.author.value.(name := Replace(e.author.value.name, Embeds.MaxAuthorNameLength, AuthorLiteral))) else None)
  }

  /** The embed after all truncation steps of this copy. */
  function Truncated(e: Embeds.Embed): Embeds.Embed {
    Embeds.Finish(ReplaceHead(e))
  }

  class EmbedData {
    var title: Option<string>
    var description: Option<string>
    var url: Option<string>
    var timestamp: Option<string>
    var color: Option<int>
    var footer: Option<Embeds.EmbedFooter>
    var author: Option<Embeds.EmbedAuthor>
    var fields: seq<Embeds.EmbedField>
    var kind: string

    function State(): Embeds.Embed
      reads this
    {
      Embeds.Embed(title, description, url, timestamp, color, footer, author, fields, kind)
    }

    constructor (e: Embeds.Embed)
      ensures State() == e
    {
      title, description, url, timestamp, color := e.title, e.description, e.url, e.timestamp, e.color;
      footer, author, fields, kind := e.footer, e.author, e.fields, e.kind;
    }

    /** The truncation part of `to_discord_embed` in this copy; the result is
        what the library is then given, with the type filtered. */
    method ToDiscordEmbed() returns (embed: Embeds.Embed)
      modifies this
      ensures State() == Truncated(old(State()))
      ensures embed == State().(kind := Embeds.EmbedType(kind))
    {
      ReplaceTexts();
      TruncateFields();
      embed := State().(kind := Embeds.EmbedType(kind));
    }

    /** Step 1 as written in this copy. */
    method ReplaceTexts()
      modifies this
      ensures State() == ReplaceHead(old(State()))
    {
      if title.Some? && |title.value| > Embeds.MaxTitleLength {
        title := Some(TitleLiteral);
      }
      if description.Some? && |description.value| > Embeds.MaxDescriptionLength {
        description := Some(DescriptionLiteral);
      }
      if footer.Some? && |footer.value.text| > Embeds.MaxFooterTextLength {
        footer := Some(footer.value.(text := FooterLiteral));
      }
      if author.Some? && |author.value.name| > Embeds.MaxAuthorNameLength {
        author := Some(author.value.(name := AuthorLiteral));
      }
    }

    /** Steps 2 to 5, as in the other copy. */
    method TruncateFields()
      modifies this
      ensures State() == Embeds.Finish(old(State()))
    {
      if |fields| > Embeds.MaxFields {
        fields := fields[..Embeds.MaxFields];
      }
      var total := |Embeds.OrEmpty(title)| + |Embeds.OrEmpty(description)|
        + (if footer.Some? then |footer.value.text| else 0)
        + (if author.Some? then |author.value.name| else 0);
      var cut, counted := Embeds.CutFieldsCounting(fields);
      fields := cut;
      ShortenDescription(total + counted);
    }

    /** Step 5 against the total `total`. */
    method ShortenDescription(total: int)
      modifies this
      ensures State() == old(State()).(description := Embeds.CutDescription(old(description), total))
    {
      if total > Embeds.MaxTotalCharacters {
        var excess := total - Embeds.MaxTotalCharacters;
        if description.Some? && |description.value| > excess {
          description := Some(description.value[..|description.value| - excess]);
        } else {
          description := Some("");
        }
      }
    }
  }

  /** The limits still hold in this copy, since every literal is shorter
      than its limit: title 256, description 4093, footer 2045, author 253
      characters, and the field limits of the other copy. */
  lemma TruncatedBounds(e: Embeds.Embed)
    ensures var r := Truncated(e);
            && (r.title.Some? ==> |r.title.value| <= Embeds.MaxTitleLength)
            && (r.description.Some? ==> |r.description.value| <= Embeds.MaxDescriptionLength)
            && (r.footer.Some? ==> |r.footer.value.text| <= Embeds.MaxFooterTextLength)
            && (r.author.Some? ==> |r.author.value.name| <= Embeds.MaxAuthorNameLength)
            && |r.fields| <= Embeds.MaxFields
            && (forall i :: 0 <= i < |r.fields| ==> |r.fields[i].name| <= Embeds.MaxFieldNameLength && |r.fields[i].value| <= Embeds.MaxFieldValueLength)
            && r.url == e.url && r.timestamp == e.timestamp && r.color == e.color && r.kind == e.kind
  {
  }

  /** Texts within their limits are treated by both copies alike. */
  lemma AgreesWithinLimits(e: Embeds.Embed)
    requires e.title.Some? ==> |e.title.value| <= Embeds.MaxTitleLength
    requires e.description.Some? ==> |e.description.value| <= Embeds.MaxDescriptionLength
    requires e.footer.Some? ==> |e.footer.value.text| <= Embeds.MaxFooterTextLength
    requires e.author.Some? ==> |e.author.value.name| <= Embeds.MaxAuthorNameLength
    ensures Truncated(e) == Embeds.Truncated(e)
  {
    assert ReplaceHead(e) == Embeds.ShortenHead(e);
  }

  /** An over-long title loses all of its own text: the result is the fixed
      literal, never the first 256 characters followed by "..." that the
      other copy produces. */
  lemma TitleReplacedByLiteral(e: Embeds.Embed)
    requires e.title.Some? && |e.title.value| > Embeds.MaxTitleLength
    ensures Truncated(e).title == Some(TitleLiteral)
    ensures Truncated(e).title != Embeds.Truncated(e).title
    ensures !(e.title.value[..Embeds.MaxTitleLength] <= Truncated(e).title.value)
  {
  }
}
