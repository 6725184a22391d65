# RambamBot reference resolution, in Dafny

RambamBot is a Discord bot. It answers chat messages with Bible and Sefaria
texts. This project models the deterministic core between the chat and the
web services, and proves what that core promises:

- **Reference extraction** (`BibleBooks.extract_book_reference`,
  helpers/helpers.py). A reference such as "1 Sam 3:4-9" is matched against
  one anchored pattern. The book span is resolved through the alias table. The
  result says whether the reference is valid and whether it is "large", and
  carries a normalised text. The pattern is modelled by a hand-written
  left-to-right scanner (`Reference`). The alias table and its first-entry-wins,
  case-insensitive lookup `get_book_name` are in `BookTable`.
- **Fuzzy ranking** (`fuzzy_match_best_dicts`, `FuzzyRanker`). Records are
  kept when their summed similarity is positive and some field reaches the
  threshold. They are returned by descending total, ties in input order. The
  stable sort is `StableSort`, proved ordered, a permutation, and stable.
- **Keyword scanning** (`KeywordMessageParser`, `KeywordScanner`). Book titles
  followed by chapter numbers are found in a message, once against the
  Christian titles and once against the remaining titles of the Sefaria
  index. The pattern `\b(titles)\s+(\d+(?:\.\d+|:\d+)*)` is read with
  `re.finditer` semantics: ordered alternation, left to right, no overlaps.
  The hits are tagged, stably sorted by offset, and bare chapters are dropped.
- **Discord embeds** (`Embeds`, `RambamEmbeds`, `Pagination`). Embeds are
  truncated in place against Discord's limits, in both copies of
  `to_discord_embed`. The vendored copy under rambam/ replaces an over-long
  text with a fixed literal. Embeds are paginated with an optional header and
  footer on each page.
- **Sefaria helpers** (`Sefaria`). These are the pre-order flattening of
  lexicon senses and of the text index, the post-processing of fetched version
  records, the request parameters and embeds of a text lookup, and the
  removal of link tags.
- **Version conversion** (`BibleData.convert_version`, `BibleGateway`). It
  converts between a version's short code and its long name.

Character classes follow the patterns. `\d` is the ASCII digits and `\w` is
the ASCII word characters. `\s` and `str.strip()` use Python's `str.isspace()`
set, and `str.lower()` is ASCII lower-casing.

The alias table `bible_books` has three parts: the entries from Genesis to
Jude, a block from Revelation to the end of the deutero-canonical books
(helpers/helpers.py:450-570), and that same block once more
(helpers/helpers.py:571-690). The model
declares the table in this form (`CanonEntries + RepeatedEntries +
RepeatedEntries`) and proves that the repetition never changes a lookup.
`BibleData` in sources/biblegateway.py lists the same 84 titles as
`bible_books_list`, so `BookTable.BibleBooksList` serves both.

## Model

| member | source | states |
|---|---|---|
| Text.LowerChar | helpers/helpers.py:138 | `str.lower()` on one character maps an ASCII capital to a small letter and leaves every other character unchanged |
| Text.StripLeft | helpers/helpers.py:94 | removes exactly the leading white space: the result is a suffix of the input, every removed character is white space, and the result does not start with white space |
| Text.StripRight | helpers/helpers.py:94 | removes exactly the trailing white space: the result is a prefix, every removed character is white space, and the result does not end with white space |
| Text.StripUnchanged | helpers/helpers.py:94 | a string with no white space at either end is its own `strip()` |
| Text.StripKeepsNonSpace | helpers/helpers.py:94 | a string holding any character other than white space does not strip to "" |
| Text.IndexOf | helpers/helpers.py:104-105 | the position of the first occurrence of the character, or the length when there is none; no earlier position holds it |
| Text.RunEndMaximal | helpers/helpers.py:84 | a greedy run: every character in it belongs to the class and the character after it does not |
| Text.RunEndIs | helpers/helpers.py:84 | a maximal run is determined by its start: any run that cannot be extended ends where `RunEnd` says |
| StableSort.WithKeyAppend | helpers/helpers.py:46 | the elements with a given key of a concatenation are those of the first part followed by those of the second |
| StableSort.InsertPermutes | helpers/helpers.py:46 | insertion adds exactly the inserted element (as multisets) |
| StableSort.InsertSorted | helpers/helpers.py:46 | insertion into a sequence sorted by key keeps it sorted |
| StableSort.InsertWithKey | helpers/helpers.py:46 | an inserted element goes behind every element with an equal key |
| StableSort.SortByCorrect | helpers/helpers.py:46 | `list.sort(key=...)`: the result is sorted by key, is a permutation of the input, and keeps the input order among equal keys |
| BookTable.BookNameIn | helpers/helpers.py:130-140 | the lookup returns either the reference unchanged or the stripped book of an entry that lists the reference, ignoring case |
| BookTable.BookNameInFirstOwner | helpers/helpers.py:137-140 | the first entry in table order that lists the reference decides; with no such entry the reference is returned unchanged, so canonical names are not consulted |
| BookTable.BookNameIgnoresRedundant | helpers/helpers.py:137-139 | appending entries that already occur in the table, or that do not list the reference, never changes a lookup |
| BookTable.NoOwnerNone | helpers/helpers.py:140 | a table in which no entry lists the reference returns it unchanged |
| BookTable.BookNameInNamed | helpers/helpers.py:137-140 | over a table whose book names start with a character other than white space, a non-empty reference resolves to a non-empty name |
| BookTable.BibleBooksNamed | helpers/helpers.py:168-691 | every book name of `bible_books` starts with a character other than white space |
| BookTable.RepeatedBlockIrrelevant | helpers/helpers.py:571-690 | the repeated block at the end of `bible_books` never changes `get_book_name` |
| BookTable.BookNameIgnoresCase | helpers/helpers.py:138 | two references equal ignoring case resolve to the same book, unless neither resolves |
| BookTable.GetBookNameGenesis | helpers/helpers.py:136-139 | "gen" and "GN" resolve to "Genesis": the first entry lists them, ignoring case |
| BookTable.GenesisFirst | helpers/helpers.py:136-139 | a table whose first entry is Genesis with its three abbreviations answers "gen" and "GN" with "Genesis" |
| BookTable.GetBooks | helpers/helpers.py:143-149 | `get_books` returns the 84 titles of `bible_books_list` in declaration order |
| Reference.MatchReference | helpers/helpers.py:84 | a match's title group is a non-empty prefix of the input; a chapter is a non-empty run of digits; without a chapter there is no side and no verse |
| Reference.MatchTail | helpers/helpers.py:84 | the optional part after the title: the title is everything before it, a chapter is digits, and side and verse need a chapter |
| Reference.MatchVerse | helpers/helpers.py:84 | a verse is read only after ":" or "." and is never empty |
| Reference.FormatReference | helpers/helpers.py:110-117 | with no book and no parts the formatted reference is the text "None" |
| Reference.ExtractReferenceIn | helpers/helpers.py:61-127 | for any alias table: without a match every part is None, `valid` and `large_reference` are false and `reference` is "None"; `valid` holds exactly when a chapter was captured and the resolved book is non-empty; a large reference needs a match |
| Reference.ExtractBookReference | helpers/helpers.py:61-127 | the same three facts for the source's own table, which this function passes to `ExtractReferenceIn` |
| Reference.MatchedTitleNonEmpty | helpers/helpers.py:84-93 | the title group of a match holds a letter, so it does not strip to "" |
| Reference.MatchedBookNamed | helpers/helpers.py:92-100 | for a table of named books: a book is found exactly when the pattern matches, it is never empty, and so `valid` holds exactly when a chapter was captured |
| Reference.ExtractBookReferenceValid | helpers/helpers.py:84-100 | for the source's table: a match always yields a non-empty book, and `valid` holds exactly when a chapter was captured |
| Reference.WordsEndJoin | helpers/helpers.py:84 | `(?:\s[A-Za-z]+)*` reads words joined by single spaces up to the first place that cannot continue them |
| Reference.TitleScan | helpers/helpers.py:84 | the title group ends exactly where a title written in the pattern's shape ends |
| Reference.VerseScan | helpers/helpers.py:84 | a separator followed by a verse or a range that ends the input is read as that verse |
| Reference.TitleRead | helpers/helpers.py:84 | a title followed by a space and a digit is read as exactly that title |
| Reference.TailRead | helpers/helpers.py:84 | a chapter, side and verse written after a title are read back as written |
| Reference.MatchReferenceText | helpers/helpers.py:84 | round trip: reading a reference written in the pattern's shape gives back its title, chapter, side and verse, whichever of ":" and "." separates the verse |
| Reference.TitleEnds | helpers/helpers.py:94 | such a title has no white space at either end, so `strip()` keeps it |
| Reference.ExtractReferenceInText | helpers/helpers.py:61-127 | for any alias table and such a reference: the book is the title resolved through the table, chapter, side and verse are kept, `valid` holds exactly when the book is non-empty, the verse is written after ":" even when given after ".", and the reference is large exactly when it has no verse or a range of more than ten verses |
| Reference.FormatReferenceText | helpers/helpers.py:110-117 | the formatted reference is the book, one space, the chapter, the side, and ":" with the verse |
| Reference.LargeVerseText | helpers/helpers.py:102-108 | a written verse is large exactly when it is a range whose end exceeds its start by more than ten |
| Reference.LargeVerseExamples | helpers/helpers.py:102-108 | "1-11" is not large, "1-12" is, the reversed "10-5" is not, a single verse is not, no verse is |
| Reference.NoMatchExamples | helpers/helpers.py:84-127 | for any table, ":3" and "12 3" do not match and give the all-empty result |
| Reference.ReparseReference | helpers/helpers.py:61-127 | parsing the formatted reference again keeps chapter, side, verse and largeness and looks the book up once more, so the result is a fixed point whenever the resolved name maps to itself |
| FuzzyRanker.Get | helpers/helpers.py:38 | a missing field reads as "" |
| FuzzyRanker.Pairs | helpers/helpers.py:35 | `zip` forms as many pairs as the shorter list has elements |
| FuzzyRanker.PairScore | helpers/helpers.py:36-39 | a pair with a `None` target scores 0; every score lies in 0..100 |
| FuzzyRanker.TotalScore | helpers/helpers.py:34-40 | the total lies between 0 and 100 times the number of pairs |
| FuzzyRanker.Matches | helpers/helpers.py:32-44 | every match is an input record carrying its total score |
| FuzzyRanker.Items | helpers/helpers.py:48 | the records of the matches, position by position |
| FuzzyRanker.FuzzyMatchBestDicts | helpers/helpers.py:21-48 | the loop computes the qualifying records stably sorted by descending total |
| FuzzyRanker.MatchesItems | helpers/helpers.py:32-44 | the matched records are the kept records, in input order |
| FuzzyRanker.KeptMembers | helpers/helpers.py:41-44 | a record is kept exactly when it occurs in the input, its total is positive and some pair with a target reaches the threshold |
| FuzzyRanker.RankedMembers | helpers/helpers.py:44-48 | the result is a permutation of the kept records and holds exactly the qualifying input records |
| FuzzyRanker.NoTargetsNoResult | helpers/helpers.py:36-44 | with every target `None` the result is empty |
| FuzzyRanker.ItemsPermute | helpers/helpers.py:48 | projecting permuted matches to their records gives permuted records |
| FuzzyRanker.RankedDescending | helpers/helpers.py:46-48 | the result is ordered by non-increasing total score |
| FuzzyRanker.RankedStable | helpers/helpers.py:46 | matches with equal totals keep their input order |
| KeywordScanner.TryTitle | helpers/keywordmessageparser.py:30 | a match of one title starts at the given position, ends after it within the message, and names that title |
| KeywordScanner.FirstTitle | helpers/keywordmessageparser.py:35 | a match of the alternation names one of the titles |
| KeywordScanner.Alternatives | helpers/keywordmessageparser.py:35 | an empty title list gives the empty alternative; a non-empty list is tried as given |
| KeywordScanner.MatchAt | helpers/keywordmessageparser.py:30 | a match at a position starts there and names one of the alternatives, and nothing matches where `\b` does not hold |
| KeywordScanner.MatchAtWins | helpers/keywordmessageparser.py:30-35 | at a word boundary the match is the alternation's; the pattern matches at a position exactly when it is a word boundary and some title succeeds there, and then the first such title in list order gives the match |
| KeywordScanner.FindIter | helpers/keywordmessageparser.py:36 | every reported match lies within the searched part of the message |
| KeywordScanner.FindIterSound | helpers/keywordmessageparser.py:36 | every reported match is what the pattern matches at its own start |
| KeywordScanner.OrderedCons | helpers/keywordmessageparser.py:36 | a match ending before the rest begin extends an ordered list |
| KeywordScanner.FindIterOrdered | helpers/keywordmessageparser.py:36 | matches are reported left to right and none overlaps the next |
| KeywordScanner.FindIterComplete | helpers/keywordmessageparser.py:36 | no match is missed: every position where the pattern matches is the start of, or inside, a reported match |
| KeywordScanner.FindIterCovers | helpers/keywordmessageparser.py:36 | one position where the pattern matches lies in some reported match, by induction on the scan |
| KeywordScanner.FirstTitleWins | helpers/keywordmessageparser.py:35 | at a position the first title in list order for which the pattern succeeds wins, not the longest |
| KeywordScanner.FirstTitleNone | helpers/keywordmessageparser.py:35 | the alternation fails exactly when every title fails |
| KeywordScanner.TryTitleShape | helpers/keywordmessageparser.py:30 | a match is the title, one or more white-space characters, then the numbers, starting with a digit |
| KeywordScanner.TryTitleNumbers | helpers/keywordmessageparser.py:30 | the numbers hold only digits, "." and ":", and stop where no digit and no `.digits`/`:digits` group follows, so a range is cut before the dash |
| KeywordScanner.GroupsShape | helpers/keywordmessageparser.py:30 | `(?:\.\d+|:\d+)*` after a digit run takes digits and separators only, as far as a group continues |
| KeywordScanner.HitOf | helpers/keywordmessageparser.py:38 | a result is the match start, the tag, and the title, one space and the numbers, however much white space the message had |
| KeywordScanner.Tagged | helpers/keywordmessageparser.py:37-38 | one result per match, in order, with the list's tag |
| KeywordScanner.Specific | helpers/keywordmessageparser.py:50 | the filter keeps exactly the results with a digit, a separator or white space, and a digit, in order |
| KeywordScanner.IndexTitles | helpers/keywordmessageparser.py:20 | the titles of exactly the index entries that have one |
| KeywordScanner.Without | helpers/keywordmessageparser.py:21 | keeps exactly the titles not on the Christian list |
| KeywordScanner.SecondList | helpers/keywordmessageparser.py:19-21 | the second list holds exactly the index titles that are not Christian titles, so a shared name is only ever tagged "biblegateway" |
| KeywordScanner.KeywordMessageParser.constructor | helpers/keywordmessageparser.py:14-21 | the Christian list is `bible_books_list`; the second list is built from the index as above |
| KeywordScanner.KeywordMessageParser.ParseMessage | helpers/keywordmessageparser.py:23-52 | the two loops, the sort and the filter compute `Parse`; the title lists are not modified |
| KeywordScanner.SpecificSorted | helpers/keywordmessageparser.py:47-50 | filtering keeps a sorted list sorted |
| KeywordScanner.SpecificAppend | helpers/keywordmessageparser.py:50 | filtering a concatenation filters each part |
| KeywordScanner.SpecificWithKey | helpers/keywordmessageparser.py:47-50 | filtering commutes with selecting one start offset |
| KeywordScanner.ParseResults | helpers/keywordmessageparser.py:23-52 | the results are sorted by start, each names a chapter and a verse, and they are exactly the specific hits of both lists |
| KeywordScanner.ParseStable | helpers/keywordmessageparser.py:47 | at equal offsets the Christian-list results precede the others, each list in its own order |
| KeywordScanner.SpecificExamples | helpers/keywordmessageparser.py:50 | "John 3" and "1 Samuel 3" are dropped, "John 3:16" and "John 3.16" are kept |
| KeywordScanner.RangeExample | helpers/keywordmessageparser.py:30 | in "John 3:16-18" the match is "John" with the numbers "3:16" |
| Pagination.Wrap | helpers/pycord_helpers.py:278-284 | a page holds its contents plus one embed for the header and one for the footer when they are given |
| Pagination.WrapAll | helpers/pycord_helpers.py:284 | one page per chunk of contents, each the framed chunk |
| Pagination.WrapAllAppend | helpers/pycord_helpers.py:284 | closing one more page appends its framed contents |
| Pagination.ChunksAdvance | helpers/pycord_helpers.py:277-285 | closing a full page moves it from the pending input to the finished pages |
| Pagination.CreatePaginatedEmbeds | helpers/pycord_helpers.py:254-297 | the pages are the framed chunks of the input for capacity `embeds_per_page` minus one per header or footer |
| Pagination.LastPage | helpers/pycord_helpers.py:287-295 | after the loop what remains of the input is the last page, if it is not empty |
| Pagination.ClosePage | helpers/pycord_helpers.py:277-285 | when the page under construction is full it becomes the next finished page and the chunk decomposition advances past it |
| Pagination.CloseLast | helpers/pycord_helpers.py:287-295 | after the loop the pages become exactly the framed chunks of the whole input |
| Pagination.AddPage | helpers/pycord_helpers.py:278-284 | appending a framed page extends the pages of the finished chunks by that chunk |
| Pagination.BuildPage | helpers/pycord_helpers.py:278-282 | the header is put in front of the contents and the footer after them |
| Pagination.ChunksFlatten | helpers/pycord_helpers.py:274-295 | the contents of the pages concatenate to the input, in order |
| Pagination.ChunksSizes | helpers/pycord_helpers.py:277-295 | with capacity at least one, every page but the last is full, the last holds 1 to capacity embeds, and there are ceil(n / capacity) pages |
| Pagination.Paginated | helpers/pycord_helpers.py:264-297 | for any capacity: contents concatenate to the input, an empty input gives no pages, every page is non-empty, starts with the header and ends with the footer |
| Pagination.NoCapacityOnePage | rambam/helpers/pycord_helpers.py:208-229 | with capacity below one the length test never fires, so a non-empty input becomes one framed page |
| Pagination.ChunksNonEmpty | rambam/helpers/pycord_helpers.py:222-229 | no page is empty |
| Embeds.Shorten | helpers/pycord_helpers.py:123-130 | an over-long text becomes its first `limit` characters and "...", at most `limit + 3` long; a text within its limit is unchanged |
| Embeds.ShortenIdempotent | helpers/pycord_helpers.py:123-130 | shortening twice is shortening once |
| Embeds.ShortenOpt | helpers/pycord_helpers.py:123-126 | an absent text stays absent; a present one is shortened |
| Embeds.Cut | helpers/pycord_helpers.py:144-155 | a field text is cut to a prefix of length `min(len, limit)`, with no ellipsis |
| Embeds.Counted | helpers/pycord_helpers.py:144-157 | the loop counts a field text's cut length only when it was cut |
| Embeds.CutField | helpers/pycord_helpers.py:144-155 | name and value become prefixes of the limited lengths; `inline` is kept |
| Embeds.CutFields | helpers/pycord_helpers.py:144-157 | every field is cut, position by position |
| Embeds.KeptFields | helpers/pycord_helpers.py:133-134 | the first `min(n, 25)` fields are kept |
| Embeds.CutDescription | helpers/pycord_helpers.py:159-165 | within 6000 the description is unchanged; above it, it becomes a prefix of its old text shorter by the excess, or "" |
| Embeds.EmbedType | helpers/pycord_helpers.py:173 | a type outside Discord's list becomes "rich" |
| Embeds.EmbedData.ShortenTexts | helpers/pycord_helpers.py:123-130 | step 1 in place: title, description, footer text and author name are shortened and nothing else changes |
| Embeds.EmbedData.TruncateFields | helpers/pycord_helpers.py:132-165 | steps 2 to 5 in place: field count, field cuts, the running total and the description cut |
| Embeds.EmbedData.ShortenDescription | helpers/pycord_helpers.py:159-165 | only the description changes, as `CutDescription` says |
| Embeds.EmbedData.ToDiscordEmbed | helpers/pycord_helpers.py:116-173 | the new state is the truncated embed and the result carries the filtered type |
| Embeds.CreateEmbed | helpers/pycord_helpers.py:201-209 | `create_embed` truncates the data object in place and returns the truncated embed with the filtered type |
| Embeds.CreatedWithinTotal | helpers/pycord_helpers.py:120-162 | data whose total stays within 6000 characters only has its head texts shortened and its fields cut; the description is not cut further |
| Embeds.CutFieldsCounting | helpers/pycord_helpers.py:144-157 | the field loop cuts every field and returns the characters it counts |
| Embeds.TruncatedBounds | helpers/pycord_helpers.py:107-157 | title at most 259, description 4096, footer 2048, author 256 characters, at most 25 fields of names of at most 253 and values of at most 1021 characters; url, timestamp, colour and type unchanged |
| Embeds.TruncatedKeepsPrefixes | helpers/pycord_helpers.py:123-157 | what survives is original text: shortened head texts, a description that is a prefix of its shortened form, the first fields with prefixes of their texts |
| Embeds.FinishMeetsTotal | helpers/pycord_helpers.py:137-165 | the description is cut only when the counted total exceeds 6000, and then to bring the counted total to exactly 6000 or to "" |
| Embeds.UncutFieldsUncounted | helpers/pycord_helpers.py:144-157 | fields within their limits add nothing to the total, however long they are |
| RambamEmbeds.Replace | rambam/helpers/pycord_helpers.py:87-94 | a text within its limit is kept; an over-long one becomes the fixed literal |
| RambamEmbeds.EmbedData.ReplaceTexts | rambam/helpers/pycord_helpers.py:87-94 | step 1 of this copy in place: over-long head texts become the literals |
| RambamEmbeds.EmbedData.TruncateFields | rambam/helpers/pycord_helpers.py:96-129 | steps 2 to 5 in place, as in the other copy |
| RambamEmbeds.EmbedData.ShortenDescription | rambam/helpers/pycord_helpers.py:123-129 | only the description changes, against the total |
| RambamEmbeds.EmbedData.ToDiscordEmbed | rambam/helpers/pycord_helpers.py:85-129 | the new state is this copy's truncated embed |
| RambamEmbeds.TruncatedBounds | rambam/helpers/pycord_helpers.py:76-129 | every limit still holds, since each literal is shorter than its limit |
| RambamEmbeds.AgreesWithinLimits | rambam/helpers/pycord_helpers.py:85-129 | with head texts within their limits both copies truncate alike |
| RambamEmbeds.TitleReplacedByLiteral | rambam/helpers/pycord_helpers.py:87-88 | an over-long title becomes the literal, unlike the other copy, and keeps none of its first 256 characters |
| Sefaria.DefinitionsAppend | sources/sefaria.py:230-235 | the definitions of a list are those of its parts, in order |
| Sefaria.ItemDefinitionsShape | sources/sefaria.py:231-235 | an item's own definition comes before those of its nested senses; an item without one still has its senses visited |
| Sefaria.NoDefinitionsEmpty | sources/sefaria.py:232-235 | a tree with no definition anywhere gives none |
| Sefaria.ExtractDefinitions | sources/sefaria.py:230-235 | the loop appends the pre-order definitions of the senses to those collected so far |
| Sefaria.ExtractItemSenses | sources/sefaria.py:234-235 | the recursive call appends the definitions of the nested senses |
| Sefaria.FlattenDefinitions | sources/sefaria.py:226-238 | `flatten_definitions` returns every definition in pre-order |
| Sefaria.LeavesAppend | sources/sefaria.py:37-42 | the texts under a list are those under each part, in order |
| Sefaria.LeavesAreTexts | sources/sefaria.py:37-42 | categories never survive flattening; texts at the top level do |
| Sefaria.Recurse | sources/sefaria.py:37-42 | `recurse` appends the texts under the entries in depth-first order |
| Sefaria.RecurseInto | sources/sefaria.py:39-40 | a category contributes the texts under its contents |
| Sefaria.Titled | sources/sefaria.py:56 | keeps exactly the entries that have a title |
| Sefaria.FlattenIndex | sources/sefaria.py:52-58 | the flattened index is the titled texts of the tree, in order |
| Sefaria.FlattenIndexMembers | sources/sefaria.py:37-58 | the flattened index holds exactly the titled texts, and every titled top-level text |
| Sefaria.TitleList | sources/sefaria.py:61-62 | one title is wrapped in a list; a list is kept |
| Sefaria.Concat | sources/sefaria.py:88 | a record is in the concatenation exactly when it is in one of the lists |
| Sefaria.WithVersionKeys | sources/sefaria.py:89 | keeps exactly the records with `title`, `versionTitle` and `languageFamilyName` |
| Sefaria.CollectVersions | sources/sefaria.py:88-91 | the versions are exactly the complete records of the fetched lists |
| Sefaria.CollectVersionsAppend | sources/sefaria.py:88-89 | records of earlier lists come first |
| Sefaria.Printed | sources/sefaria.py:99 | a present key prints its value, a missing one "None" |
| Sefaria.VersionParameter | sources/sefaria.py:98-105 | "primary" without a candidate, a "|"-separated pair otherwise |
| Sefaria.FillParameter | sources/sefaria.py:106 | 1 exactly when missing segments are filled, else 0 |
| Sefaria.VersionParameterSplits | sources/sefaria.py:99 | the parameter splits back into the family and the version title at its first "|" |
| Sefaria.ResponseText | sources/sefaria.py:116-121 | the first version's text, or "Reference not found." when there is no version or it has no text |
| Sefaria.LineEmbed | sources/sefaria.py:137-141 | the embed created for one line holds only the description, cut to 4093 characters followed by "..." when longer; the total never forces a further cut |
| Sefaria.LineEmbeds | sources/sefaria.py:135-147 | one created embed for a string, one per line for a list, in order |
| Sefaria.CreateLineEmbeds | sources/sefaria.py:135-147 | the loop that calls `create_embed` per line builds exactly those embeds |
| Sefaria.HeaderEmbed | sources/sefaria.py:123-133 | the created header: the reference as title cut to 256 characters plus "...", the footer naming the best candidate's version title cut to 2045 plus "...", version and language fields cut to 1021 characters, no description, no url, timestamp, color or author, type "rich" |
| Sefaria.HeaderCounted | sources/sefaria.py:125-129 | the header's fields add at most 2042 characters to the total, since only the version and language values can be cut |
| Sefaria.CreateHeaderEmbed | sources/sefaria.py:123-133 | building the header data and calling `create_embed` gives that embed |
| Sefaria.GetSefariaText | sources/sefaria.py:93-151 | the request carries the formatted reference, the version parameter and the fill flag; without a ranked candidate the lookup fails; otherwise the pages are the created line embeds paginated by ten behind the created header |
| Sefaria.SefariaPages | sources/sefaria.py:135-149 | every page starts with the header and the lines appear across the pages in order; no lines give no pages |
| Sefaria.SefariaPageSizes | sources/sefaria.py:137-149 | a page holds at most ten embeds, and a single string gives a single page |
| Sefaria.StripAnchors | sources/sefaria.py:208 | removing tags never lengthens a text |
| Sefaria.StripAnchorsKeep | sources/sefaria.py:208 | a character other than "<" is kept |
| Sefaria.StripAnchorsPlain | sources/sefaria.py:208 | text without "<" passes unchanged |
| Sefaria.StripAnchorsOpening | sources/sefaria.py:208 | an opening `<a ...>` tag is removed up to its first ">" |
| Sefaria.StripAnchorsClosing | sources/sefaria.py:208 | a closing `</a>` tag is removed |
| Sefaria.StripAnchorsLink | sources/sefaria.py:208 | a link keeps its text and loses both tags |
| BibleGateway.KeyIndex | sources/biblegateway.py:182 | the position of the entry whose code equals the version exactly, or the table length |
| BibleGateway.LongNameIndex | sources/biblegateway.py:185-187 | the first entry whose long name equals the version ignoring case, or the table length |
| BibleGateway.ConvertIn | sources/biblegateway.py:175-188 | `None` exactly when the version is no code and equals no long name ignoring case; a code gives a long name of its entry |
| BibleGateway.ConvertCode | sources/biblegateway.py:182-183 | with distinct codes a code converts to its own long name |
| BibleGateway.ConvertLongName | sources/biblegateway.py:185-187 | a string that is no code converts to the code of the first long name it equals ignoring case |
| BibleGateway.RoundTrip | sources/biblegateway.py:103-188 | in a table with distinct codes, no long name that is a code, and long names distinct ignoring case, converting a code twice gives it back and a long name converts to its code |
| BibleGateway.ConvertIgnoresCase | sources/biblegateway.py:186 | strings equal ignoring case that are no codes convert alike |

## Left out

- HTTP requests, their status codes and JSON decoding are left out. What a request returns enters as a parameter: the fetched version lists, the index tree, or a function from request to response.
- The thread pool of `fetch_sefaria_versions` is left out. The fetched lists are a parameter in completion order, and the lists of failed requests are absent.
- `fuzzywuzzy.fuzz.ratio`, `markdownify` and `urllib.parse.quote` are library code. The first two are function parameters, and `ratio` is assumed to return 0 to 100. The reference passed to `quote` is modelled unquoted.
- `discord.Embed`, `pages.Page` and the truthiness of an embed are library code. `Pagination` treats embeds as opaque values, and header and footer presence is an `Option`. The embeds of a Sefaria lookup are the truncated data that `create_embed` hands to the library.
- Sefaria.HeaderEmbed: a missing version or language becomes an empty field value. Truncation treats `None` and "" alike, since both are falsy and neither is cut or counted; how the library renders a `None` value is not modelled.
- The footer, author and field objects are values. `to_discord_embed` assigns to their attributes, which another holder of the same object would see; the model does not capture that aliasing.
- Image, thumbnail, video and provider of an embed are left out, with the video-thumbnail branch; they only feed library calls. The `timestamp` parsing is left out as well.
- Regular-expression classes are ASCII: `\d`, `\w`, `[A-Za-z]` and `str.lower()` ignore non-ASCII digits, letters and case.
- Only the three fixed patterns are modelled, as scanners, not a regex engine. The `\b` and ordered-alternation semantics are those of Python's engine for these patterns.
- `BibleBooks.convert_version` in helpers/helpers.py:152-166 is left out. It reads `versions`, a dataclass field with a default factory, through the class, where it does not exist. The conversion is modelled through `BibleData` in sources/biblegateway.py.
- BookTable.GetBookName: no contract of its own. What it computes is stated by `BookNameIn`, `BookNameInFirstOwner` and `RepeatedBlockIrrelevant`.
- Lookups that are answered only after a scan past many entries of a concrete table are not proved, because ruling out every earlier entry is beyond the verifier's budget. Examples are "Ecclesiasticus" resolving to "Sirach", "genesis" coming back unchanged, and "niv" converting to `None`. A lookup answered by the first entry is proved (`GetBookNameGenesis`), and the general lemmas hold for every table.
- BibleGateway.RoundTrip: proved for every table that is `WellFormed`: distinct codes, no long name that is also a code, and long names distinct ignoring case. That the 63-entry `versions` table of sources/biblegateway.py is `WellFormed` is not proved, so the round trip is not established for that concrete table.
- `fetch_sefaria_index` with a failed request passes `None` to `recurse`, which raises. The model takes the fetched tree as given.
- The pagination copy in rambam/helpers/pycord_helpers.py:196-231 is the same routine line for line and is modelled once by `Pagination`.
- sources/filmot.py, rambam/sources/bibleapi.py and rambam.py (bot wiring) are not part of this model.

## Findings

| source | as written | input that shows it | evidently intended | confidence | as-written member | corrected member |
|---|---|---|---|---|---|---|
| rambam/helpers/pycord_helpers.py:87-94 | the f-strings have no braces, so an over-long title, description, footer text or author name is replaced by the text of the expression, such as `self.title[:self.MAX_TITLE_LENGTH]...` | a title of 257 characters | the first `limit` characters followed by "...", as in helpers/pycord_helpers.py:123-130 | high, not executed | RambamEmbeds.TitleReplacedByLiteral | Embeds.TruncatedKeepsPrefixes |
