/**
 * `DiscordEmbedPaginator.create_paginated_embeds`: splitting a list of embeds
 * into pages of bounded size, each page framed by an optional header and
 * footer embed. The routine appears in helpers/pycord_helpers.py and, line for
 * line the same, in rambam/helpers/pycord_helpers.py; one model serves both.
 *
 * Embeds are opaque values of a type parameter. Whether a header or footer is
 * given is an `Option`.
 */
module Pagination {
  import opened Wrappers

  datatype Page<E> = Page(embeds: seq<E>)

  /** Content embeds per page: `embeds_per_page`, one less for a header, one
      less for a footer. */
  function Capacity(hasHeader: bool, hasFooter: bool, perPage: int): int {
    perPage - (if hasHeader then 1 else 0) - (if hasFooter then 1 else 0)
  }

  /** The page built from `content`: the header first, the footer last. */
  function Wrap<E>(header: Option<E>, content: seq<E>, footer: Option<E>): (r: seq<E>)
    ensures |r| == |content| + (if header.Some? then 1 else 0) + (if footer.Some? then 1 else 0)
  {
    (if header.Some? then [header.value] else []) + content + (if footer.Some? then [footer.value] else [])
  }

  /** The contents of the pages when every page holds `cap` embeds but the
      last, which holds what remains. */
  function Chunks<E>(xs: seq<E>, cap: int): (cs: seq<seq<E>>)
    requires cap >= 1
    decreases |xs|
  {
    if |xs| <= cap then (if xs == [] then [] else [xs])
    else [xs[..cap]] + Chunks(xs[cap..], cap)
  }

  /** The contents of the pages for any capacity: with a capacity below one
      the page is never full, so everything lands on one final page. */
  function PageContents<E>(xs: seq<E>, cap: int): (cs: seq<seq<E>>)
  {
    if cap >= 1 then Chunks(xs, cap) else if xs == [] then [] else [xs]
  }

  function WrapAll<E>(header: Option<E>, contents: seq<seq<E>>, footer: Option<E>): (pages: seq<Page<E>>)
    ensures |pages| == |contents|
    ensures forall i :: 0 <= i < |contents| ==> pages[i] == Page(Wrap(header, contents[i], footer))
  {
    seq(|contents|, i requires 0 <= i < |contents| => Page(Wrap(header, contents[i], footer)))
  }

  lemma WrapAllAppend<E>(header: Option<E>, contents: seq<seq<E>>, c: seq<E>, footer: Option<E>)
    ensures WrapAll(header, contents + [c], footer) == WrapAll(header, contents, footer) + [Page(Wrap(header, c, footer))]
  {
  }

  function Flatten<E>(xss: seq<seq<E>>): (r: seq<E>)
  {
    if xss == [] then [] else xss[0] + Flatten(xss[1..])
  }

  /** A full page followed by the rest. */
  lemma ChunksStep<E>(xs: seq<E>, cap: int)
    requires cap >= 1 && |xs| >= cap
    ensures Chunks(xs, cap) == [xs[..cap]] + Chunks(xs[cap..], cap)
  {
    if |xs| == cap {
      assert xs[..cap] == xs;
    }
  }

  /** Closing a full page moves it from the pending input to the done pages. */
  lemma ChunksAdvance<E>(embeds: seq<E>, cap: int, done: seq<seq<E>>, start: nat, i: nat)
    requires cap >= 1 && start + cap == i <= |embeds|
    requires Chunks(embeds, cap) == done + Chunks(embeds[start..], cap)
    ensures Chunks(embeds, cap) == (done + [embeds[start..i]]) + Chunks(embeds[i..], cap)
  {
    var rest := embeds[start..];
    ChunksStep(rest, cap);
    assert rest[..cap] == embeds[start..i];
    assert rest[cap..] == embeds[i..];
  }

  /** `create_paginated_embeds(embeds=embeds, header_embed=header,
      footer_embed=footer, embeds_per_page=perPage)`. */
  method CreatePaginatedEmbeds<E>(embeds: seq<E>, header: Option<E>, footer: Option<E>, perPage: int)
    returns (pages: seq<Page<E>>)
    ensures pages == WrapAll(header, PageContents(embeds, Capacity(header.Some?, footer.Some?, perPage)), footer)
  {
    var cap := Capacity(header.Some?, footer.Some?, perPage);
    pages := [];
    var current: seq<E> := [];
    ghost var done: seq<seq<E>> := [];
    ghost var start: nat := 0;
    for i := 0 to |embeds|
      invariant start <= i && current == embeds[start..i]
      invariant cap >= 1 ==> i - start < cap && Chunks(embeds, cap) == done + Chunks(embeds[start..], cap)
      invariant cap < 1 ==> done == [] && start == 0
      invariant pages == WrapAll(header, done, footer)
    {
      current := current + [embeds[i]];
      assert current == embeds[start..i + 1];
      if |current| == cap {
        pages := ClosePage(embeds, cap, pages, header, current, footer, done, start, i + 1);
        done := done + [current];
        current := [];
        start := i + 1;
      }
    }
    pages := CloseLast(embeds, cap, pages, header, current, footer, done, start);
  }

  /** Closing a full page: it moves from the pending input to the pages. */
  method ClosePage<E>(embeds: seq<E>, cap: int, pages: seq<Page<E>>, header: Option<E>, current: seq<E>, footer: Option<E>,
                      ghost done: seq<seq<E>>, ghost start: nat, i: nat)
    returns (pages': seq<Page<E>>)
    requires cap >= 1 && start + cap == i <= |embeds| && current == embeds[start..i]
    requires Chunks(embeds, cap) == done + Chunks(embeds[start..], cap)
    requires pages == WrapAll(header, done, footer)
    ensures Chunks(embeds, cap) == (done + [current]) + Chunks(embeds[i..], cap)
    ensures pages' == WrapAll(header, done + [current], footer)
  {
    ChunksAdvance(embeds, cap, done, start, i);
    pages' := AddPage(pages, header, current, footer, done);
  }

  /** After the loop: what remains of the input is the last page, if any. */
  method CloseLast<E>(embeds: seq<E>, cap: int, pages: seq<Page<E>>, header: Option<E>, current: seq<E>, footer: Option<E>,
                      ghost done: seq<seq<E>>, ghost start: nat)
    returns (pages': seq<Page<E>>)
    requires start <= |embeds| && current == embeds[start..]
    requires cap >= 1 ==> |embeds| - start < cap && Chunks(embeds, cap) == done + Chunks(embeds[start..], cap)
    requires cap < 1 ==> done == [] && start == 0
    requires pages == WrapAll(header, done, footer)
    ensures pages' == WrapAll(header, PageContents(embeds, cap), footer)
  {
    LastPage(embeds, cap, done, start);
    pages' := pages;
    if |current| > 0 {
      pages' := AddPage(pages, header, current, footer, done);
    }
  }

  /** After the loop, what remains of the input is the last page, if any. */
  lemma LastPage<E>(embeds: seq<E>, cap: int, done: seq<seq<E>>, start: nat)
    requires start <= |embeds|
    requires cap >= 1 ==> |embeds| - start < cap && Chunks(embeds, cap) == done + Chunks(embeds[start..], cap)
    requires cap < 1 ==> done == [] && start == 0
    ensures PageContents(embeds, cap) == done + (if embeds[start..] == [] then [] else [embeds[start..]])
  {
    if cap < 1 {
      assert embeds[start..] == embeds;
    }
  }

  /** Framing `current` and appending it as a page. */
  method AddPage<E>(pages: seq<Page<E>>, header: Option<E>, current: seq<E>, footer: Option<E>, ghost done: seq<seq<E>>)
    returns (pages': seq<Page<E>>)
    requires pages == WrapAll(header, done, footer)
    ensures pages' == WrapAll(header, done + [current], footer)
  {
    var page := BuildPage(header, current, footer);
    WrapAllAppend(header, done, current, footer);
    pages' := pages + [Page(page)];
  }

  /** The framing steps of the source: the header put in front, the footer
      appended. */
  method BuildPage<E>(header: Option<E>, current: seq<E>, footer: Option<E>) returns (page: seq<E>)
    ensures page == Wrap(header, current, footer)
  {
    page := current;
    if header.Some? {
      page := [header.value] + page;
    }
    if footer.Some? {
      page := page + [footer.value];
    }
  }

  /** Taken together, the contents of the pages are the input, in order. */
  lemma {:induction false} ChunksFlatten<E>(xs: seq<E>, cap: int)
    requires cap >= 1
    ensures Flatten(Chunks(xs, cap)) == xs
    decreases |xs|
  {
    if |xs| > cap {
      ChunksFlatten(xs[cap..], cap);
      assert xs == xs[..cap] + xs[cap..];
    }
  }

  /** Every page but the last is full, the last holds between one and `cap`
      embeds, and there are ceil(n / cap) pages. */
  lemma {:induction false} ChunksSizes<E>(xs: seq<E>, cap: int)
    requires cap >= 1
    ensures var cs := Chunks(xs, cap);
            && |cs| == (|xs| + cap - 1) / cap
            && (forall i :: 0 <= i < |cs| - 1 ==> |cs[i]| == cap)
            && (cs != [] ==> 1 <= |cs[|cs| - 1]| <= cap)
    decreases |xs|
  {
    if |xs| > cap {
      ChunksSizes(xs[cap..], cap);
      var rest := Chunks(xs[cap..], cap);
      DivPlusDivisor(|xs[cap..]| + cap - 1, cap);
    } else if xs != [] {
      DivOne(|xs| + cap - 1, cap);
    }
  }

  /** The pages of any input: their contents concatenate to the input, and
      each page starts with the header and ends with the footer when those
      are given. An empty input gives no pages. */
  lemma Paginated<E>(embeds: seq<E>, header: Option<E>, footer: Option<E>, perPage: int)
    ensures var cs := PageContents(embeds, Capacity(header.Some?, footer.Some?, perPage));
            var pages := WrapAll(header, cs, footer);
            && Flatten(cs) == embeds
            && (embeds == [] <==> pages == [])
            && (forall i :: 0 <= i < |pages| ==> cs[i] != [] && pages[i].embeds == Wrap(header, cs[i], footer))
            && (forall i :: 0 <= i < |pages| && header.Some? ==> pages[i].embeds[0] == header.value)
            && (forall i :: 0 <= i < |pages| && footer.Some? ==> pages[i].embeds[|pages[i].embeds| - 1] == footer.value)
  {
    var cap := Capacity(header.Some?, footer.Some?, perPage);
    var cs := PageContents(embeds, cap);
    if cap >= 1 {
      ChunksFlatten(embeds, cap);
      ChunksSizes(embeds, cap);
      ChunksNonEmpty(embeds, cap);
    } else if embeds != [] {
      assert Flatten(cs) == embeds + Flatten([]);
    }
  }

  /** A capacity below one never fills a page: a non-empty input gives one
      page holding all of it, framed. */
  lemma NoCapacityOnePage<E>(embeds: seq<E>, header: Option<E>, footer: Option<E>, perPage: int)
    requires Capacity(header.Some?, footer.Some?, perPage) < 1 && embeds != []
    ensures WrapAll(header, PageContents(embeds, Capacity(header.Some?, footer.Some?, perPage)), footer)
         == [Page(Wrap(header, embeds, footer))]
  {
  }

  lemma {:induction false} ChunksNonEmpty<E>(xs: seq<E>, cap: int)
    requires cap >= 1
    ensures forall i :: 0 <= i < |Chunks(xs, cap)| ==> Chunks(xs, cap)[i] != []
    decreases |xs|
  {
    if |xs| > cap {
      ChunksNonEmpty(xs[cap..], cap);
    }
  }

  lemma MulMono(c: int, k: int)
    requires c >= 1 && k >= 1
    ensures c * k >= c
  {
    var i := 1;
    while i < k
      invariant 1 <= i <= k
      invariant c * i >= c
    {
      assert c * (i + 1) == c * i + c;
      i := i + 1;
    }
  }

  lemma DivUnique(n: int, c: int, q: int, r: int)
    requires c >= 1 && 0 <= r < c && n == c * q + r
    ensures n / c == q
  {
    var q', r' := n / c, n % c;
    assert n == c * q' + r';
    if q' > q {
      MulDiff(c, q', q);
    } else if q' < q {
      MulDiff(c, q, q');
    }
  }

  lemma MulDiff(c: int, a: int, b: int)
    requires c >= 1 && a > b
    ensures c * a - c * b >= c
  {
    MulMono(c, a - b);
    assert c * (a - b) == c * a - c * b;
  }

  /** Ceiling-division steps used by `ChunksSizes`. */
  lemma DivPlusDivisor(a: int, c: int)
    requires a >= 0 && c >= 1
    ensures (a + c) / c == a / c + 1
  {
    var q, r := a / c, a % c;
    assert a == c * q + r;
    assert c * (q + 1) == c * q + c;
    DivUnique(a + c, c, q + 1, r);
  }

  lemma DivOne(a: int, c: int)
    requires c <= a < 2 * c
    ensures a / c == 1
  {
    DivUnique(a, c, 1, a - c);
  }
}
