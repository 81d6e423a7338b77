/** Document search and text layout: engine results filtered, capped, and flagged when the cap cut in. */
module TextSearch {
  import opened Prelude

  const MAX_SEARCH_HITS: nat := 500
  const MAX_CHARS_PER_PAGE: nat := 20_000

  datatype TextRect = TextRect(left: Single, bottom: Single, right: Single, top: Single) {
    predicate IsDegenerate() {
      right - left <= 0.0 || top - bottom <= 0.0
    }
  }

  datatype SearchHit = SearchHit(page: nat, rects: seq<TextRect>)

  /** What the engine reports for one character; either part can be missing. */
  datatype RawChar = RawChar(text: Option<string>, bounds: Option<TextRect>)

  datatype CharBox = CharBox(text: string, rect: TextRect)

  /** A page's matches, each the boxes of its segments; `None` when the page's text cannot be read. */
  type PageMatches = Option<seq<seq<TextRect>>>

  // ----------------------------------------------------------- capped filtering

  function Kept<T>(items: seq<T>, keep: T -> bool): seq<T> {
    if items == [] then []
    else
      var before := Kept(items[..|items| - 1], keep);
      if keep(items[|items| - 1]) then before + [items[|items| - 1]] else before
  }

  /** The first `cap` items worth keeping. */
  function FirstKept<T>(items: seq<T>, keep: T -> bool, cap: nat): seq<T> {
    Kept(items, keep)[..Min(cap, |Kept(items, keep)|)]
  }

  /** Some item was reached with the cap already full. */
  ghost predicate CutShort<T>(items: seq<T>, keep: T -> bool, cap: nat) {
    exists i :: 0 <= i < |items| && cap <= |Kept(items[..i], keep)|
  }

  lemma {:induction false} KeptOfPrefix<T>(items: seq<T>, keep: T -> bool, n: nat)
    requires n <= |items|
    ensures Kept(items[..n], keep) <= Kept(items, keep)
    decreases |items|
  {
    if n < |items| {
      KeptOfPrefix(items[..|items| - 1], keep, n);
      assert items[..|items| - 1][..n] == items[..n];
    } else {
      assert items[..n] == items;
    }
  }

  lemma KeptStep<T>(items: seq<T>, keep: T -> bool, n: nat)
    requires n < |items|
    ensures Kept(items[..n + 1], keep) == Kept(items[..n], keep) + if keep(items[n]) then [items[n]] else []
  {
    assert items[..n + 1][..n] == items[..n];
  }

  /** Where a capped loop stands before item `n`. */
  ghost predicate Reached<T>(items: seq<T>, keep: T -> bool, cap: nat, n: nat, kept: seq<T>) {
    && n <= |items|
    && kept == Kept(items[..n], keep)
    && |kept| <= cap
    && (forall i | 0 <= i < n :: |Kept(items[..i], keep)| < cap)
  }

  lemma ReachedStart<T>(items: seq<T>, keep: T -> bool, cap: nat)
    requires cap > 0
    ensures Reached(items, keep, cap, 0, [])
  {
  }

  lemma ReachedNext<T>(items: seq<T>, keep: T -> bool, cap: nat, n: nat, kept: seq<T>)
    requires Reached(items, keep, cap, n, kept) && n < |items| && |kept| < cap
    ensures Reached(items, keep, cap, n + 1, kept + if keep(items[n]) then [items[n]] else [])
  {
    KeptStep(items, keep, n);
  }

  /** Reaching an item with the cap full settles the answer, whatever is still to come. */
  lemma ReachedFull<T>(items: seq<T>, keep: T -> bool, cap: nat, n: nat, kept: seq<T>)
    requires Reached(items, keep, cap, n, kept) && n < |items| && |kept| == cap
    ensures FirstKept(items, keep, cap) == kept && CutShort(items, keep, cap)
  {
    KeptOfPrefix(items, keep, n);
  }

  lemma ReachedEnd<T>(items: seq<T>, keep: T -> bool, cap: nat, kept: seq<T>)
    requires Reached(items, keep, cap, |items|, kept)
    ensures FirstKept(items, keep, cap) == kept && !CutShort(items, keep, cap)
  {
    assert items[..|items|] == items;
  }

  /**
   What the flag means. Unset: nothing worth keeping was left out. Set: the cap was reached.
   Anything worth keeping that was left out sets it.
   */
  lemma FlagIsHonest<T>(items: seq<T>, keep: T -> bool, cap: nat)
    ensures !CutShort(items, keep, cap) ==> FirstKept(items, keep, cap) == Kept(items, keep)
    ensures CutShort(items, keep, cap) ==> |FirstKept(items, keep, cap)| == cap
    ensures FirstKept(items, keep, cap) != Kept(items, keep) ==> CutShort(items, keep, cap)
  {
    if CutShort(items, keep, cap) {
      var i :| 0 <= i < |items| && cap <= |Kept(items[..i], keep)|;
      KeptOfPrefix(items, keep, i);
    }
    if items != [] && cap < |Kept(items, keep)| {
      assert cap <= |Kept(items[..|items| - 1], keep)|;
    }
  }

  /**
   The flag is set for nothing exactly when the cap was reached with no room to spare
   and only items not worth keeping came after the last one kept.
   */
  lemma FlagOvercautious<T>(items: seq<T>, keep: T -> bool, cap: nat)
    requires items != []
    ensures CutShort(items, keep, cap) && FirstKept(items, keep, cap) == Kept(items, keep) <==>
            |Kept(items, keep)| == cap && !keep(items[|items| - 1])
    ensures CutShort(items, keep, cap) <==> cap <= |Kept(items[..|items| - 1], keep)|
  {
    var last := |items| - 1;
    if CutShort(items, keep, cap) {
      var i :| 0 <= i < |items| && cap <= |Kept(items[..i], keep)|;
      KeptOfPrefix(items[..last], keep, i);
      assert items[..last][..i] == items[..i];
    }
    if cap <= |Kept(items[..last], keep)| {
      assert CutShort(items, keep, cap);
    }
    KeptStep(items, keep, last);
    assert items[..last + 1] == items;
  }

  // -------------------------------------------------------------------- search

  const HasArea: TextRect -> bool := (rect: TextRect) => !rect.IsDegenerate()

  function Drawable(rects: seq<TextRect>): seq<TextRect> {
    Kept(rects, HasArea)
  }

  function HitsOnPage(page: nat, matches: seq<seq<TextRect>>): seq<SearchHit> {
    seq(|matches|, i requires 0 <= i < |matches| => SearchHit(page, Drawable(matches[i])))
  }

  /** Every match of the document in page order, drawable or not; an unreadable page has none. */
  function Candidates(pages: seq<PageMatches>): seq<SearchHit> {
    if pages == [] then []
    else
      var last := |pages| - 1;
      Candidates(pages[..last]) + if pages[last].None? then [] else HitsOnPage(last, pages[last].value)
  }

  const IsDrawable: SearchHit -> bool := (hit: SearchHit) => hit.rects != []

  ghost predicate SearchAnswer(query: string, pages: seq<PageMatches>, hits: seq<SearchHit>, truncated: bool) {
    if query == "" then hits == [] && !truncated
    else
      && hits == FirstKept(Candidates(pages), IsDrawable, MAX_SEARCH_HITS)
      && (truncated <==> CutShort(Candidates(pages), IsDrawable, MAX_SEARCH_HITS))
  }

  lemma NoCandidates()
    ensures Candidates([]) == []
  {
  }

  /** Where the matches of page `index` stand among all the candidates. */
  lemma CandidatesUpTo(pages: seq<PageMatches>, index: nat)
    requires index < |pages|
    ensures var base := |Candidates(pages[..index])|;
            var here := if pages[index].None? then [] else HitsOnPage(index, pages[index].value);
            && |Candidates(pages[..index + 1])| == base + |here| <= |Candidates(pages)|
            && Candidates(pages)[base..base + |here|] == here
            && (pages[index].Some? ==> |here| == |pages[index].value|)
  {
    CandidatesOfPrefix(pages, index + 1);
    assert pages[..index + 1][..index] == pages[..index];
    assert Candidates(pages)[..|Candidates(pages[..index + 1])|] == Candidates(pages[..index + 1]);
  }

  lemma {:induction false} CandidatesOfPrefix(pages: seq<PageMatches>, n: nat)
    requires n <= |pages|
    ensures Candidates(pages[..n]) <= Candidates(pages)
    decreases |pages|
  {
    if n < |pages| {
      CandidatesOfPrefix(pages[..|pages| - 1], n);
      assert pages[..|pages| - 1][..n] == pages[..n];
    } else {
      assert pages[..n] == pages;
    }
  }

  /** The loop over one page's matches, which start at position `base` of all the candidates. */
  method SearchPage(page: nat, matches: seq<seq<TextRect>>, found: seq<SearchHit>,
                    ghost all: seq<SearchHit>, ghost base: nat)
    returns (hits: seq<SearchHit>, truncated: bool)
    requires base + |matches| <= |all| && all[base..base + |matches|] == HitsOnPage(page, matches)
    requires Reached(all, IsDrawable, MAX_SEARCH_HITS, base, found)
    ensures !truncated ==> Reached(all, IsDrawable, MAX_SEARCH_HITS, base + |matches|, hits)
    ensures truncated ==> hits == FirstKept(all, IsDrawable, MAX_SEARCH_HITS)
    ensures truncated ==> CutShort(all, IsDrawable, MAX_SEARCH_HITS)
  {
    hits, truncated := found, false;
    for m := 0 to |matches|
      invariant Reached(all, IsDrawable, MAX_SEARCH_HITS, base + m, hits)
    {
      if |hits| >= MAX_SEARCH_HITS {
        ReachedFull(all, IsDrawable, MAX_SEARCH_HITS, base + m, hits);
        return hits, true;
      }
      var rects := Drawable(matches[m]);
      assert all[base + m] == all[base..base + |matches|][m] == SearchHit(page, rects);
      ReachedNext(all, IsDrawable, MAX_SEARCH_HITS, base + m, hits);
      if rects != [] {
        hits := hits + [SearchHit(page, rects)];
      }
    }
  }

  method Search(query: string, pages: seq<PageMatches>) returns (hits: seq<SearchHit>, truncated: bool)
    ensures SearchAnswer(query, pages, hits, truncated)
  {
    hide Reached, CutShort, Kept, FirstKept, Candidates, HitsOnPage;
    NoCandidates();
    hits, truncated := [], false;
    if query == "" {
      return;
    }
    ghost var all, seen := Candidates(pages), 0;
    ReachedStart(all, IsDrawable, MAX_SEARCH_HITS);
    for index := 0 to |pages|
      invariant !truncated && seen == |Candidates(pages[..index])|
      invariant Reached(all, IsDrawable, MAX_SEARCH_HITS, seen, hits)
    {
      CandidatesUpTo(pages, index);
      if pages[index].Some? {
        hits, truncated := SearchPage(index, pages[index].value, hits, all, seen);
        if truncated {
          return;
        }
        seen := seen + |pages[index].value|;
      }
    }
    assert pages[..|pages|] == pages;
    ReachedEnd(all, IsDrawable, MAX_SEARCH_HITS, hits);
  }

  // --------------------------------------------------------------- text layout

  const IsUsable: RawChar -> bool := (c: RawChar) => c.text.Some? && c.bounds.Some?

  function Boxes(chars: seq<RawChar>): seq<CharBox>
    requires forall i | 0 <= i < |chars| :: IsUsable(chars[i])
  {
    seq(|chars|, i requires 0 <= i < |chars| => CharBox(chars[i].text.value, chars[i].bounds.value))
  }

  lemma {:induction false} KeptAreKept<T>(items: seq<T>, keep: T -> bool)
    ensures forall i | 0 <= i < |Kept(items, keep)| :: keep(Kept(items, keep)[i])
  {
    if items != [] {
      KeptAreKept(items[..|items| - 1], keep);
    }
  }

  function UsableChars(chars: seq<RawChar>): (usable: seq<RawChar>)
    ensures forall i | 0 <= i < |usable| :: IsUsable(usable[i])
  {
    KeptAreKept(chars, IsUsable);
    FirstKept(chars, IsUsable, MAX_CHARS_PER_PAGE)
  }

  ghost predicate LayoutAnswer(chars: seq<RawChar>, boxes: seq<CharBox>, truncated: bool) {
    && boxes == Boxes(UsableChars(chars))
    && (truncated <==> CutShort(chars, IsUsable, MAX_CHARS_PER_PAGE))
  }

  method TextLayout(chars: seq<RawChar>) returns (boxes: seq<CharBox>, truncated: bool)
    ensures LayoutAnswer(chars, boxes, truncated)
  {
    boxes, truncated := [], false;
    ghost var kept: seq<RawChar> := [];
    var n := 0;
    while n < |chars|
      invariant 0 <= n <= |chars| && !truncated
      invariant Reached(chars, IsUsable, MAX_CHARS_PER_PAGE, n, kept)
      invariant forall i | 0 <= i < |kept| :: IsUsable(kept[i])
      invariant boxes == Boxes(kept)
    {
      if |boxes| >= MAX_CHARS_PER_PAGE {
        truncated := true;
        break;
      }
      ReachedNext(chars, IsUsable, MAX_CHARS_PER_PAGE, n, kept);
      var c := chars[n];
      n := n + 1;
      if c.text.None? {
        continue;
      }
      if c.bounds.None? {
        continue;
      }
      kept := kept + [c];
      boxes := boxes + [CharBox(c.text.value, c.bounds.value)];
    }
    if truncated {
      ReachedFull(chars, IsUsable, MAX_CHARS_PER_PAGE, n, kept);
    } else {
      ReachedEnd(chars, IsUsable, MAX_CHARS_PER_PAGE, kept);
    }
  }

  // ------------------------------------------------------- answers as functions

  /** `CutShort`, computed. */
  predicate CapMet<T>(items: seq<T>, keep: T -> bool, cap: nat)
    ensures CapMet(items, keep, cap) <==> CutShort(items, keep, cap)
  {
    if items == [] then false
    else
      FlagOvercautious(items, keep, cap);
      cap <= |Kept(items[..|items| - 1], keep)|
  }

  function SearchOf(query: string, pages: seq<PageMatches>): (r: (seq<SearchHit>, bool))
    ensures SearchAnswer(query, pages, r.0, r.1)
  {
    if query == "" then ([], false)
    else
      (FirstKept(Candidates(pages), IsDrawable, MAX_SEARCH_HITS),
       CapMet(Candidates(pages), IsDrawable, MAX_SEARCH_HITS))
  }

  lemma {:induction false} AllKept<T>(items: seq<T>, keep: T -> bool)
    requires forall i | 0 <= i < |items| :: keep(items[i])
    ensures Kept(items, keep) == items
  {
    if items != [] {
      AllKept(items[..|items| - 1], keep);
    }
  }

  /** A page with `n` matches and then one with nothing to draw. */
  function BlankAfter(n: nat): seq<seq<TextRect>> {
    seq(n + 1, i requires 0 <= i <= n => [TextRect(0.0, 0.0, if i < n then 1.0 else 0.0, 1.0)])
  }

  /** A search that says it was cut short when every drawable match was returned. */
  lemma FlagSetForNothing()
    ensures var pages := [Some(BlankAfter(MAX_SEARCH_HITS))];
            var (hits, truncated) := SearchOf("a", pages);
            truncated && |hits| == MAX_SEARCH_HITS && hits == Kept(Candidates(pages), IsDrawable)
  {
    hide CutShort, FirstKept, Kept, Drawable, Candidates, CapMet;
    var matches := BlankAfter(MAX_SEARCH_HITS);
    var items := HitsOnPage(0, matches);
    OnePageOfCandidates(matches);
    forall i | 0 <= i < |items|
      ensures IsDrawable(items[i]) <==> i < MAX_SEARCH_HITS
    {
      DrawableOfOne(matches[i][0]);
      assert matches[i] == [matches[i][0]];
    }
    AllKept(items[..MAX_SEARCH_HITS], IsDrawable);
    KeptStep(items, IsDrawable, MAX_SEARCH_HITS);
    assert items[..MAX_SEARCH_HITS + 1] == items;
    FlagOvercautious(items, IsDrawable, MAX_SEARCH_HITS);
  }

  lemma OnePageOfCandidates(matches: seq<seq<TextRect>>)
    ensures Candidates([Some(matches)]) == HitsOnPage(0, matches)
  {
    hide HitsOnPage;
    assert [Some(matches)][..0] == [];
  }

  lemma DrawableOfOne(rect: TextRect)
    ensures Drawable([rect]) == if rect.IsDegenerate() then [] else [rect]
  {
    assert [rect][..0] == [];
    assert Kept([rect][..0], HasArea) == [];
  }

  function LayoutOf(chars: seq<RawChar>): (r: (seq<CharBox>, bool))
    ensures LayoutAnswer(chars, r.0, r.1)
  {
    (Boxes(UsableChars(chars)), CapMet(chars, IsUsable, MAX_CHARS_PER_PAGE))
  }

  // --------------------------------------------------------------- consequences

  /** What a caller may conclude from a search of a non-empty query. */
  lemma SearchIsHonest(query: string, pages: seq<PageMatches>, hits: seq<SearchHit>, truncated: bool)
    requires query != "" && SearchAnswer(query, pages, hits, truncated)
    ensures |hits| <= MAX_SEARCH_HITS
    ensures !truncated ==> hits == Kept(Candidates(pages), IsDrawable)
    ensures truncated ==> |hits| == MAX_SEARCH_HITS
    ensures forall hit | hit in hits :: hit.rects != [] && forall rect | rect in hit.rects :: !rect.IsDegenerate()
    ensures forall i, j | 0 <= i < j < |hits| :: hits[i].page <= hits[j].page
  {
    FlagIsHonest(Candidates(pages), IsDrawable, MAX_SEARCH_HITS);
    KeptAreKept(Candidates(pages), IsDrawable);
    CandidatesAreDrawn(pages);
    KeptInOrder(Candidates(pages), IsDrawable);
    var kept := Kept(Candidates(pages), IsDrawable);
    assert hits <= kept;
    forall hit | hit in hits
      ensures hit.rects != [] && forall rect | rect in hit.rects :: !rect.IsDegenerate()
    {
      var i :| 0 <= i < |hits| && hits[i] == hit;
      assert kept[i] == hit && IsDrawable(kept[i]);
    }
  }

  ghost predicate PagesInOrder(hits: seq<SearchHit>) {
    forall i, j | 0 <= i < j < |hits| :: hits[i].page <= hits[j].page
  }

  lemma {:induction false} CandidatesAreDrawn(pages: seq<PageMatches>)
    ensures PagesInOrder(Candidates(pages))
    ensures forall hit | hit in Candidates(pages) :: hit.page < |pages|
    ensures forall hit | hit in Candidates(pages) :: forall rect | rect in hit.rects :: !rect.IsDegenerate()
  {
    if pages != [] {
      var last := |pages| - 1;
      CandidatesAreDrawn(pages[..last]);
      if pages[last].Some? {
        var here := HitsOnPage(last, pages[last].value);
        forall hit | hit in here
          ensures hit.page == last && forall rect | rect in hit.rects :: !rect.IsDegenerate()
        {
          var i :| 0 <= i < |here| && here[i] == hit;
          KeptAreKept(pages[last].value[i], HasArea);
        }
      }
    }
  }

  lemma {:induction false} KeptInOrder(hits: seq<SearchHit>, keep: SearchHit -> bool)
    requires PagesInOrder(hits)
    ensures PagesInOrder(Kept(hits, keep))
    ensures forall hit | hit in Kept(hits, keep) :: hit in hits
  {
    if hits != [] {
      var last := |hits| - 1;
      KeptInOrder(hits[..last], keep);
      forall hit | hit in Kept(hits[..last], keep)
        ensures hit.page <= hits[last].page
      {
        var i :| 0 <= i < last && hits[..last][i] == hit;
        assert hits[i].page <= hits[last].page;
      }
    }
  }

  // ------------------------------------------------------------- unreadable pages

  lemma {:induction false} KeptOfSum<T>(left: seq<T>, right: seq<T>, keep: T -> bool)
    ensures Kept(left + right, keep) == Kept(left, keep) + Kept(right, keep)
  {
    if right == [] {
      assert left + right == left;
    } else {
      assert (left + right)[..|left + right| - 1] == left + right[..|right| - 1];
      KeptOfSum(left, right[..|right| - 1], keep);
    }
  }

  /** What the matches of one page add to the hits of the others. */
  lemma {:induction false} PageAddsHits(pages: seq<PageMatches>, i: nat, matches: seq<seq<TextRect>>)
    requires i < |pages|
    ensures |Kept(Candidates(pages[i := Some(matches)]), IsDrawable)| ==
            |Kept(Candidates(pages[i := Some([])]), IsDrawable)| + |Kept(HitsOnPage(i, matches), IsDrawable)|
  {
    hide Kept, HitsOnPage;
    var last := |pages| - 1;
    var some, none := pages[i := Some(matches)], pages[i := Some([])];
    NothingOnPage(last);
    LastPageAdds(some);
    LastPageAdds(none);
    if i < last {
      assert some[..last] == pages[..last][i := Some(matches)] && none[..last] == pages[..last][i := Some([])];
      PageAddsHits(pages[..last], i, matches);
    } else {
      assert some[..last] == none[..last];
    }
  }

  lemma NothingOnPage(page: nat)
    ensures HitsOnPage(page, []) == [] && Kept([], IsDrawable) == []
  {
  }

  lemma LastPageAdds(pages: seq<PageMatches>)
    requires pages != []
    ensures var last := |pages| - 1;
            var here := if pages[last].None? then [] else HitsOnPage(last, pages[last].value);
            Kept(Candidates(pages), IsDrawable) ==
            Kept(Candidates(pages[..last]), IsDrawable) + Kept(here, IsDrawable)
  {
    hide Kept, HitsOnPage;
    var last := |pages| - 1;
    var here := if pages[last].None? then [] else HitsOnPage(last, pages[last].value);
    KeptOfSum(Candidates(pages[..last]), here, IsDrawable);
  }

  /** A page whose text cannot be read changes neither hits nor flag: it might as well have no match. */
  lemma UnreadablePageIsSkipped(query: string, pages: seq<PageMatches>, i: nat)
    requires i < |pages| && pages[i].None?
    ensures SearchOf(query, pages) == SearchOf(query, pages[i := Some([])])
  {
    hide Kept, FirstKept, CutShort, CapMet;
    BlankForUnreadable(pages, i);
  }

  lemma {:induction false} BlankForUnreadable(pages: seq<PageMatches>, i: nat)
    requires i < |pages| && pages[i].None?
    ensures Candidates(pages[i := Some([])]) == Candidates(pages)
  {
    hide HitsOnPage;
    var last := |pages| - 1;
    var blank := pages[i := Some([])];
    NothingOnPage(last);
    if i < last {
      assert blank[..last] == pages[..last][i := Some([])];
      BlankForUnreadable(pages[..last], i);
    } else {
      assert blank[..last] == pages[..last];
    }
  }

  /** A document in full, of which these pages are what could be read. */
  ghost predicate Completes(whole: seq<PageMatches>, pages: seq<PageMatches>) {
    && |whole| == |pages|
    && forall i | 0 <= i < |pages| :: whole[i].Some? && (pages[i].Some? ==> whole[i] == pages[i])
  }

  /** The answer holds every drawable match, whatever the unreadable pages may hold. */
  ghost predicate Complete(pages: seq<PageMatches>, hits: seq<SearchHit>) {
    forall whole | Completes(whole, pages) :: hits == Kept(Candidates(whole), IsDrawable)
  }

  /**
   When an answer covers the whole document: exactly when every page could be read and nothing found was left out,
   which an unset flag guarantees. The flag says nothing of unreadable pages.
   */
  lemma AnswerIsCompleteIff(query: string, pages: seq<PageMatches>)
    requires query != ""
    ensures var (hits, truncated) := SearchOf(query, pages);
            && (Complete(pages, hits) <==>
                  (forall i | 0 <= i < |pages| :: pages[i].Some?) && hits == Kept(Candidates(pages), IsDrawable))
            && (!truncated ==> hits == Kept(Candidates(pages), IsDrawable))
  {
    hide Kept, FirstKept, CutShort, Candidates, CapMet;
    var hits := SearchOf(query, pages).0;
    FlagIsHonest(Candidates(pages), IsDrawable, MAX_SEARCH_HITS);
    if forall i | 0 <= i < |pages| :: pages[i].Some? {
      OnlyItselfCompletes(pages);
    } else {
      var i :| 0 <= i < |pages| && pages[i].None?;
      UnreadableMayHoldMore(pages, i, hits);
    }
  }

  lemma OnlyItselfCompletes(pages: seq<PageMatches>)
    requires forall i | 0 <= i < |pages| :: pages[i].Some?
    ensures Completes(pages, pages) && forall whole | Completes(whole, pages) :: whole == pages
  {
  }

  lemma UnreadableMayHoldMore(pages: seq<PageMatches>, i: nat, hits: seq<SearchHit>)
    requires i < |pages| && pages[i].None?
    ensures !Complete(pages, hits)
  {
    hide Kept, Candidates;
    var blank := seq(|pages|, j requires 0 <= j < |pages| => if pages[j].Some? then pages[j] else Some([]));
    var matches := [[TextRect(0.0, 0.0, 1.0, 1.0)]];
    var more := blank[i := Some(matches)];
    assert blank[i := Some([])] == blank;
    assert Completes(blank, pages) && Completes(more, pages);
    PageAddsHits(blank, i, matches);
    OneHit(i, matches[0][0]);
    assert |Kept(Candidates(more), IsDrawable)| == |Kept(Candidates(blank), IsDrawable)| + 1;
  }

  lemma OneHit(page: nat, rect: TextRect)
    requires !rect.IsDegenerate()
    ensures |Kept(HitsOnPage(page, [[rect]]), IsDrawable)| == 1
  {
    hide Drawable;
    DrawableOfOne(rect);
    var hits := HitsOnPage(page, [[rect]]);
    assert hits == [SearchHit(page, [rect])];
    assert hits[..0] == [] && Kept(hits[..0], IsDrawable) == [];
  }

  // ------------------------------------------------------ what hits and boxes show

  /** What is kept are the items worth keeping, all of them. */
  lemma {:induction false} KeptMembers<T>(items: seq<T>, keep: T -> bool)
    ensures forall item :: item in Kept(items, keep) <==> item in items && keep(item)
  {
    if items != [] {
      KeptMembers(items[..|items| - 1], keep);
      assert items == items[..|items| - 1] + [items[|items| - 1]];
    }
  }

  /** A rectangle is drawable exactly when it has a point inside. */
  lemma DrawableHasInside(rect: TextRect)
    ensures HasArea(rect) <==>
            exists x: real, y: real :: Inside(rect, x, y)
  {
    if HasArea(rect) {
      assert Inside(rect, (rect.left + rect.right) / 2.0, (rect.bottom + rect.top) / 2.0);
    }
  }

  predicate Inside(rect: TextRect, x: real, y: real) {
    rect.left < x < rect.right && rect.bottom < y < rect.top
  }

  /** Whether a page has a match of whose boxes these are the drawable ones. */
  ghost predicate Matched(pages: seq<PageMatches>, page: nat, rects: seq<TextRect>) {
    page < |pages| && pages[page].Some? && exists boxes :: boxes in pages[page].value && rects == Kept(boxes, HasArea)
  }

  /** The candidates are the matches, each under the number of its own page. */
  lemma {:induction false} CandidatesAreMatches(pages: seq<PageMatches>)
    ensures forall hit :: hit in Candidates(pages) <==> Matched(pages, hit.page, hit.rects)
  {
    hide Kept;
    if pages != [] {
      var last := |pages| - 1;
      CandidatesAreMatches(pages[..last]);
      forall hit
        ensures hit in Candidates(pages) <==> Matched(pages, hit.page, hit.rects)
      {
        OnPageAreMatches(pages, last, hit);
        OlderMatches(pages, hit);
      }
    }
  }

  lemma OlderMatches(pages: seq<PageMatches>, hit: SearchHit)
    requires pages != []
    ensures hit.page < |pages| - 1 ==>
              (Matched(pages, hit.page, hit.rects) <==> Matched(pages[..|pages| - 1], hit.page, hit.rects))
    ensures Matched(pages[..|pages| - 1], hit.page, hit.rects) ==> hit.page < |pages| - 1
  {
    hide Kept;
  }

  lemma OnPageAreMatches(pages: seq<PageMatches>, page: nat, hit: SearchHit)
    requires page < |pages|
    ensures (pages[page].Some? && hit in HitsOnPage(page, pages[page].value)) <==>
            hit.page == page && Matched(pages, page, hit.rects)
  {
    hide Kept;
    if pages[page].Some? && hit.page == page && Matched(pages, page, hit.rects) {
      var boxes :| boxes in pages[page].value && hit.rects == Kept(boxes, HasArea);
      var i :| 0 <= i < |pages[page].value| && pages[page].value[i] == boxes;
      assert HitsOnPage(page, pages[page].value)[i] == hit;
    }
  }

  /** Every hit of a search is a match on the page it names, reduced to its drawable boxes. */
  lemma HitsAreMatches(query: string, pages: seq<PageMatches>, hit: SearchHit)
    requires hit in SearchOf(query, pages).0
    ensures Matched(pages, hit.page, hit.rects) && hit.rects != []
    ensures forall rect | rect in hit.rects :: HasArea(rect)
  {
    hide Kept, Candidates, CutShort, CapMet;
    var candidates := Candidates(pages);
    KeptMembers(candidates, IsDrawable);
    assert hit in Kept(candidates, IsDrawable);
    CandidatesAreMatches(pages);
    var boxes :| boxes in pages[hit.page].value && hit.rects == Kept(boxes, HasArea);
    KeptMembers(boxes, HasArea);
  }

  /** What a layout tells: boxes are characters, each with its own text and place, and none is missing below the cap. */
  lemma LayoutIsHonest(chars: seq<RawChar>, boxes: seq<CharBox>, truncated: bool)
    requires LayoutAnswer(chars, boxes, truncated)
    ensures |boxes| <= MAX_CHARS_PER_PAGE && (truncated ==> |boxes| == MAX_CHARS_PER_PAGE)
    ensures forall box | box in boxes :: RawChar(Some(box.text), Some(box.rect)) in chars
    ensures !truncated ==>
              forall text, rect :: RawChar(Some(text), Some(rect)) in chars ==> CharBox(text, rect) in boxes
  {
    hide Kept, CutShort;
    FlagIsHonest(chars, IsUsable, MAX_CHARS_PER_PAGE);
    KeptMembers(chars, IsUsable);
    var usable := UsableChars(chars);
    assert forall c | c in usable :: c in Kept(chars, IsUsable);
    forall box | box in boxes
      ensures RawChar(Some(box.text), Some(box.rect)) in chars
    {
      var i :| 0 <= i < |boxes| && boxes[i] == box;
      assert usable[i] in chars;
      assert usable[i] == RawChar(Some(box.text), Some(box.rect));
    }
    if !truncated {
      forall text, rect | RawChar(Some(text), Some(rect)) in chars
        ensures CharBox(text, rect) in boxes
      {
        var c := RawChar(Some(text), Some(rect));
        assert c in usable;
        var i :| 0 <= i < |usable| && usable[i] == c;
        assert boxes[i] == CharBox(text, rect);
      }
    }
  }
}
