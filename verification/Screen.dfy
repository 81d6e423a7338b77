/**
 What the viewer's notions mean to someone looking at the screen: which pages are on it, which of them is the
 current one, which pages are wanted, and what ends up painted.
 */
module Screen {
  import opened Prelude
  import opened Viewer
  import opened RenderQueue

  // ------------------------------------------------------------------ on the screen

  predicate Shared(g: Geometry, page: nat, y: real) {
    g.page(page).top <= y <= g.page(page).bottom && g.viewport.top <= y <= g.viewport.bottom
  }

  /** A page is on screen exactly when it has a line in common with the viewport. */
  lemma OnScreenMeansShared(g: Geometry, page: nat)
    ensures OnScreen(g, page) <==> exists y: real :: Shared(g, page, y)
  {
    if OnScreen(g, page) {
      assert Shared(g, page, Upper(g.page(page).top, g.viewport.top));
    }
  }

  /** Its coverage is the height of the longest stretch they have in common. */
  lemma CoverageIsOverlap(g: Geometry, page: nat)
    requires OnScreen(g, page)
    ensures exists from: real, to: real ::
              Shared(g, page, from) && Shared(g, page, to) && to - from == Coverage(g, page)
    ensures forall from: real, to: real | Shared(g, page, from) && Shared(g, page, to) :: to - from <= Coverage(g, page)
  {
    var from, to := Upper(g.page(page).top, g.viewport.top), Lower(g.page(page).bottom, g.viewport.bottom);
    assert Shared(g, page, from) && Shared(g, page, to);
  }

  /** The first of these pages on screen, and the last. */
  ghost predicate IsFirst(g: Geometry, pages: seq<nat>, i: nat) {
    i < |pages| && OnScreen(g, pages[i]) && forall k | 0 <= k < i :: !OnScreen(g, pages[k])
  }

  ghost predicate IsLast(g: Geometry, pages: seq<nat>, i: nat) {
    i < |pages| && OnScreen(g, pages[i]) && forall k | i < k < |pages| :: !OnScreen(g, pages[k])
  }

  lemma {:induction false} EndsAreFound(g: Geometry, pages: seq<nat>)
    ensures Visible(g, pages) == [] ==> forall page | page in pages :: !OnScreen(g, page)
    ensures Visible(g, pages) != [] ==> exists i: nat :: IsFirst(g, pages, i) && pages[i] == Visible(g, pages)[0]
    ensures Visible(g, pages) != [] ==>
              exists i: nat :: IsLast(g, pages, i) && pages[i] == Visible(g, pages)[|Visible(g, pages)| - 1]
  {
    hide OnScreen;
    if pages != [] {
      var before, last := pages[..|pages| - 1], |pages| - 1;
      assert pages == before + [pages[last]];
      EndsAreFound(g, before);
      if Visible(g, before) != [] {
        var i: nat :| IsFirst(g, before, i) && before[i] == Visible(g, before)[0];
        assert IsFirst(g, pages, i);
        var j: nat :| IsLast(g, before, j) && before[j] == Visible(g, before)[|Visible(g, before)| - 1];
        if !OnScreen(g, pages[last]) {
          assert IsLast(g, pages, j);
        }
      } else if OnScreen(g, pages[last]) {
        assert IsFirst(g, pages, last);
      }
      if OnScreen(g, pages[last]) {
        assert IsLast(g, pages, last);
      }
    }
  }

  lemma {:induction false} BestIsEarliest(g: Geometry, pages: seq<nat>)
    requires pages != []
    ensures exists i :: 0 <= i < |pages| && pages[i] == Best(g, pages) && Leads(g, pages, i)
  {
    hide Coverage;
    var before, last := pages[..|pages| - 1], |pages| - 1;
    assert pages == before + [pages[last]];
    if before == [] {
      assert Leads(g, pages, 0);
    } else {
      BestIsEarliest(g, before);
      BestCoversMost(g, before);
      var i :| 0 <= i < |before| && before[i] == Best(g, before) && Leads(g, before, i);
      if Coverage(g, pages[last]) > Coverage(g, Best(g, before)) {
        assert Leads(g, pages, last);
      } else {
        assert pages[i] == Best(g, pages) && Leads(g, pages, i);
      }
    }
  }

  /** It covers more than every page before it. */
  ghost predicate Leads(g: Geometry, pages: seq<nat>, i: nat) {
    i < |pages| && forall k | 0 <= k < i :: Coverage(g, pages[k]) < Coverage(g, pages[i])
  }

  lemma NoneVisible(g: Geometry, pages: seq<nat>)
    requires forall page | page in pages :: !OnScreen(g, page)
    ensures Visible(g, pages) == []
  {
    hide OnScreen;
    VisiblePages(g, pages);
    assert forall page :: page !in Visible(g, pages);
  }

  /** The measured range: first and last page on screen, or zero throughout when none is. */
  lemma RangeIsEnds(g: Geometry, pages: seq<nat>)
    ensures var range := VisibleRange(g, pages);
            if exists page :: page in pages && OnScreen(g, page) then
              && (exists i: nat :: IsFirst(g, pages, i) && pages[i] == range.first)
              && (exists i: nat :: IsLast(g, pages, i) && pages[i] == range.last)
              && (exists i :: 0 <= i < |Visible(g, pages)| && Visible(g, pages)[i] == range.current &&
                              Leads(g, Visible(g, pages), i))
            else range == Range(0, 0, 0)
  {
    hide OnScreen, Coverage, Best, Visible;
    EndsAreFound(g, pages);
    VisiblePages(g, pages);
    if exists page :: page in pages && OnScreen(g, page) {
      BestIsEarliest(g, Visible(g, pages));
    } else {
      NoneVisible(g, pages);
    }
  }

  // ------------------------------------------------------------------- wanted pages

  ghost predicate OnDisplay(view: View, g: Geometry, page: nat) {
    page in view.order && OnScreen(g, page)
  }

  /**
   What is wanted: in page mode the current page; in scroll mode the pages no more than two before some page on
   screen and no more than two after some page on screen.
   */
  lemma WantedIffNearScreen(view: View, g: Geometry, page: nat)
    requires Laid(view)
    ensures view.state.mode == Paged ==> (Wanted(view, g, page) <==> page == view.state.page)
    ensures view.state.mode == Scrolling && (exists q: nat :: OnDisplay(view, g, q)) ==>
              (Wanted(view, g, page) <==>
                 exists q: nat, r: nat :: OnDisplay(view, g, q) && OnDisplay(view, g, r) && q - 2 <= page <= r + 2)
  {
    hide OnScreen, VisibleRange, OnDisplay, Laid;
    if view.state.mode == Scrolling && exists q: nat :: OnDisplay(view, g, q) {
      RangeSpansDisplay(view, g);
    }
  }

  lemma RangeSpansDisplay(view: View, g: Geometry)
    requires Laid(view) && view.state.mode == Scrolling && exists q: nat :: OnDisplay(view, g, q)
    ensures var range := VisibleRange(g, view.order);
            && OnDisplay(view, g, range.first) && OnDisplay(view, g, range.last)
            && forall q: nat | OnDisplay(view, g, q) :: range.first <= q <= range.last
  {
    hide OnScreen, VisibleRange, Leads, Visible, Laid;
    RangeIsEnds(g, view.order);
    var range := VisibleRange(g, view.order);
    var some: nat :| OnDisplay(view, g, some);
    assert some in view.order && OnScreen(g, some);
    var i: nat :| IsFirst(g, view.order, i) && view.order[i] == range.first;
    var j: nat :| IsLast(g, view.order, j) && view.order[j] == range.last;
    forall q: nat | OnDisplay(view, g, q)
      ensures range.first <= q <= range.last
    {
      BetweenEnds(view, g, i, j, q);
    }
  }

  /** Pages stand in ascending order, so the ends are the least and the greatest. */
  lemma BetweenEnds(view: View, g: Geometry, i: nat, j: nat, page: nat)
    requires Laid(view) && view.state.mode == Scrolling
    requires IsFirst(g, view.order, i) && IsLast(g, view.order, j) && OnDisplay(view, g, page)
    ensures view.order[i] <= page <= view.order[j]
  {
    hide OnScreen;
    assert view.order[page] == page && view.order[i] == i && view.order[j] == j;
  }

  /**
   Once the viewer has looked, draining the queue paints every page on screen, or in page mode the current page,
   whose own requests succeed: in full, at the zoom and rotation of this moment.
   */
  lemma DrainingPaintsTheScreen(actions: seq<Action>, g: Geometry, answers: nat -> bool, page: nat)
    requires Run(actions).state.pageCount.Some? && answers(page)
    requires var view := Run(actions);
             if view.state.mode == Paged then page == view.state.page else OnDisplay(view, g, page)
    ensures var done := Drained(Updated(Run(actions), g), g, answers);
            var shown := Key(page, done.state.zoom, done.state.rotation);
            done.queue == [] && done.active.None? && SlotAt(done, page) == Some(Slot(Some(shown), Full(shown)))
  {
    hide Run, OnScreen, VisibleRange, Near, Drained, Updated, SlotAt, Wanted, Laid;
    var view := Run(actions);
    var start := Updated(view, g);
    var done := Drained(start, g, answers);
    RunIsLaid(actions);
    UpdatedIsLaid(view, g);
    UpdatedKeepsFrame(view, g);
    DrainingEndsIdle(start, g, answers);
    DrainingPaintsWantedPages(actions, g, answers);
    LaidAsBefore(start, done);
    WantedIffNearScreen(done, g, page);
    if view.state.mode == Scrolling {
      assert OnDisplay(done, g, page);
    }
    assert page in done.order && Wanted(done, g, page);
  }

  lemma LaidAsBefore(view: View, after: View)
    requires Laid(view) && after.order == view.order && after.state == view.state
    ensures Laid(after)
  {
  }

  // --------------------------------------------------------------- what actions do

  /** After a scroll the current page is on screen, and none on screen covers more. */
  lemma ScrollingFollowsTheScreen(view: View, g: Geometry)
    requires view.state.pageCount.Some? && view.state.mode == Scrolling && exists q: nat :: OnDisplay(view, g, q)
    ensures var page := Acted(view, Scroll(g)).state.page;
            OnDisplay(view, g, page) &&
            forall q: nat | OnDisplay(view, g, q) :: Coverage(g, q) <= Coverage(g, page)
  {
    hide OnScreen, Coverage, VisibleRange, VisitedAll;
    var q: nat :| OnDisplay(view, g, q);
    assert q in view.order && OnScreen(g, q);
    CurrentPageCoversMost(g, view.order);
  }

  lemma UpdatedKeepsScale(view: View, g: Geometry)
    ensures Updated(view, g).state == view.state.(page := Updated(view, g).state.page)
  {
    hide VisibleRange, VisitedAll;
    VisitedAllKeepsFrame(view, VisibleRange(g, view.order), view.order);
  }

  lemma InvalidatedKeepsScale(view: View, rebuild: bool, g: Geometry)
    ensures var after := Invalidated(view, rebuild, g).state;
            after.zoom == view.state.zoom && after.rotation == view.state.rotation &&
            after.generation == view.state.generation + 1
  {
    hide Updated, AddedAll, UnkeyedAll;
    var next := view.(state := view.state.(generation := view.state.generation + 1));
    if rebuild {
      AddedAllIsLaid(next.(order := [], slots := map[]), SlotPages(next.state));
      UpdatedKeepsScale(Built(next), g);
    } else {
      UnkeyedAllKeepsFrame(next, next.order);
      UpdatedKeepsScale(UnkeyedAll(next, next.order), g);
    }
  }

  /** The zoom asked for, or the nearest that is allowed. */
  lemma ZoomIsTheNearestAllowed(view: View, zoom: real, g: Geometry)
    ensures var after := Acted(view, SetZoom(zoom, g)).state;
            && 0.1 <= after.zoom <= 8.0
            && (0.1 <= zoom <= 8.0 ==> after.zoom == zoom)
            && (zoom < 0.1 ==> after.zoom == 0.1) && (zoom > 8.0 ==> after.zoom == 8.0)
            && after.rotation == view.state.rotation
  {
    hide Invalidated;
    InvalidatedKeepsScale(view.(state := view.state.(zoom := Upper(MIN_ZOOM, Lower(zoom, MAX_ZOOM)))), false, g);
  }

  /** The rotation advances by that many quarters, and stays within a turn. */
  lemma RotationAdvances(view: View, turn: int, g: Geometry)
    ensures var after := Acted(view, Rotate(turn, g)).state;
            && 0 <= after.rotation < 360 && (after.rotation - view.state.rotation - turn * 90) % 360 == 0
            && after.zoom == view.state.zoom
  {
    hide Invalidated;
    var sum := view.state.rotation + turn * 90;
    assert sum % 360 - sum == 360 * -(sum / 360);
    InvalidatedKeepsScale(view.(state := view.state.(rotation := sum % 360)), false, g);
  }

  /** Going to a page ends on it if there is such a page, else on the nearest there is. */
  lemma PageIsTheNearestThereIs(page: int, pageCount: nat)
    ensures 0 <= page < pageCount ==> Clamped(page, pageCount) == page
    ensures page < 0 ==> Clamped(page, pageCount) == 0
    ensures 0 < pageCount <= page ==> Clamped(page, pageCount) == pageCount - 1
    ensures pageCount == 0 ==> Clamped(page, pageCount) == 0
  {
  }

  // ---------------------------------------------------------------------- previews

  /** A render of the current generation that waits for a preview holds an empty slot. */
  ghost predicate PreviewsWaitOnEmpty(view: View) {
    view.active.Some? && view.active.value.generation == view.state.generation &&
    view.active.value.phase.AwaitingPreview? ==>
      view.active.value.slot in view.store && view.store[view.active.value.slot].picture.Nothing?
  }

  lemma {:induction false} VisitingKeepsEmpty(view: View, range: Range, pages: seq<nat>, slot: nat)
    requires slot in view.store && view.store[slot].picture.Nothing?
    ensures var after := VisitedAll(view, range, pages);
            slot in after.store && after.store[slot].picture.Nothing?
  {
    hide Near;
    if pages != [] {
      VisitingKeepsEmpty(view, range, pages[..|pages| - 1], slot);
    }
  }

  lemma UpdatedKeepsEmpty(view: View, g: Geometry)
    requires PreviewsWaitOnEmpty(view)
    ensures PreviewsWaitOnEmpty(Updated(view, g))
  {
    hide VisibleRange, VisitedAll;
    UpdatedKeepsFrame(view, g);
    if view.active.Some? && view.active.value.slot in view.store &&
       view.store[view.active.value.slot].picture.Nothing? {
      VisitingKeepsEmpty(view, VisibleRange(g, view.order), view.order, view.active.value.slot);
    }
  }

  lemma NewGenerationHasNoPreview(view: View, state: AppState, rebuild: bool, g: Geometry)
    requires Honest(view) && state.generation == view.state.generation
    ensures PreviewsWaitOnEmpty(Invalidated(view.(state := state), rebuild, g))
  {
    hide Updated, AddedAll, UnkeyedAll, Tidy;
    var next := view.(state := state.(generation := state.generation + 1));
    if rebuild {
      AddedAllKeepsActive(next.(order := [], slots := map[]), SlotPages(next.state));
      UpdatedKeepsEmpty(Built(next), g);
    } else {
      UnkeyedAllKeepsFrame(next, next.order);
      UpdatedKeepsEmpty(UnkeyedAll(next, next.order), g);
    }
  }

  lemma {:induction false} AddedAllKeepsActive(view: View, pages: seq<nat>)
    ensures AddedAll(view, pages).active == view.active && AddedAll(view, pages).state == view.state
  {
    if pages != [] {
      AddedAllKeepsActive(view, pages[..|pages| - 1]);
    }
  }

  lemma ActedKeepsEmpty(view: View, action: Action)
    requires Honest(view) && PreviewsWaitOnEmpty(view)
    ensures PreviewsWaitOnEmpty(Acted(view, action))
  {
    hide Honest, Invalidated, Updated, VisibleRange, Near;
    match action
    case SetZoom(zoom, g) =>
      NewGenerationHasNoPreview(view, view.state.(zoom := Upper(MIN_ZOOM, Lower(zoom, MAX_ZOOM))), false, g);
    case Rotate(turn, g) =>
      NewGenerationHasNoPreview(view, view.state.(rotation := (view.state.rotation + turn * 90) % 360), false, g);
    case SetMode(mode, g) => NewGenerationHasNoPreview(view, view.state.(mode := mode), true, g);
    case GoToPage(page, g) =>
      if view.state.pageCount.Some? {
        NewGenerationHasNoPreview(
          view, view.state.(page := Clamped(page, view.state.pageCount.value)), true, g);
      }
    case Open(pageCount, g) =>
      NewGenerationHasNoPreview(
        view, view.state.(pageCount := Some(pageCount), page := 0, zoom := 1.0, rotation := 0), true, g);
    case Resize(g) => NewGenerationHasNoPreview(view, view.state, false, g);
    case Scroll(g) => UpdatedKeepsEmpty(view, g);
    case Start(g) =>
    case Reply(ok) => RepliedKeepsEmpty(view, ok);
  }

  lemma RepliedKeepsEmpty(view: View, ok: bool)
    requires PreviewsWaitOnEmpty(view)
    ensures PreviewsWaitOnEmpty(Replied(view, ok))
  {
  }

  lemma {:induction false} RunKeepsEmpty(actions: seq<Action>)
    ensures PreviewsWaitOnEmpty(Run(actions))
  {
    hide Acted, Honest;
    if actions != [] {
      RunKeepsEmpty(actions[..|actions| - 1]);
      RunIsHonest(actions[..|actions| - 1]);
      ActedKeepsEmpty(Run(actions[..|actions| - 1]), actions[|actions| - 1]);
    }
  }

  /** A page on display that has a picture is never set back to a preview, in any run. */
  lemma NoDowngrade(actions: seq<Action>, ok: bool, page: nat)
    requires page in Run(actions).slots && HasPixels(Run(actions), page)
    ensures var before, after := SlotAt(Run(actions), page), SlotAt(Run(actions + [Reply(ok)]), page);
            after.Some? && (after == before || after.value.picture.Full?)
  {
    hide Run, Honest, Tidy, Replied;
    RunIsHonest(actions);
    RunKeepsEmpty(actions);
    RunOn(actions, Reply(ok));
    ReplyNeverDowngrades(Run(actions), ok, page);
  }

  lemma ReplyNeverDowngrades(view: View, ok: bool, page: nat)
    requires Honest(view) && PreviewsWaitOnEmpty(view) && page in view.slots && HasPixels(view, page)
    ensures var before, after := SlotAt(view, page), SlotAt(Replied(view, ok), page);
            after.Some? && (after == before || after.value.picture.Full?)
  {
  }

  /** An empty page on display is first shown as a preview and then in full, both as wanted at the time. */
  lemma EmptyPageGetsPreviewFirst(view: View, page: nat)
    requires Honest(view) && Underway(view, page) && view.active.value.phase.AwaitingSize? && !HasPixels(view, page)
    ensures var shown := Key(page, view.state.zoom, view.state.rotation);
            var sized := Replied(view, true);
            var previewed := Replied(sized, true);
            var painted := Replied(previewed, true);
            && SlotAt(sized, page) == SlotAt(view, page)
            && SlotAt(previewed, page) == Some(Slot(None, Preview(shown)))
            && SlotAt(painted, page) == Some(Slot(Some(shown), Full(shown))) && painted.active.None?
  {
  }

  // ------------------------------------------------------------- tasks not worth it

  /** A queued render of another generation, of a page no longer wanted, or of one already painted starts nothing. */
  lemma WorthlessTasksAreDropped(view: View, g: Geometry)
    requires view.active.None? && view.queue != []
    requires var task := view.queue[0];
             || task.generation != view.state.generation
             || !Wanted(view, g, task.page)
             || Showing(view, task.page)
    ensures Started(view, g) == view.(queue := view.queue[1..])
  {
    hide VisibleRange, Near;
  }

  /** Any other, of a page on display, is under way at the zoom and rotation of this moment. */
  lemma WantedTasksStart(view: View, g: Geometry)
    requires Honest(view) && view.active.None? && view.queue != []
    requires var task := view.queue[0];
             && task.generation == view.state.generation && task.page in view.slots
             && Wanted(view, g, task.page) && !Showing(view, task.page)
    ensures Underway(Started(view, g), view.queue[0].page)
    ensures Started(view, g).active.value.key == Key(view.queue[0].page, view.state.zoom, view.state.rotation)
  {
    hide VisibleRange, Near;
    assert Truthful(view, view.queue[0].page);
  }
}
