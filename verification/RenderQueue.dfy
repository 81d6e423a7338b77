/**
 Draining the viewer's render queue: with the view left alone it ends, paints every wanted page that can be
 rendered, and leaves pixels in exactly the pages that are wanted or were already being rendered.
 */
module RenderQueue {
  import opened Prelude
  import opened Viewer

  /** Waits left: a render that starts has at most three. */
  function Work(view: View): nat {
    4 * |view.queue| +
    if view.active.None? then 0
    else match view.active.value.phase case AwaitingSize => 3 case AwaitingPreview(_) => 2 case AwaitingFull(_) => 1
  }

  /** The view is left alone; each request is answered, with success as `answers` says of its page. */
  function Drained(view: View, g: Geometry, answers: nat -> bool): View
    decreases Work(view)
  {
    if view.active.Some? then Drained(Replied(view, answers(view.active.value.page)), g, answers)
    else if view.queue != [] then Drained(Started(view, g), g, answers)
    else view
  }

  // -------------------------------------------------------------- what is laid out

  /** The slots on display are those the mode asks for. */
  ghost predicate Laid(view: View) {
    view.order == SlotPages(view.state)
  }

  lemma {:induction false} VisitedAllKeepsFrame(view: View, range: Range, pages: seq<nat>)
    ensures SameFrame(VisitedAll(view, range, pages), view)
  {
    hide Near, SlotAt;
    if pages != [] {
      VisitedAllKeepsFrame(view, range, pages[..|pages| - 1]);
    }
  }

  lemma AddedIsLaid(view: View, page: nat)
    ensures Added(view, page).order == view.order + [page] && Added(view, page).state == view.state
  {
  }

  lemma OneMoreLaid(view: View, pages: seq<nat>)
    requires pages != []
    ensures AddedAll(view, pages) == Added(AddedAll(view, pages[..|pages| - 1]), pages[|pages| - 1])
  {
    hide Added;
  }

  lemma {:induction false} AddedAllIsLaid(view: View, pages: seq<nat>)
    requires view.order == []
    ensures AddedAll(view, pages).order == pages && AddedAll(view, pages).state == view.state
  {
    hide Added;
    if pages != [] {
      hide AddedAll;
      var before, last := pages[..|pages| - 1], pages[|pages| - 1];
      AddedAllIsLaid(view, before);
      AddedIsLaid(AddedAll(view, before), last);
      OneMoreLaid(view, pages);
      assert pages == before + [last];
    }
  }

  lemma {:induction false} UnkeyedAllKeepsFrame(view: View, pages: seq<nat>)
    ensures SameFrame(UnkeyedAll(view, pages), view)
  {
    if pages != [] {
      UnkeyedAllKeepsFrame(view, pages[..|pages| - 1]);
    }
  }

  lemma UpdatedIsLaid(view: View, g: Geometry)
    requires Laid(view)
    ensures Laid(Updated(view, g))
  {
    hide VisibleRange, VisitedAll;
    VisitedAllKeepsFrame(view, VisibleRange(g, view.order), view.order);
  }

  lemma InvalidatedIsLaid(view: View, rebuild: bool, g: Geometry)
    requires rebuild || Laid(view)
    ensures Laid(Invalidated(view, rebuild, g))
  {
    hide Updated, AddedAll, UnkeyedAll;
    var next := view.(state := view.state.(generation := view.state.generation + 1));
    if rebuild {
      AddedAllIsLaid(next.(order := [], slots := map[]), SlotPages(next.state));
      UpdatedIsLaid(Built(next), g);
    } else {
      UnkeyedAllKeepsFrame(next, next.order);
      UpdatedIsLaid(UnkeyedAll(next, next.order), g);
    }
  }

  lemma ActedIsLaid(view: View, action: Action)
    requires Laid(view)
    ensures Laid(Acted(view, action))
  {
    hide Invalidated, Updated, VisibleRange, SlotAt;
    match action
    case SetZoom(zoom, g) =>
      InvalidatedIsLaid(view.(state := view.state.(zoom := Upper(MIN_ZOOM, Lower(zoom, MAX_ZOOM)))), false, g);
    case Rotate(turn, g) =>
      InvalidatedIsLaid(view.(state := view.state.(rotation := (view.state.rotation + turn * 90) % 360)), false, g);
    case SetMode(mode, g) => InvalidatedIsLaid(view.(state := view.state.(mode := mode)), true, g);
    case GoToPage(page, g) =>
      if view.state.pageCount.Some? {
        InvalidatedIsLaid(
          view.(state := view.state.(page := Clamped(page, view.state.pageCount.value))), true, g);
      }
    case Open(pageCount, g) =>
      InvalidatedIsLaid(
        view.(state := view.state.(pageCount := Some(pageCount), page := 0, zoom := 1.0, rotation := 0)), true, g);
    case Resize(g) => InvalidatedIsLaid(view, false, g);
    case Scroll(g) => UpdatedIsLaid(view, g);
    case Start(g) =>
    case Reply(ok) =>
  }

  lemma {:induction false} RunIsLaid(actions: seq<Action>)
    ensures Laid(Run(actions))
  {
    hide Acted;
    if actions != [] {
      RunIsLaid(actions[..|actions| - 1]);
      ActedIsLaid(Run(actions[..|actions| - 1]), actions[|actions| - 1]);
    }
  }

  // ------------------------------------------------------------------- progress

  /** The page's slot is painted in full, at the zoom and rotation of this moment, and says so. */
  ghost predicate Showing(view: View, page: nat) {
    var shown := Key(page, view.state.zoom, view.state.rotation);
    SlotAt(view, page) == Some(Slot(Some(shown), Full(shown)))
  }

  /** A render under way will paint the page. */
  ghost predicate Underway(view: View, page: nat) {
    view.active.Some? && view.active.value.page == page && view.active.value.generation == view.state.generation
  }

  ghost predicate Promised(view: View, g: Geometry, page: nat) {
    || Showing(view, page)
    || Underway(view, page)
    || (Task(page, view.state.generation) in view.queue && Wanted(view, g, page))
  }

  lemma StartedKeepsPromises(view: View, g: Geometry, page: nat)
    requires Honest(view) && page in view.slots && Promised(view, g, page)
    ensures Promised(Started(view, g), g, page)
  {
  }

  lemma RepliedKeepsPromises(view: View, g: Geometry, page: nat, ok: bool)
    requires Honest(view) && page in view.slots && Promised(view, g, page)
    requires Underway(view, page) ==> ok
    ensures Promised(Replied(view, ok), g, page)
  {
  }

  lemma StepKeepsFrame(view: View, g: Geometry, ok: bool)
    ensures Started(view, g).state == view.state && Replied(view, ok).state == view.state
    ensures Started(view, g).order == view.order && Replied(view, ok).order == view.order
    ensures Started(view, g).slots == view.slots && Replied(view, ok).slots == view.slots
  {
  }

  lemma {:induction false} DrainingKeepsPromises(view: View, g: Geometry, answers: nat -> bool, page: nat)
    requires Honest(view) && page in view.slots && Promised(view, g, page) && answers(page)
    ensures Showing(Drained(view, g, answers), page)
    decreases Work(view)
  {
    hide Honest, VisibleRange, Near, SlotAt;
    if view.active.Some? {
      var ok := answers(view.active.value.page);
      StepKeepsFrame(view, g, ok);
      RepliedIsHonest(view, ok);
      RepliedKeepsPromises(view, g, page, ok);
      DrainingKeepsPromises(Replied(view, ok), g, answers, page);
    } else if view.queue != [] {
      StepKeepsFrame(view, g, true);
      StartedIsHonest(view, g);
      StartedKeepsPromises(view, g, page);
      DrainingKeepsPromises(Started(view, g), g, answers, page);
    }
  }

  lemma {:induction false} DrainingEndsIdle(view: View, g: Geometry, answers: nat -> bool)
    ensures var done := Drained(view, g, answers);
            done.queue == [] && done.active.None? && done.state == view.state && done.order == view.order &&
            done.slots == view.slots
    decreases Work(view)
  {
    hide VisibleRange, Near, SlotAt;
    if view.active.Some? {
      StepKeepsFrame(view, g, answers(view.active.value.page));
      DrainingEndsIdle(Replied(view, answers(view.active.value.page)), g, answers);
    } else if view.queue != [] {
      StepKeepsFrame(view, g, true);
      DrainingEndsIdle(Started(view, g), g, answers);
    }
  }

  /** The loop in `updateVisiblePages` schedules the near pages and takes nothing off the queue. */
  lemma {:induction false} VisitedAllSchedules(view: View, range: Range, pages: seq<nat>)
    ensures view.queue <= VisitedAll(view, range, pages).queue
    ensures forall page | page in pages && Near(range, page) ::
              Task(page, view.state.generation) in VisitedAll(view, range, pages).queue
  {
    hide Near, SlotAt;
    if pages != [] {
      var before, last := pages[..|pages| - 1], pages[|pages| - 1];
      VisitedAllSchedules(view, range, before);
      VisitedAllKeepsFrame(view, range, before);
      assert pages == before + [last];
      var was, now := VisitedAll(view, range, before), VisitedAll(view, range, pages);
      forall page | page in pages && Near(range, page)
        ensures Task(page, view.state.generation) in now.queue
      {
        if page in before {
          assert Task(page, view.state.generation) in was.queue;
        }
      }
    }
  }

  lemma UpdatedPromises(view: View, g: Geometry, page: nat)
    requires Laid(view) && view.state.pageCount.Some? && page in view.order
    requires Wanted(view, g, page) || Underway(view, page)
    ensures Promised(Updated(view, g), g, page)
  {
    hide VisibleRange, Near, SlotAt, VisitedAll, SlotPages;
    var range := VisibleRange(g, view.order);
    VisitedAllKeepsFrame(view, range, view.order);
    VisitedAllSchedules(view, range, view.order);
  }

  /**
   Whatever was rejected before, and whatever is rejected still for other pages: once the viewer has looked at
   what is visible, draining the queue ends, and every wanted page whose own requests succeed is painted in full
   at the zoom and rotation of this moment.
   */
  lemma DrainingPaintsWantedPages(actions: seq<Action>, g: Geometry, answers: nat -> bool)
    requires Run(actions).state.pageCount.Some?
    ensures var done := Drained(Updated(Run(actions), g), g, answers);
            && done.queue == [] && done.active.None?
            && (forall page | page in done.order && Wanted(done, g, page) && answers(page) :: Showing(done, page))
            && (done.state.mode == Paged ==> done.order == [done.state.page])
            && (done.state.mode == Scrolling ==> done.order == AllPages(Run(actions).state.pageCount.value))
  {
    hide Run, Honest, Tidy, VisibleRange, Near, SlotAt, Drained, Updated, Promised, Showing;
    var view := Run(actions);
    var start := Updated(view, g);
    RunIsHonest(actions);
    RunIsLaid(actions);
    UpdatedIsHonest(view, g);
    UpdatedIsLaid(view, g);
    UpdatedKeepsFrame(view, g);
    TidyUnfolds(start);
    DrainingEndsIdle(start, g, answers);
    var done := Drained(start, g, answers);
    forall page | page in done.order && Wanted(done, g, page) && answers(page)
      ensures Showing(done, page)
    {
      UpdatedPromises(view, g, page);
      DrainingKeepsPromises(start, g, answers, page);
    }
  }

  lemma UpdatedKeepsFrame(view: View, g: Geometry)
    ensures var after := Updated(view, g);
            && after.order == view.order && after.slots == view.slots && after.active == view.active
            && after.state.pageCount == view.state.pageCount && after.state.mode == view.state.mode
            && after.state.generation == view.state.generation
            && (view.state.mode == Paged ==> after.state == view.state)
  {
    hide VisibleRange, Near, SlotAt, VisitedAll;
    VisitedAllKeepsFrame(view, VisibleRange(g, view.order), view.order);
  }

  // ------------------------------------------------------------------- retention

  ghost predicate HasPixels(view: View, page: nat) {
    SlotAt(view, page).Some? && SlotAt(view, page).value.HasPixels()
  }

  /** Only wanted pages and `stray` have pixels or are about to. */
  ghost predicate NoOthers(view: View, g: Geometry, stray: Option<nat>) {
    && (forall page | page in view.slots && HasPixels(view, page) :: Wanted(view, g, page) || stray == Some(page))
    && (view.active.Some? && view.active.value.generation == view.state.generation ==>
          Wanted(view, g, view.active.value.page) || stray == Some(view.active.value.page))
  }

  lemma StartedKeepsNoOthers(view: View, g: Geometry, stray: Option<nat>)
    requires Honest(view) && NoOthers(view, g, stray)
    ensures NoOthers(Started(view, g), g, stray)
  {
  }

  lemma RepliedKeepsNoOthers(view: View, g: Geometry, ok: bool, stray: Option<nat>)
    requires Honest(view) && NoOthers(view, g, stray)
    ensures NoOthers(Replied(view, ok), g, stray)
  {
  }

  lemma {:induction false} DrainingKeepsNoOthers(
      view: View, g: Geometry, answers: nat -> bool, stray: Option<nat>)
    requires Honest(view) && NoOthers(view, g, stray)
    ensures NoOthers(Drained(view, g, answers), g, stray)
    decreases Work(view)
  {
    hide Honest, NoOthers, VisibleRange, Near, SlotAt;
    if view.active.Some? {
      var ok := answers(view.active.value.page);
      RepliedIsHonest(view, ok);
      RepliedKeepsNoOthers(view, g, ok, stray);
      DrainingKeepsNoOthers(Replied(view, ok), g, answers, stray);
    } else if view.queue != [] {
      StartedIsHonest(view, g);
      StartedKeepsNoOthers(view, g, stray);
      DrainingKeepsNoOthers(Started(view, g), g, answers, stray);
    }
  }

  lemma VisitedReleases(view: View, range: Range, page: nat)
    requires Honest(view) && page in view.slots
    ensures var after := Visited(view, range, page);
            && (forall p | p != page :: SlotAt(after, p) == SlotAt(view, p))
            && (!Near(range, page) ==> !HasPixels(after, page))
  {
  }

  lemma {:induction false} VisitedAllReleases(view: View, range: Range, pages: seq<nat>)
    requires Honest(view) && forall page | page in pages :: page in view.slots
    ensures forall page | page in pages && HasPixels(VisitedAll(view, range, pages), page) :: Near(range, page)
    ensures forall page | page !in pages ::
              SlotAt(VisitedAll(view, range, pages), page) == SlotAt(view, page)
  {
    hide Honest, Near, SlotAt, Visited;
    if pages != [] {
      var before, last := pages[..|pages| - 1], pages[|pages| - 1];
      VisitedAllReleases(view, range, before);
      VisitedAllIsHonest(view, range, before);
      VisitedReleases(VisitedAll(view, range, before), range, last);
      assert pages == before + [last];
    }
  }

  /** The page a current render is painting, if one is under way. */
  function UnderwayPage(view: View): Option<nat> {
    if view.active.Some? && view.active.value.generation == view.state.generation then
      Some(view.active.value.page)
    else None
  }

  lemma UpdatedLeavesNoOthers(view: View, g: Geometry)
    requires Honest(view) && Laid(view) && view.state.pageCount.Some?
    ensures NoOthers(Updated(view, g), g, UnderwayPage(view))
  {
    hide Honest, VisibleRange, Near, SlotAt, VisitedAll;
    UpdatedKeepsFrame(view, g);
    var range := VisibleRange(g, view.order);
    assert forall page | page in view.slots :: page in view.order by {
      TidyUnfolds(view);
    }
    if view.state.mode == Scrolling {
      TidyUnfolds(view);
      VisitedAllReleases(view, range, view.order);
      forall page | page in view.slots && HasPixels(Updated(view, g), page)
        ensures Near(range, page)
      {
        SameSlots(VisitedAll(view, range, view.order), Updated(view, g), page);
      }
    }
  }

  lemma SameSlots(view: View, after: View, page: nat)
    requires after.slots == view.slots && after.store == view.store
    ensures SlotAt(after, page) == SlotAt(view, page)
  {
  }

  /**
   When every request succeeds, the pages left holding pixels are exactly the wanted ones and the one that was
   already being rendered when the viewer looked: that render is not called off by scrolling its page away.
   */
  lemma PixelsKeptExactly(actions: seq<Action>, g: Geometry, page: nat)
    requires Run(actions).state.pageCount.Some? && page in Run(actions).order
    ensures var view := Run(actions);
            var done := Drained(Updated(view, g), g, _ => true);
            HasPixels(done, page) <==> Wanted(done, g, page) || UnderwayPage(view) == Some(page)
  {
    hide Run, Honest, Tidy, VisibleRange, Near, SlotAt, Drained, Updated, Promised, VisitedAll;
    var view := Run(actions);
    var start := Updated(view, g);
    RunIsHonest(actions);
    RunIsLaid(actions);
    UpdatedIsHonest(view, g);
    UpdatedKeepsFrame(view, g);
    TidyUnfolds(start);
    UpdatedLeavesNoOthers(view, g);
    DrainingEndsIdle(start, g, _ => true);
    DrainingKeepsNoOthers(start, g, _ => true, UnderwayPage(view));
    var done := Drained(start, g, _ => true);
    if Wanted(done, g, page) || UnderwayPage(view) == Some(page) {
      assert Wanted(view, g, page) || Underway(view, page);
      UpdatedPromises(view, g, page);
      DrainingKeepsPromises(start, g, _ => true, page);
    }
  }

  // ---------------------------------------------------------------- a stray page

  const AllOnScreen: Geometry := Geometry(Span(0.0, 0.0), (page: nat) => Span(0.0, 0.0))

  const LastOnScreen: Geometry :=
    Geometry(Span(0.0, 0.0), (page: nat) => if page == 3 then Span(0.0, 0.0) else Span(1.0, 1.0))

  /** Four pages are opened, the first begins to render, and the view is scrolled to the last. */
  const Scrolled: seq<Action> :=
    [SetMode(Scrolling, AllOnScreen), Open(4, AllOnScreen), Start(AllOnScreen), Scroll(LastOnScreen)]

  lemma RunOn(actions: seq<Action>, action: Action)
    ensures Run(actions + [action]) == Acted(Run(actions), action)
  {
    hide Acted;
    assert (actions + [action])[..|actions|] == actions;
  }

  lemma OneMoreInView(g: Geometry, pages: seq<nat>, page: nat)
    ensures Visible(g, pages + [page]) == Visible(g, pages) + if OnScreen(g, page) then [page] else []
  {
    hide OnScreen;
    assert (pages + [page])[..|pages|] == pages;
  }

  lemma TwoInView(g: Geometry)
    ensures Visible(g, [0, 1]) == (if OnScreen(g, 0) then [0] else []) + if OnScreen(g, 1) then [1] else []
  {
    hide Visible, OnScreen;
    NoneInView(g);
    OneMoreInView(g, [], 0);
    OneMoreInView(g, [0], 1);
    assert [] + [0] == [0] && [0] + [1] == [0, 1];
  }

  lemma NoneInView(g: Geometry)
    ensures Visible(g, []) == []
  {
  }

  lemma FourInView(g: Geometry)
    ensures Visible(g, [0, 1, 2, 3]) ==
            (if OnScreen(g, 0) then [0] else []) + (if OnScreen(g, 1) then [1] else []) +
            (if OnScreen(g, 2) then [2] else []) + if OnScreen(g, 3) then [3] else []
  {
    hide Visible, OnScreen;
    TwoInView(g);
    OneMoreInView(g, [0, 1], 2);
    OneMoreInView(g, [0, 1, 2], 3);
    assert [0, 1] + [2] == [0, 1, 2] && [0, 1, 2] + [3] == [0, 1, 2, 3];
  }

  lemma FourPagesInView()
    ensures VisibleRange(AllOnScreen, [0, 1, 2, 3]).first == 0 && VisibleRange(AllOnScreen, [0, 1, 2, 3]).last == 3
    ensures VisibleRange(LastOnScreen, [0, 1, 2, 3]) == Range(3, 3, 3)
  {
    hide Visible, Coverage;
    FourInView(AllOnScreen);
    FourInView(LastOnScreen);
    assert Visible(AllOnScreen, [0, 1, 2, 3]) == [0, 1, 2, 3];
    assert Visible(LastOnScreen, [0, 1, 2, 3]) == [3];
  }

  /** The open view, just built: four blank slots and the first page first in the queue. */
  lemma OpenedView()
    ensures var view := Run(Scrolled[..2]);
            && view.state.generation == 2 && view.state.mode == Scrolling && view.state.pageCount == Some(4)
            && view.active.None? && view.order == [0, 1, 2, 3]
            && view.queue != [] && view.queue[0] == Task(0, 2)
            && SlotAt(view, 0) == Some(BlankSlot)
  {
    hide Honest, Tidy, VisibleRange, Near, SlotAt, Visited, Updated;
    assert Scrolled[..2] == [] + [Scrolled[0]] + [Scrolled[1]];
    RunOn([], Scrolled[0]);
    RunOn([] + [Scrolled[0]], Scrolled[1]);
    var blank := NewView.(state := AppState(None, Scrolling, 0, 1.0, 0, 1));
    assert Acted(NewView, Scrolled[0]) == blank by {
      NothingToUpdate(blank, AllOnScreen);
    }
    var next := blank.(state := AppState(Some(4), Scrolling, 0, 1.0, 0, 2));
    assert Acted(blank, Scrolled[1]) == Updated(Built(next), AllOnScreen);
    assert AllPages(4) == [0, 1, 2, 3];
    NothingIsHonest(next);
    AddedAllIsHonest(next, AllPages(4));
    FirstIsScheduled(Built(next));
  }

  lemma NothingToUpdate(view: View, g: Geometry)
    requires view.state.pageCount.None?
    ensures Updated(view, g) == view
  {
  }

  lemma NothingIsHonest(view: View)
    requires view.order == [] && view.slots == map[] && view.store == map[] && view.queue == [] && view.active.None?
    ensures Honest(view)
  {
  }

  lemma FirstIsScheduled(view: View)
    requires view.order == [0, 1, 2, 3] && view.queue == [] && view.active.None?
    requires view.state.mode == Scrolling && view.state.pageCount == Some(4) && view.state.generation == 2
    requires SlotAt(view, 0) == Some(BlankSlot)
    ensures var after := Updated(view, AllOnScreen);
            && after.queue != [] && after.queue[0] == Task(0, 2) && SlotAt(after, 0) == Some(BlankSlot)
            && SameFrame(after.(state := view.state), view) && after.state == view.state.(page := after.state.page)
  {
    hide VisibleRange;
    FourPagesInView();
    var range := VisibleRange(AllOnScreen, view.order);
    var pages: seq<nat> := [0, 1, 2, 3];
    assert pages[..3] == [0, 1, 2] && [0, 1, 2][..2] == [0, 1] && [0, 1][..1] == [0] && [0][..0] == [];
    assert VisitedAll(view, range, [0]) == Scheduled(view, 0);
    assert VisitedAll(view, range, [0, 1]) == Scheduled(Scheduled(view, 0), 1);
    assert VisitedAll(view, range, [0, 1, 2]) == Scheduled(Scheduled(Scheduled(view, 0), 1), 2);
    assert VisitedAll(view, range, pages) == Scheduled(Scheduled(Scheduled(Scheduled(view, 0), 1), 2), 3);
  }

  /** Three answers complete a render of the current generation, preview or no preview. */
  lemma ThreeAnswersPaint(view: View, page: nat)
    requires Honest(view) && Underway(view, page) && view.active.value.phase.AwaitingSize?
    ensures var after := Replied(Replied(Replied(view, true), true), true);
            HasPixels(after, page) && after.state == view.state && after.order == view.order
  {
  }

  /**
   A run that ends with pixels in a page no longer wanted: its render was under way when the view was scrolled.
   */
  lemma StrayPixelsExist()
    ensures UnderwayPage(Run(Scrolled[..3])) == Some(0)
    ensures var view := Run(Scrolled + [Reply(true)] + [Reply(true)] + [Reply(true)]);
            0 in view.order && HasPixels(view, 0) && !Wanted(view, LastOnScreen, 0)
  {
    hide Honest, Tidy, VisibleRange, SlotAt, VisitedAll, Run, Replied, Updated;
    OpenedView();
    FourPagesInView();
    assert Scrolled[..3] == Scrolled[..2] + [Scrolled[2]] && Scrolled == Scrolled[..3] + [Scrolled[3]];
    RunOn(Scrolled[..2], Scrolled[2]);
    RunOn(Scrolled[..3], Scrolled[3]);
    var started, scrolled := Run(Scrolled[..3]), Run(Scrolled);
    assert Underway(started, 0) && started.active.value.phase == AwaitingSize;
    UpdatedKeepsFrame(started, LastOnScreen);
    RunIsHonest(Scrolled);
    ThreeAnswersPaint(scrolled, 0);
    RunOn(Scrolled, Reply(true));
    RunOn(Scrolled + [Reply(true)], Reply(true));
    RunOn(Scrolled + [Reply(true)] + [Reply(true)], Reply(true));
  }
}
