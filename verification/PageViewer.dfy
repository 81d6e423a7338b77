/** The viewer as it runs: module-level state updated in place by handlers and by the render task. */
module PageViewer {
  import opened Prelude
  import opened Viewer

  lemma OneMoreVisited(view: View, range: Range, pages: seq<nat>, n: nat)
    requires n < |pages|
    ensures VisitedAll(view, range, pages[..n + 1]) == Visited(VisitedAll(view, range, pages[..n]), range, pages[n])
  {
    hide Visited;
    assert pages[..n + 1][..n] == pages[..n];
  }

  lemma OneMoreAdded(view: View, pages: seq<nat>, n: nat)
    requires n < |pages|
    ensures AddedAll(view, pages[..n + 1]) == Added(AddedAll(view, pages[..n]), pages[n])
  {
    hide Added;
    assert pages[..n + 1][..n] == pages[..n];
  }

  lemma OneMoreUnkeyed(view: View, pages: seq<nat>, n: nat)
    requires n < |pages|
    ensures UnkeyedAll(view, pages[..n + 1]) == Unkeyed(UnkeyedAll(view, pages[..n]), pages[n])
  {
    hide Unkeyed;
    assert pages[..n + 1][..n] == pages[..n];
  }

  class PageViewer {
    var state: AppState
    var order: seq<nat>
    var slots: map<nat, nat>
    var store: map<nat, Slot>
    var nextSlot: nat
    var queue: seq<Task>
    var active: Option<Active>

    ghost function Abstract(): View
      reads this
    {
      View(state, order, slots, store, nextSlot, queue, active)
    }

    ghost predicate Valid()
      reads this
    {
      Honest(Abstract())
    }

    constructor ()
      ensures Valid() && Abstract() == NewView
    {
      state := NewView.state;
      order, slots, store, nextSlot := [], map[], map[], 0;
      queue, active := [], None;
    }

    method ScheduleRender(page: nat)
      modifies this
      ensures Abstract() == Scheduled(old(Abstract()), page)
    {
      queue := queue + [Task(page, state.generation)];
    }

    method IsPageWanted(page: nat, g: Geometry) returns (wanted: bool)
      ensures wanted == Wanted(Abstract(), g, page)
    {
      if state.mode == Paged {
        return page == state.page;
      }
      var range := VisiblePageRange(g, order);
      wanted := range.first - RETAINED_PAGE_RADIUS <= page <= range.last + RETAINED_PAGE_RADIUS;
    }

    /** Schedules what is near the viewport and frees the pixels of what is not. */
    method UpdateVisiblePages(g: Geometry)
      requires Valid()
      modifies this
      ensures Valid() && Abstract() == Updated(old(Abstract()), g)
    {
      hide Honest, VisibleRange, OnScreen, Coverage;
      UpdatedIsHonest(Abstract(), g);
      if state.pageCount.None? {
        return;
      }
      if state.mode == Paged {
        ScheduleRender(state.page);
        return;
      }
      var visible := VisiblePageRange(g, order);
      ghost var start := Abstract();
      for n := 0 to |order|
        invariant order == start.order && Honest(Abstract())
        invariant Abstract() == VisitedAll(start, visible, order[..n])
      {
        var page := order[n];
        TidyUnfolds(Abstract());
        VisitedIsHonest(Abstract(), visible, page);
        OneMoreVisited(start, visible, order, n);
        assert SlotAt(Abstract(), page).Some?;
        if visible.first - RETAINED_PAGE_RADIUS <= page <= visible.last + RETAINED_PAGE_RADIUS {
          ScheduleRender(page);
        } else if store[slots[page]].HasPixels() {
          store := store[slots[page] := BlankSlot];
        }
      }
      assert order[..|order|] == order;
      if visible.current != state.page {
        state := state.(page := visible.current);
      }
    }

    method BuildSlots()
      modifies this
      ensures Abstract() == Built(old(Abstract()))
    {
      order, slots := [], map[];
      if state.pageCount.None? {
        return;
      }
      var pages := if state.mode == Scrolling then AllPages(state.pageCount.value) else [state.page];
      ghost var start := Abstract();
      for n := 0 to |pages|
        invariant Abstract() == AddedAll(start, pages[..n])
      {
        OneMoreAdded(start, pages, n);
        order := order + [pages[n]];
        slots := slots[pages[n] := nextSlot];
        store := store[nextSlot := BlankSlot];
        nextSlot := nextSlot + 1;
      }
      assert pages[..|pages|] == pages;
    }

    /** The slots stay, but claim nothing. */
    method ClearKeys()
      requires Tidy(Abstract())
      modifies this
      ensures Abstract() == UnkeyedAll(old(Abstract()), old(order))
    {
      hide Tidy;
      ghost var start := Abstract();
      for n := 0 to |order|
        invariant order == start.order
        invariant Abstract() == UnkeyedAll(start, order[..n])
      {
        OneMoreUnkeyed(start, order, n);
        UnkeyedAllClaimsNothing(start, order[..n]);
        TidyHasSlots(Abstract());
        var slot := slots[order[n]];
        store := store[slot := store[slot].(renderedKey := None)];
      }
      assert order[..|order|] == order;
    }

    /**
     Makes every render under way or queued worthless, and starts over. The caller has just changed the state,
     which was `before` when the view was last valid.
     */
    method Invalidate(rebuild: bool, g: Geometry, ghost before: AppState)
      requires Honest(Abstract().(state := before)) && before.generation == state.generation
      modifies this
      ensures Valid() && Abstract() == Invalidated(old(Abstract()), rebuild, g)
    {
      hide Honest, Tidy, Updated, Built, UnkeyedAll;
      RebuiltIsHonest(Abstract().(state := before), state);
      ClearedIsHonest(Abstract().(state := before), state);
      state := state.(generation := state.generation + 1);
      if rebuild {
        BuildSlots();
      } else {
        ClearKeys();
      }
      UpdateVisiblePages(g);
    }

    /** The render at the head of the queue starts, or is found not to be needed. */
    method StartNext(g: Geometry)
      requires Valid() && active.None? && queue != []
      modifies this
      ensures Valid() && Abstract() == Started(old(Abstract()), g)
    {
      hide Honest, VisibleRange;
      StartedIsHonest(Abstract(), g);
      TidyUnfolds(Abstract());
      var task := queue[0];
      queue := queue[1..];
      if task.generation != state.generation {
        return;
      }
      var wanted := IsPageWanted(task.page, g);
      if !wanted || task.page !in slots {
        return;
      }
      var key := RenderKey(state, task.page);
      assert SlotAt(Abstract(), task.page).Some?;
      if store[slots[task.page]].renderedKey == Some(key) {
        return;
      }
      active := Some(Active(task.page, task.generation, slots[task.page], key, AwaitingSize));
    }

    /** The answer the render under way waits for arrives, or the request is rejected. */
    method Resume(ok: bool)
      requires Valid() && active.Some?
      modifies this
      ensures Valid() && Abstract() == Replied(old(Abstract()), ok)
    {
      RepliedIsHonest(Abstract(), ok);
      var task := active.value;
      if !ok || task.generation != state.generation {
        active := None;
        return;
      }
      var slot := store[task.slot];
      match task.phase
      case AwaitingSize =>
        var rotation := state.rotation;
        active := Some(task.(phase := if slot.HasPixels() then AwaitingFull(rotation) else AwaitingPreview(rotation)));
      case AwaitingPreview(rotation) =>
        store := store[task.slot := slot.(picture := Preview(Key(task.page, task.key.zoom, rotation)))];
        active := Some(task.(phase := AwaitingFull(state.rotation)));
      case AwaitingFull(rotation) =>
        store := store[task.slot := slot.(picture := Full(Key(task.page, task.key.zoom, rotation)))];
        store := store[task.slot := store[task.slot].(renderedKey := Some(task.key))];
        active := None;
    }

    method SetZoom(zoom: real, g: Geometry)
      requires Valid()
      modifies this
      ensures Valid() && Abstract() == Acted(old(Abstract()), Action.SetZoom(zoom, g))
    {
      hide Honest, Invalidated;
      ghost var before := state;
      state := state.(zoom := Upper(MIN_ZOOM, Lower(zoom, MAX_ZOOM)));
      Invalidate(false, g, before);
    }

    method Rotate(turn: int, g: Geometry)
      requires Valid()
      modifies this
      ensures Valid() && Abstract() == Acted(old(Abstract()), Action.Rotate(turn, g))
    {
      hide Honest, Invalidated;
      ghost var before := state;
      state := state.(rotation := (state.rotation + turn * 90) % 360);
      Invalidate(false, g, before);
    }

    method SetViewMode(mode: Mode, g: Geometry)
      requires Valid()
      modifies this
      ensures Valid() && Abstract() == Acted(old(Abstract()), SetMode(mode, g))
    {
      hide Honest, Invalidated;
      if state.mode == mode {
        return;
      }
      ghost var before := state;
      state := state.(mode := mode);
      Invalidate(true, g, before);
    }

    method GoToPage(page: int, g: Geometry)
      requires Valid()
      modifies this
      ensures Valid() && Abstract() == Acted(old(Abstract()), Action.GoToPage(page, g))
    {
      hide Honest, Invalidated;
      if state.pageCount.None? {
        return;
      }
      var clamped := Clamped(page, state.pageCount.value);
      if clamped == state.page && state.mode == Paged {
        return;
      }
      ghost var before := state;
      RepagedIsHonest(Abstract(), clamped);
      state := state.(page := clamped);
      if state.mode != Scrolling {
        Invalidate(true, g, before);
      }
    }

    /** What happens once the host has opened a document of so many pages. */
    method ShowDocument(pageCount: nat, g: Geometry)
      requires Valid()
      modifies this
      ensures Valid() && Abstract() == Acted(old(Abstract()), Open(pageCount, g))
    {
      hide Honest, Invalidated;
      ghost var before := state;
      state := state.(pageCount := Some(pageCount), page := 0, zoom := 1.0, rotation := 0);
      Invalidate(true, g, before);
    }
  }
}
