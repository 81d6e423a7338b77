/**
 The viewer's render queue: renders run one at a time across awaits, a generation number makes late answers
 harmless, and what is painted is remembered by key.

 Between two awaits the program runs undisturbed, so a step is one handler, or one stretch of the render task.
 Page geometry is an input, measured afresh whenever the program measures it.
 */
module Viewer {
  import opened Prelude

  const RETAINED_PAGE_RADIUS: int := 2

  // ------------------------------------------------------------------- geometry

  datatype Span = Span(top: real, bottom: real)

  /** A measured rectangle; its bottom is not above its top. */
  type Rect = r: Span | r.top <= r.bottom witness Span(0.0, 0.0)

  datatype Geometry = Geometry(viewport: Rect, page: nat -> Rect)

  datatype Range = Range(first: nat, last: nat, current: nat)

  predicate OnScreen(g: Geometry, page: nat) {
    !(g.page(page).bottom < g.viewport.top || g.page(page).top > g.viewport.bottom)
  }

  function Lower(x: real, y: real): real {
    if x <= y then x else y
  }

  function Upper(x: real, y: real): real {
    if x >= y then x else y
  }

  function Coverage(g: Geometry, page: nat): real {
    Lower(g.page(page).bottom, g.viewport.bottom) - Upper(g.page(page).top, g.viewport.top)
  }

  function Visible(g: Geometry, pages: seq<nat>): seq<nat> {
    if pages == [] then []
    else Visible(g, pages[..|pages| - 1]) + if OnScreen(g, pages[|pages| - 1]) then [pages[|pages| - 1]] else []
  }

  /** The first of these pages with the greatest coverage. */
  function Best(g: Geometry, pages: seq<nat>): nat
    requires pages != []
  {
    if |pages| == 1 then pages[0]
    else
      var best := Best(g, pages[..|pages| - 1]);
      if Coverage(g, pages[|pages| - 1]) > Coverage(g, best) then pages[|pages| - 1] else best
  }

  function VisibleRange(g: Geometry, pages: seq<nat>): Range {
    var visible := Visible(g, pages);
    if visible == [] then Range(0, 0, 0)
    else Range(visible[0], visible[|visible| - 1], Best(g, visible))
  }

  lemma {:induction false} VisiblePages(g: Geometry, pages: seq<nat>)
    ensures forall page :: page in Visible(g, pages) <==> page in pages && OnScreen(g, page)
  {
    if pages != [] {
      VisiblePages(g, pages[..|pages| - 1]);
      assert pages == pages[..|pages| - 1] + [pages[|pages| - 1]];
    }
  }

  lemma {:induction false} BestCoversMost(g: Geometry, pages: seq<nat>)
    requires pages != []
    ensures Best(g, pages) in pages
    ensures forall page | page in pages :: Coverage(g, page) <= Coverage(g, Best(g, pages))
  {
    if |pages| > 1 {
      BestCoversMost(g, pages[..|pages| - 1]);
      assert pages == pages[..|pages| - 1] + [pages[|pages| - 1]];
    }
  }

  /** The reported page is on screen and no page on screen covers more of the viewport. */
  lemma CurrentPageCoversMost(g: Geometry, pages: seq<nat>)
    requires exists page :: page in pages && OnScreen(g, page)
    ensures var range := VisibleRange(g, pages);
            && range.current in pages && OnScreen(g, range.current)
            && range.first in pages && OnScreen(g, range.first)
            && range.last in pages && OnScreen(g, range.last)
            && forall page | page in pages && OnScreen(g, page) :: Coverage(g, page) <= Coverage(g, range.current)
  {
    hide Coverage, OnScreen;
    VisiblePages(g, pages);
    var page :| page in pages && OnScreen(g, page);
    assert page in Visible(g, pages);
    BestCoversMost(g, Visible(g, pages));
    assert Visible(g, pages)[0] in Visible(g, pages);
    assert Visible(g, pages)[|Visible(g, pages)| - 1] in Visible(g, pages);
  }

  lemma OnScreenCovers(g: Geometry, page: nat)
    requires OnScreen(g, page)
    ensures Coverage(g, page) >= 0.0
  {
  }

  lemma OneMoreVisible(g: Geometry, before: seq<nat>, page: nat)
    ensures Best(g, before + [page]) ==
            if before == [] then page
            else if Coverage(g, page) > Coverage(g, Best(g, before)) then page else Best(g, before)
    ensures (before + [page])[0] == if before == [] then page else before[0]
    ensures (before + [page])[|before + [page]| - 1] == page
  {
  }

  method VisiblePageRange(g: Geometry, pages: seq<nat>) returns (range: Range)
    ensures range == VisibleRange(g, pages)
  {
    hide Coverage, OnScreen;
    var first, last, found := 0, 0, false;
    var current, bestCoverage := 0, -1.0;
    for n := 0 to |pages|
      invariant found <==> Visible(g, pages[..n]) != []
      invariant !found ==> bestCoverage == -1.0
      invariant found ==> Range(first, last, current) == VisibleRange(g, pages[..n])
      invariant found ==> bestCoverage == Coverage(g, current)
    {
      var page := pages[n];
      assert pages[..n + 1][..n] == pages[..n];
      ghost var before := Visible(g, pages[..n]);
      if !OnScreen(g, page) {
        assert Visible(g, pages[..n + 1]) == before;
        continue;
      }
      assert Visible(g, pages[..n + 1]) == before + [page];
      OneMoreVisible(g, before, page);
      OnScreenCovers(g, page);
      if !found {
        first, found := page, true;
      }
      last := page;
      var coverage := Coverage(g, page);
      if coverage > bestCoverage {
        bestCoverage, current := coverage, page;
      }
      assert first == (before + [page])[0] && last == (before + [page])[|before + [page]| - 1];
    }
    assert pages[..|pages|] == pages;
    range := if found then Range(first, last, current) else Range(0, 0, 0);
  }

  // ---------------------------------------------------------------------- state

  datatype Mode = Paged | Scrolling

  /** The shared application state the viewer reads; `pageCount` is that of the open document. */
  datatype AppState = AppState(
    pageCount: Option<nat>, mode: Mode, page: nat, zoom: real, rotation: int, generation: nat)

  /** What is painted: page, zoom and rotation. */
  datatype Key = Key(page: nat, zoom: real, rotation: int)

  datatype Picture = Nothing | Preview(of: Key) | Full(of: Key)

  datatype Slot = Slot(renderedKey: Option<Key>, picture: Picture) {
    predicate HasPixels() {
      !picture.Nothing?
    }
  }

  const BlankSlot: Slot := Slot(None, Nothing)

  /** A queued render. */
  datatype Task = Task(page: nat, generation: nat)

  /** What a render waits for; a picture is asked for at the rotation of that moment. */
  datatype Phase = AwaitingSize | AwaitingPreview(rotation: int) | AwaitingFull(rotation: int)

  /** The render under way, holding on to the slot, the key and the zoom it started with. */
  datatype Active = Active(page: nat, generation: nat, slot: nat, key: Key, phase: Phase)

  /** Slots have an identity, as they may be replaced while a render still holds one. */
  datatype View = View(
    state: AppState,
    order: seq<nat>,        // pages with a slot, in the order they were added
    slots: map<nat, nat>,   // the slot of each page
    store: map<nat, Slot>,
    nextSlot: nat,
    queue: seq<Task>,
    active: Option<Active>)

  function RenderKey(state: AppState, page: nat): Key {
    Key(page, state.zoom, state.rotation)
  }

  function Put(view: View, slot: nat, value: Slot): View {
    view.(store := view.store[slot := value])
  }

  function Near(range: Range, page: nat): bool {
    range.first - RETAINED_PAGE_RADIUS <= page <= range.last + RETAINED_PAGE_RADIUS
  }

  function Wanted(view: View, g: Geometry, page: nat): bool {
    if view.state.mode == Paged then page == view.state.page
    else Near(VisibleRange(g, view.order), page)
  }

  // ------------------------------------------------------------------- handlers

  function Scheduled(view: View, page: nat): View {
    view.(queue := view.queue + [Task(page, view.state.generation)])
  }

  function SlotAt(view: View, page: nat): Option<Slot> {
    if page in view.slots && view.slots[page] in view.store then Some(view.store[view.slots[page]]) else None
  }

  /** One round of the loop in `updateVisiblePages`. */
  function Visited(view: View, range: Range, page: nat): View {
    if Near(range, page) then Scheduled(view, page)
    else if page in view.slots && SlotAt(view, page).Some? && SlotAt(view, page).value.HasPixels() then
      Put(view, view.slots[page], BlankSlot)
    else view
  }

  function VisitedAll(view: View, range: Range, pages: seq<nat>): View {
    if pages == [] then view
    else Visited(VisitedAll(view, range, pages[..|pages| - 1]), range, pages[|pages| - 1])
  }

  function Updated(view: View, g: Geometry): View {
    if view.state.pageCount.None? then view
    else if view.state.mode == Paged then Scheduled(view, view.state.page)
    else
      var range := VisibleRange(g, view.order);
      var visited := VisitedAll(view, range, view.order);
      visited.(state := visited.state.(page := range.current))
  }

  function Added(view: View, page: nat): View {
    view.(order := view.order + [page],
          slots := view.slots[page := view.nextSlot],
          store := view.store[view.nextSlot := BlankSlot],
          nextSlot := view.nextSlot + 1)
  }

  function AddedAll(view: View, pages: seq<nat>): View {
    if pages == [] then view else Added(AddedAll(view, pages[..|pages| - 1]), pages[|pages| - 1])
  }

  function AllPages(count: nat): seq<nat> {
    seq(count, i requires 0 <= i < count => i)
  }

  function SlotPages(state: AppState): seq<nat> {
    if state.pageCount.None? then []
    else if state.mode == Scrolling then AllPages(state.pageCount.value)
    else [state.page]
  }

  function Built(view: View): View {
    AddedAll(view.(order := [], slots := map[]), SlotPages(view.state))
  }

  function Unkeyed(view: View, page: nat): View {
    match SlotAt(view, page)
    case None => view
    case Some(slot) => if page in view.slots then Put(view, view.slots[page], slot.(renderedKey := None)) else view
  }

  function UnkeyedAll(view: View, pages: seq<nat>): View {
    if pages == [] then view else Unkeyed(UnkeyedAll(view, pages[..|pages| - 1]), pages[|pages| - 1])
  }

  function Invalidated(view: View, rebuild: bool, g: Geometry): View {
    var next := view.(state := view.state.(generation := view.state.generation + 1));
    Updated(if rebuild then Built(next) else UnkeyedAll(next, next.order), g)
  }

  // ------------------------------------------------------------ the render task

  /** The next queued render starts, or turns out not to be worth starting. */
  function Started(view: View, g: Geometry): View {
    if view.active.Some? || view.queue == [] then view
    else
      var task := view.queue[0];
      var taken := view.(queue := view.queue[1..]);
      if task.generation != view.state.generation || !Wanted(view, g, task.page) || SlotAt(view, task.page).None? then
        taken
      else
        var key := RenderKey(view.state, task.page);
        if SlotAt(view, task.page).value.renderedKey == Some(key) then taken
        else taken.(active := Some(Active(task.page, task.generation, view.slots[task.page], key, AwaitingSize)))
  }

  /** What the render under way waited for arrives, or is rejected. */
  function Replied(view: View, ok: bool): View {
    if view.active.None? then view
    else
      var task := view.active.value;
      var ended := view.(active := None);
      if !ok || task.generation != view.state.generation || task.slot !in view.store then ended
      else
        var slot := view.store[task.slot];
        match task.phase
        case AwaitingSize =>
          var rotation := view.state.rotation;
          view.(active := Some(task.(
            phase := if slot.HasPixels() then AwaitingFull(rotation) else AwaitingPreview(rotation))))
        case AwaitingPreview(rotation) =>
          Put(view, task.slot, slot.(picture := Preview(Key(task.page, task.key.zoom, rotation))))
          .(active := Some(task.(phase := AwaitingFull(view.state.rotation))))
        case AwaitingFull(rotation) =>
          Put(ended, task.slot, Slot(Some(task.key), Full(Key(task.page, task.key.zoom, rotation))))
  }

  // --------------------------------------------------------------------- actions

  datatype Action =
    | SetZoom(zoom: real, g: Geometry)
    | Rotate(turn: int, g: Geometry)
    | SetMode(mode: Mode, g: Geometry)
    | GoToPage(page: int, g: Geometry)
    | Open(pageCount: nat, g: Geometry)
    | Resize(g: Geometry)
    | Scroll(g: Geometry)
    | Start(g: Geometry)
    | Reply(ok: bool)

  const MIN_ZOOM: real := 0.1
  const MAX_ZOOM: real := 8.0

  /** Page 0 when there are no pages. */
  function Clamped(page: int, pageCount: nat): nat {
    if page < 0 || pageCount == 0 then 0 else if page < pageCount then page else pageCount - 1
  }

  function Acted(view: View, action: Action): View {
    match action
    case SetZoom(zoom, g) =>
      Invalidated(view.(state := view.state.(zoom := Upper(MIN_ZOOM, Lower(zoom, MAX_ZOOM)))), false, g)
    case Rotate(turn, g) =>
      Invalidated(view.(state := view.state.(rotation := (view.state.rotation + turn * 90) % 360)), false, g)
    case SetMode(mode, g) =>
      if view.state.mode == mode then view
      else Invalidated(view.(state := view.state.(mode := mode)), true, g)
    case GoToPage(page, g) =>
      if view.state.pageCount.None? then view
      else
        var clamped := Clamped(page, view.state.pageCount.value);
        if clamped == view.state.page && view.state.mode == Paged then view
        else
          var moved := view.(state := view.state.(page := clamped));
          if view.state.mode == Scrolling then moved else Invalidated(moved, true, g)
    case Open(pageCount, g) =>
      Invalidated(view.(state := view.state.(pageCount := Some(pageCount), page := 0, zoom := 1.0, rotation := 0)),
                  true, g)
    case Resize(g) => Invalidated(view, false, g)
    case Scroll(g) => Updated(view, g)
    case Start(g) => Started(view, g)
    case Reply(ok) => Replied(view, ok)
  }

  const NewView: View := View(AppState(None, Paged, 0, 1.0, 0, 0), [], map[], map[], 0, [], None)

  function Run(actions: seq<Action>): View {
    if actions == [] then NewView else Acted(Run(actions[..|actions| - 1]), actions[|actions| - 1])
  }

  // -------------------------------------------------------------------- no stale paint

  /** Slots are one to a page, each page's own, and none has been given out twice. */
  ghost predicate Tidy(view: View) {
    && (forall page :: page in view.order <==> page in view.slots)
    && (forall i, j | 0 <= i < j < |view.order| :: view.order[i] != view.order[j])
    && (forall page | page in view.slots :: view.slots[page] in view.store)
    && (forall p, q | p in view.slots && q in view.slots && p != q :: view.slots[p] != view.slots[q])
    && (forall id | id in view.store :: id < view.nextSlot)
  }

  /** A slot that claims to show its page does: in full, at the zoom and rotation of this moment. */
  ghost predicate Truthful(view: View, page: nat)
    requires page in view.slots && view.slots[page] in view.store
  {
    var slot := view.store[view.slots[page]];
    slot.renderedKey.Some? ==>
      slot.renderedKey == Some(RenderKey(view.state, page)) && slot.picture == Full(RenderKey(view.state, page))
  }

  /**
   A render of the current generation holds the live slot of its page, which claims nothing yet, and what it
   has asked for and will claim to have painted is what is wanted of it now.
   */
  ghost predicate Current(view: View) {
    view.active.Some? ==>
      var task := view.active.value;
      && task.generation <= view.state.generation
      && (task.generation == view.state.generation ==>
            && task.page in view.slots && view.slots[task.page] == task.slot
            && task.key == RenderKey(view.state, task.page)
            && (task.phase.AwaitingSize? || task.phase.rotation == view.state.rotation)
            && task.slot in view.store && view.store[task.slot].renderedKey.None?)
  }

  ghost predicate Honest(view: View) {
    && Tidy(view)
    && (forall page | page in view.slots :: Truthful(view, page))
    && Current(view)
    && (forall i | 0 <= i < |view.queue| :: view.queue[i].generation <= view.state.generation)
  }

  lemma AddedIsHonest(view: View, page: nat)
    requires Honest(view) && page !in view.order
    requires view.active.Some? ==> view.active.value.generation != view.state.generation
    ensures var after := Added(view, page);
            Honest(after) && after.order == view.order + [page] && after.state == view.state &&
            after.active == view.active && after.queue == view.queue
    ensures SlotAt(Added(view, page), page) == Some(BlankSlot)
    ensures forall p | p in view.order :: SlotAt(Added(view, page), p) == SlotAt(view, p)
  {
    var after := Added(view, page);
    forall p | p in after.slots
      ensures Truthful(after, p)
    {
      if p != page {
        assert Truthful(view, p);
      }
    }
  }

  /** Building slots is safe because no render under way is of the new generation. */
  lemma {:induction false} AddedAllIsHonest(view: View, pages: seq<nat>)
    requires Honest(view) && view.order == []
    requires view.active.Some? ==> view.active.value.generation != view.state.generation
    requires forall i, j | 0 <= i < j < |pages| :: pages[i] != pages[j]
    ensures var after := AddedAll(view, pages);
            Honest(after) && after.order == pages && after.state == view.state &&
            after.active == view.active && after.queue == view.queue
    ensures forall page | page in pages :: SlotAt(AddedAll(view, pages), page) == Some(BlankSlot)
  {
    hide Honest, Tidy, Added, SlotAt;
    if pages != [] {
      var before, last := pages[..|pages| - 1], pages[|pages| - 1];
      AddedAllIsHonest(view, before);
      AddedIsHonest(AddedAll(view, before), last);
      assert pages == before + [last];
    }
  }

  lemma TidyUnfolds(view: View)
    requires Honest(view)
    ensures Tidy(view)
    ensures forall id | id in view.store :: id < view.nextSlot
    ensures forall page :: page in view.order <==> page in view.slots
    ensures forall page | page in view.slots :: SlotAt(view, page).Some?
  {
  }

  lemma TidyHasSlots(view: View)
    requires Tidy(view)
    ensures forall page | page in view.order :: page in view.slots && view.slots[page] in view.store
  {
  }

  lemma PutIsHonest(view: View, page: nat, slot: Slot)
    requires Honest(view) && page in view.slots
    requires slot.renderedKey.Some? ==>
               && view.active.None?
               && slot.renderedKey == Some(RenderKey(view.state, page))
               && slot.picture == Full(RenderKey(view.state, page))
    ensures Honest(Put(view, view.slots[page], slot))
    ensures forall p | p != page :: SlotAt(Put(view, view.slots[page], slot), p) == SlotAt(view, p)
    ensures SlotAt(Put(view, view.slots[page], slot), page) == Some(slot)
  {
  }

  lemma VisitedIsHonest(view: View, range: Range, page: nat)
    requires Honest(view)
    ensures Honest(Visited(view, range, page)) && SameFrame(Visited(view, range, page), view)
  {
    if !Near(range, page) && page in view.slots {
      PutIsHonest(view, page, BlankSlot);
    } else {
      ScheduledIsHonest(view, page);
    }
  }

  lemma ScheduledIsHonest(view: View, page: nat)
    requires Honest(view)
    ensures Honest(Scheduled(view, page))
  {
  }

  /** Apart from the queue and what is in the slots. */
  ghost predicate SameFrame(after: View, before: View) {
    after.state == before.state && after.order == before.order && after.slots == before.slots &&
    after.active == before.active
  }

  lemma {:induction false} VisitedAllIsHonest(view: View, range: Range, pages: seq<nat>)
    requires Honest(view)
    ensures Honest(VisitedAll(view, range, pages)) && SameFrame(VisitedAll(view, range, pages), view)
  {
    hide Honest, Visited;
    if pages != [] {
      VisitedAllIsHonest(view, range, pages[..|pages| - 1]);
      VisitedIsHonest(VisitedAll(view, range, pages[..|pages| - 1]), range, pages[|pages| - 1]);
    }
  }

  /** Only the zoom and rotation of the state matter to what is painted. */
  lemma RepagedIsHonest(view: View, page: nat)
    requires Honest(view)
    ensures Honest(view.(state := view.state.(page := page)))
  {
  }

  lemma UpdatedIsHonest(view: View, g: Geometry)
    requires Honest(view)
    ensures Honest(Updated(view, g))
  {
    hide Honest, VisibleRange;
    var range := VisibleRange(g, view.order);
    ScheduledIsHonest(view, view.state.page);
    VisitedAllIsHonest(view, range, view.order);
    RepagedIsHonest(VisitedAll(view, range, view.order), range.current);
  }

  /** After clearing the keys nothing is claimed, so zoom and rotation may be anything. */
  ghost predicate Unclaimed(view: View, pages: seq<nat>) {
    forall page | page in pages :: SlotAt(view, page).Some? ==> SlotAt(view, page).value.renderedKey.None?
  }

  lemma {:induction false} UnkeyedAllClaimsNothing(view: View, pages: seq<nat>)
    requires Tidy(view)
    ensures var after := UnkeyedAll(view, pages);
            Tidy(after) && SameFrame(after, view) && after.queue == view.queue && Unclaimed(after, pages)
  {
    if pages != [] {
      var before, last := pages[..|pages| - 1], pages[|pages| - 1];
      UnkeyedAllClaimsNothing(view, before);
      assert pages == before + [last];
    }
  }

  /** A new generation, with nothing yet done about the slots. */
  function Restarted(view: View, state: AppState): View {
    view.(state := state.(generation := view.state.generation + 1))
  }

  lemma RebuiltIsHonest(view: View, state: AppState)
    requires Honest(view) && state.generation == view.state.generation
    ensures Honest(Built(Restarted(view, state)))
  {
    var next := Restarted(view, state);
    AddedAllIsHonest(next.(order := [], slots := map[]), SlotPages(next.state));
  }

  lemma ClearedIsHonest(view: View, state: AppState)
    requires Honest(view) && state.generation == view.state.generation
    ensures var next := Restarted(view, state); Tidy(next) && Honest(UnkeyedAll(next, next.order))
  {
    hide UnkeyedAll;
    var next := Restarted(view, state);
    UnkeyedAllClaimsNothing(next, next.order);
    var cleared := UnkeyedAll(next, next.order);
    forall page | page in cleared.slots
      ensures Truthful(cleared, page)
    {
      assert SlotAt(cleared, page).value.renderedKey.None?;
    }
  }

  lemma NewGenerationIsHonest(view: View, g: Geometry, state: AppState, rebuild: bool)
    requires Honest(view) && state.generation == view.state.generation
    ensures Honest(Invalidated(view.(state := state), rebuild, g))
  {
    hide Honest, Tidy, Updated, Built, UnkeyedAll;
    var next := Restarted(view, state);
    RebuiltIsHonest(view, state);
    ClearedIsHonest(view, state);
    UpdatedIsHonest(if rebuild then Built(next) else UnkeyedAll(next, next.order), g);
  }

  lemma StartedIsHonest(view: View, g: Geometry)
    requires Honest(view)
    ensures Honest(Started(view, g))
  {
  }

  lemma RepliedIsHonest(view: View, ok: bool)
    requires Honest(view)
    ensures Honest(Replied(view, ok))
  {
    if view.active.Some? {
      var task := view.active.value;
      var ended := view.(active := None);
      forall page | page in view.slots
        ensures Truthful(ended, page)
      {
        assert Truthful(view, page);
      }
      if ok && task.generation == view.state.generation {
        var slot := view.store[task.slot];
        assert Truthful(view, task.page);
        PutIsHonest(ended, task.page, Slot(Some(task.key), Full(task.key)));
        if task.phase.AwaitingPreview? {
          PutIsHonest(ended, task.page, slot.(picture := Preview(task.key)));
        }
      }
    }
  }

  lemma ActedIsHonest(view: View, action: Action)
    requires Honest(view)
    ensures Honest(Acted(view, action))
  {
    hide Honest, Invalidated, Updated, Started, Replied;
    match action
    case SetZoom(zoom, g) =>
      NewGenerationIsHonest(view, g, view.state.(zoom := Upper(MIN_ZOOM, Lower(zoom, MAX_ZOOM))), false);
    case Rotate(turn, g) =>
      NewGenerationIsHonest(view, g, view.state.(rotation := (view.state.rotation + turn * 90) % 360), false);
    case SetMode(mode, g) =>
      NewGenerationIsHonest(view, g, view.state.(mode := mode), true);
    case GoToPage(page, g) =>
      if view.state.pageCount.Some? {
        var clamped := Clamped(page, view.state.pageCount.value);
        NewGenerationIsHonest(view, g, view.state.(page := clamped), true);
        RepagedIsHonest(view, clamped);
      }
    case Open(pageCount, g) =>
      NewGenerationIsHonest(
        view, g, view.state.(pageCount := Some(pageCount), page := 0, zoom := 1.0, rotation := 0), true);
    case Resize(g) => NewGenerationIsHonest(view, g, view.state, false);
    case Scroll(g) => UpdatedIsHonest(view, g);
    case Start(g) => StartedIsHonest(view, g);
    case Reply(ok) => RepliedIsHonest(view, ok);
  }

  lemma {:induction false} RunIsHonest(actions: seq<Action>)
    ensures Honest(Run(actions))
  {
    hide Acted;
    if actions != [] {
      hide Honest;
      RunIsHonest(actions[..|actions| - 1]);
      ActedIsHonest(Run(actions[..|actions| - 1]), actions[|actions| - 1]);
    }
  }

  /**
   In every interleaving of user actions with renders under way, a slot on display that claims to be painted
   shows its own page in full at the zoom and rotation of this moment.
   */
  lemma NoStalePaint(actions: seq<Action>, page: nat)
    requires page in Run(actions).slots
    ensures var view := Run(actions);
            match SlotAt(view, page)
            case None => false
            case Some(slot) =>
              slot.renderedKey.Some? ==>
                slot.renderedKey == Some(Key(page, view.state.zoom, view.state.rotation)) &&
                slot.picture == Full(Key(page, view.state.zoom, view.state.rotation))
  {
    hide Run;
    RunIsHonest(actions);
    assert Truthful(Run(actions), page);
  }
}
