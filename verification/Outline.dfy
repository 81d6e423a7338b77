/** The outline walk: depth first over a linked structure that may contain cycles, spending a shared budget. */
module Outline {
  import opened Prelude

  const MAX_OUTLINE_ENTRIES: nat := 5000

  datatype OutlineEntry = OutlineEntry(title: string, depth: nat, page: Option<nat>)

  /** The engine's bookmarks: numbered, each with at most one next sibling and one first child. */
  datatype Bookmarks = Bookmarks(
    root: Option<nat>,
    next: nat -> Option<nat>,
    child: nat -> Option<nat>,
    title: nat -> string,
    page: nat -> Option<nat>)
  {
    function Entry(node: nat, depth: nat): OutlineEntry {
      OutlineEntry(title(node), depth, page(node))
    }
  }

  /** What the walk emits from `node` onwards, and the budget it leaves. */
  function Walk(marks: Bookmarks, node: Option<nat>, depth: nat, budget: nat): (r: (seq<OutlineEntry>, nat))
    ensures r.1 <= budget
    decreases budget
  {
    if node.None? || budget == 0 then
      ([], budget)
    else
      var (below, left) := Walk(marks, marks.child(node.value), depth + 1, budget - 1);
      var (after, remaining) := Walk(marks, marks.next(node.value), depth, left);
      ([marks.Entry(node.value, depth)] + below + after, remaining)
  }

  lemma WalkOfNothing(marks: Bookmarks, depth: nat, budget: nat)
    ensures Walk(marks, None, depth, budget) == ([], budget)
  {
  }

  /** One bookmark, what is below it, and what comes after it. */
  lemma WalkStep(marks: Bookmarks, node: nat, depth: nat, budget: nat)
    ensures budget == 0 ==> Walk(marks, Some(node), depth, budget) == ([], 0)
    ensures budget > 0 ==>
              var (below, left) := Walk(marks, marks.child(node), depth + 1, budget - 1);
              left <= budget - 1 &&
              var (after, remaining) := Walk(marks, marks.next(node), depth, left);
              Walk(marks, Some(node), depth, budget) == ([marks.Entry(node, depth)] + below + after, remaining)
  {
  }

  class Collector {
    var entries: seq<OutlineEntry>
    var budget: nat

    constructor (budget: nat)
      ensures entries == [] && this.budget == budget
    {
      entries, this.budget := [], budget;
    }

    method Collect(marks: Bookmarks, bookmark: nat, depth: nat)
      modifies this
      ensures var (emitted, left) := Walk(marks, Some(bookmark), depth, old(budget));
              entries == old(entries) + emitted && budget == left
      decreases budget
    {
      hide Walk;
      var sibling := Some(bookmark);
      ghost var start, goal := entries, Walk(marks, sibling, depth, budget);
      while sibling.Some?
        invariant budget <= old(budget)
        invariant entries + Walk(marks, sibling, depth, budget).0 == start + goal.0
        invariant Walk(marks, sibling, depth, budget).1 == goal.1
        decreases budget, sibling.Some?
      {
        WalkStep(marks, sibling.value, depth, budget);
        if budget == 0 {
          return;
        }
        var node := sibling.value;
        var child := marks.child(node);
        ghost var before, entry := entries, marks.Entry(node, depth);
        ghost var (below, left) := Walk(marks, child, depth + 1, budget - 1);
        ghost var (after, remaining) := Walk(marks, marks.next(node), depth, left);
        WalkOfNothing(marks, depth + 1, budget - 1);
        budget := budget - 1;
        entries := entries + [marks.Entry(node, depth)];
        if child.Some? {
          Collect(marks, child.value, depth + 1);
        }
        assert entries == before + [entry] + below && budget == left;
        InTurn(before, entry, below, after, start + goal.0);
        sibling := marks.next(node);
      }
      WalkOfNothing(marks, depth, budget);
    }
  }

  lemma InTurn<T>(before: seq<T>, entry: T, below: seq<T>, after: seq<T>, whole: seq<T>)
    requires before + ([entry] + below + after) == whole
    ensures before + [entry] + below + after == whole
  {
  }

  function OutlineOf(marks: Bookmarks): seq<OutlineEntry> {
    Walk(marks, marks.root, 0, MAX_OUTLINE_ENTRIES).0
  }

  method ReadOutline(marks: Bookmarks) returns (entries: seq<OutlineEntry>)
    ensures entries == OutlineOf(marks)
  {
    if marks.root.None? {
      return [];
    }
    var collector := new Collector(MAX_OUTLINE_ENTRIES);
    collector.Collect(marks, marks.root.value, 0);
    entries := collector.entries;
  }

  /** Every entry costs one unit, cycles or not. */
  lemma {:induction false} WalkSpendsOnePerEntry(marks: Bookmarks, node: Option<nat>, depth: nat, budget: nat)
    ensures var (entries, left) := Walk(marks, node, depth, budget);
            |entries| + left == budget
    decreases budget
  {
    if node.Some? && budget > 0 {
      WalkSpendsOnePerEntry(marks, marks.child(node.value), depth + 1, budget - 1);
      var (_, left) := Walk(marks, marks.child(node.value), depth + 1, budget - 1);
      WalkSpendsOnePerEntry(marks, marks.next(node.value), depth, left);
    }
  }

  /** A list of depths a viewer can indent: it starts at `depth`, never goes above it, and steps in one at a time. */
  ghost predicate Indents(entries: seq<OutlineEntry>, depth: nat) {
    && (entries != [] ==> entries[0].depth == depth)
    && (forall i | 0 <= i < |entries| :: depth <= entries[i].depth)
    && (forall i | 0 < i < |entries| :: entries[i].depth <= entries[i - 1].depth + 1)
  }

  lemma {:induction false} WalkIndents(marks: Bookmarks, node: Option<nat>, depth: nat, budget: nat)
    ensures Indents(Walk(marks, node, depth, budget).0, depth)
    decreases budget
  {
    if node.Some? && budget > 0 {
      WalkIndents(marks, marks.child(node.value), depth + 1, budget - 1);
      var (below, left) := Walk(marks, marks.child(node.value), depth + 1, budget - 1);
      WalkIndents(marks, marks.next(node.value), depth, left);
    }
  }

  lemma PrefixInTurn<T>(entry: T, below: seq<T>, after: seq<T>, below': seq<T>, after': seq<T>)
    requires (below == below' && after <= after') || (below <= below' && after == [])
    ensures [entry] + below + after <= [entry] + below' + after'
  {
  }

  /** A smaller budget sees the beginning of what a larger one sees, on any graph. */
  lemma {:induction false} SmallerBudgetIsPrefix(
    marks: Bookmarks, node: Option<nat>, depth: nat, small: nat, large: nat)
    requires small <= large
    ensures var (some, left) := Walk(marks, node, depth, small);
            var (more, remaining) := Walk(marks, node, depth, large);
            && some <= more
            && |some| == Min(small, |more|)
            && (left > 0 ==> some == more)
    decreases small
  {
    hide Walk;
    WalkSpendsOnePerEntry(marks, node, depth, small);
    WalkSpendsOnePerEntry(marks, node, depth, large);
    if node.None? {
      WalkOfNothing(marks, depth, small);
      WalkOfNothing(marks, depth, large);
    } else if small > 0 {
      var child, next := marks.child(node.value), marks.next(node.value);
      var (below, left) := Walk(marks, child, depth + 1, small - 1);
      var (below', left') := Walk(marks, child, depth + 1, large - 1);
      SmallerBudgetIsPrefix(marks, child, depth + 1, small - 1, large - 1);
      WalkSpendsOnePerEntry(marks, child, depth + 1, small - 1);
      WalkSpendsOnePerEntry(marks, child, depth + 1, large - 1);
      var entry := marks.Entry(node.value, depth);
      var (after, remaining) := Walk(marks, next, depth, left);
      var (after', remaining') := Walk(marks, next, depth, left');
      WalkStep(marks, node.value, depth, small);
      WalkStep(marks, node.value, depth, large);
      WalkSpendsOnePerEntry(marks, next, depth, left);
      WalkSpendsOnePerEntry(marks, next, depth, left');
      if left > 0 {
        SmallerBudgetIsPrefix(marks, next, depth, left, left');
      }
      PrefixInTurn(entry, below, after, below', after');
    }
  }

  // ------------------------------------------------------------- finite outlines

  /** A finite outline: a node with what is below it, then the nodes after it. */
  datatype Forest = Empty | Node(node: nat, below: Forest, after: Forest)

  function Size(forest: Forest): nat {
    match forest
    case Empty => 0
    case Node(_, below, after) => 1 + Size(below) + Size(after)
  }

  /** The links from `node` spell out exactly this forest. */
  ghost predicate Unfolds(marks: Bookmarks, node: Option<nat>, forest: Forest)
    decreases forest
  {
    match forest
    case Empty => node.None?
    case Node(n, below, after) =>
      node == Some(n) && Unfolds(marks, marks.child(n), below) && Unfolds(marks, marks.next(n), after)
  }

  function Preorder(marks: Bookmarks, forest: Forest, depth: nat): seq<OutlineEntry> {
    match forest
    case Empty => []
    case Node(n, below, after) =>
      [marks.Entry(n, depth)] + Preorder(marks, below, depth + 1) + Preorder(marks, after, depth)
  }

  lemma {:induction false} PreorderSize(marks: Bookmarks, forest: Forest, depth: nat)
    ensures |Preorder(marks, forest, depth)| == Size(forest)
  {
    match forest
    case Empty =>
    case Node(_, below, after) =>
      PreorderSize(marks, below, depth + 1);
      PreorderSize(marks, after, depth);
  }

  /** On an outline without cycles the walk emits exactly the first `budget` entries of the preorder. */
  lemma {:induction false} WalkIsPreorder(
    marks: Bookmarks, node: Option<nat>, forest: Forest, depth: nat, budget: nat)
    requires Unfolds(marks, node, forest)
    ensures var (entries, left) := Walk(marks, node, depth, budget);
            && entries <= Preorder(marks, forest, depth)
            && |entries| == Min(budget, Size(forest))
            && left == budget - |entries|
    decreases forest
  {
    if forest.Node? && budget > 0 {
      var child, next := marks.child(forest.node), marks.next(forest.node);
      var (below, left) := Walk(marks, child, depth + 1, budget - 1);
      WalkIsPreorder(marks, child, forest.below, depth + 1, budget - 1);
      WalkIsPreorder(marks, next, forest.after, depth, left);
      PreorderSize(marks, forest.below, depth + 1);
      PrefixInTurn(marks.Entry(forest.node, depth), below, Walk(marks, next, depth, left).0,
                   Preorder(marks, forest.below, depth + 1), Preorder(marks, forest.after, depth));
    }
  }

  /** Budget left over means the links were a finite outline and all of it was emitted. */
  lemma {:induction false} LeftoverMeansFinite(marks: Bookmarks, node: Option<nat>, depth: nat, budget: nat)
    returns (forest: Forest)
    requires Walk(marks, node, depth, budget).1 > 0
    ensures Unfolds(marks, node, forest)
    ensures Walk(marks, node, depth, budget).0 == Preorder(marks, forest, depth)
    decreases budget
  {
    if node.None? {
      return Empty;
    }
    var (below, left) := Walk(marks, marks.child(node.value), depth + 1, budget - 1);
    var lower := LeftoverMeansFinite(marks, marks.child(node.value), depth + 1, budget - 1);
    var later := LeftoverMeansFinite(marks, marks.next(node.value), depth, left);
    forest := Node(node.value, lower, later);
  }

  /**
   The outline the worker reports: whole exactly when the links are finite with fewer entries than the cap;
   any finite outline is reported up to the cap.
   */
  lemma OutlineIsHonest(marks: Bookmarks)
    ensures |OutlineOf(marks)| <= MAX_OUTLINE_ENTRIES && Indents(OutlineOf(marks), 0)
    ensures |OutlineOf(marks)| < MAX_OUTLINE_ENTRIES <==>
            exists forest :: Unfolds(marks, marks.root, forest) && Size(forest) < MAX_OUTLINE_ENTRIES
    ensures forall forest | Unfolds(marks, marks.root, forest) ::
              OutlineOf(marks) ==
              Preorder(marks, forest, 0)[..Min(MAX_OUTLINE_ENTRIES, |Preorder(marks, forest, 0)|)]
  {
    hide Walk, Preorder;
    WalkSpendsOnePerEntry(marks, marks.root, 0, MAX_OUTLINE_ENTRIES);
    WalkIndents(marks, marks.root, 0, MAX_OUTLINE_ENTRIES);
    if |OutlineOf(marks)| < MAX_OUTLINE_ENTRIES {
      var forest := LeftoverMeansFinite(marks, marks.root, 0, MAX_OUTLINE_ENTRIES);
      PreorderSize(marks, forest, 0);
    }
    forall forest | Unfolds(marks, marks.root, forest)
      ensures OutlineOf(marks) ==
              Preorder(marks, forest, 0)[..Min(MAX_OUTLINE_ENTRIES, |Preorder(marks, forest, 0)|)]
      ensures Size(forest) < MAX_OUTLINE_ENTRIES ==> |OutlineOf(marks)| < MAX_OUTLINE_ENTRIES
    {
      WalkIsPreorder(marks, marks.root, forest, 0, MAX_OUTLINE_ENTRIES);
      PreorderSize(marks, forest, 0);
    }
  }

  /**
   What the entries of a finite outline say: a bookmark's title and page are its own; its first child follows it one
   level deeper; the bookmark after it follows all that is below it, on its own level.
   */
  lemma EntriesAreTheBookmarks(marks: Bookmarks, forest: Forest, depth: nat)
    requires forest.Node?
    ensures var entries := Preorder(marks, forest, depth);
            && |entries| == Size(forest) && ShowsMark(marks, entries[0], forest.node, depth)
            && (forest.below.Node? ==> |entries| > 1 && ShowsMark(marks, entries[1], forest.below.node, depth + 1))
            && (forest.after.Node? ==>
                  |entries| > 1 + Size(forest.below) &&
                  ShowsMark(marks, entries[1 + Size(forest.below)], forest.after.node, depth))
            && (forall i | 0 < i <= Size(forest.below) :: entries[i].depth > depth)
  {
    hide Size;
    PreorderSize(marks, forest, depth);
    PreorderSize(marks, forest.below, depth + 1);
    PreorderSize(marks, forest.after, depth);
    SizeOfNode(forest);
    var below, after := Preorder(marks, forest.below, depth + 1), Preorder(marks, forest.after, depth);
    var entries := Preorder(marks, forest, depth);
    assert entries == [marks.Entry(forest.node, depth)] + below + after;
    PreorderIsAtLeast(marks, forest.below, depth + 1);
    assert forall i | 0 < i <= |below| :: entries[i] == below[i - 1];
  }

  ghost predicate ShowsMark(marks: Bookmarks, entry: OutlineEntry, node: nat, depth: nat) {
    entry.title == marks.title(node) && entry.page == marks.page(node) && entry.depth == depth
  }

  lemma SizeOfNode(forest: Forest)
    ensures forest.Node? ==> Size(forest) == 1 + Size(forest.below) + Size(forest.after)
    ensures forest.below.Node? ==> Size(forest.below) > 0
    ensures forest.after.Node? ==> Size(forest.after) > 0
    requires forest.Node?
  {
  }

  lemma {:induction false} PreorderIsAtLeast(marks: Bookmarks, forest: Forest, depth: nat)
    ensures forall entry | entry in Preorder(marks, forest, depth) :: entry.depth >= depth
  {
    if forest.Node? {
      PreorderIsAtLeast(marks, forest.below, depth + 1);
      PreorderIsAtLeast(marks, forest.after, depth);
    }
  }
}
