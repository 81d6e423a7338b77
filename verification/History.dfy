/** Undo and redo: commands with inverses over a page list, refining a list of snapshots with a cursor. */
module History {
  import opened Prelude

  datatype Rotation = Upright | Clockwise90 | Half | Clockwise270

  datatype Error = NotRightAngle(degrees: int) | PageOutOfRange(requested: nat, total: nat)

  /** Any multiple of ninety, negative or beyond a turn, is a rotation. */
  function FromDegrees(degrees: int): Result<Rotation, Error> {
    match degrees % 360
    case 0 => Ok(Upright)
    case 90 => Ok(Clockwise90)
    case 180 => Ok(Half)
    case 270 => Ok(Clockwise270)
    case other => Err(NotRightAngle(other))
  }

  function Degrees(rotation: Rotation): int {
    match rotation
    case Upright => 0
    case Clockwise90 => 90
    case Half => 180
    case Clockwise270 => 270
  }

  function Then(first: Rotation, second: Rotation): Rotation {
    match FromDegrees(Degrees(first) + Degrees(second))
    case Ok(rotation) => rotation
    case Err(_) => Upright
  }

  /** The right angles are accepted, each as the rotation it comes to, and nothing else is. */
  lemma DegreesRoundTrip(degrees: int)
    ensures FromDegrees(degrees).Ok? <==> degrees % 90 == 0
    ensures FromDegrees(degrees).Ok? ==> (Degrees(FromDegrees(degrees).value) - degrees) % 360 == 0
  {
    var turns, rest := degrees / 360, degrees % 360;
    QuartersOfATurn(rest);
    RemainderOf(degrees, 4 * turns + rest / 90, rest % 90);
    if FromDegrees(degrees).Ok? {
      WholeTurns(rest - degrees, -turns);
    }
  }

  lemma QuartersOfATurn(rest: int)
    requires 0 <= rest < 360
    ensures rest == 90 * (rest / 90) + rest % 90
    ensures rest in {0, 90, 180, 270} <==> rest % 90 == 0
  {
  }

  lemma RemainderOf(n: int, q: int, r: int)
    requires n == 90 * q + r && 0 <= r < 90
    ensures n % 90 == r
  {
  }

  lemma WholeTurns(n: int, q: int)
    requires n == 360 * q
    ensures n % 360 == 0
  {
  }

  /** Turning back by the command's own inverse undoes a turn. */
  lemma TurnBack(rotation: Rotation, turn: Rotation)
    ensures FromDegrees(-Degrees(turn)).Ok?
    ensures Then(Then(rotation, turn), FromDegrees(-Degrees(turn)).value) == rotation
  {
    assert FromDegrees(-Degrees(turn)) == Ok(Opposite(turn)) by {
      assert (0 - 90) % 360 == 270 && (0 - 180) % 360 == 180 && (0 - 270) % 360 == 90;
    }
    ThenOpposite(rotation, turn);
  }

  function Opposite(rotation: Rotation): Rotation {
    match rotation
    case Upright => Upright
    case Clockwise90 => Clockwise270
    case Half => Half
    case Clockwise270 => Clockwise90
  }

  function Quarters(rotation: Rotation): (quarters: nat)
    ensures quarters < 4 && Degrees(rotation) == 90 * quarters
  {
    match rotation
    case Upright => 0
    case Clockwise90 => 1
    case Half => 2
    case Clockwise270 => 3
  }

  lemma ThenAdds(first: Rotation, second: Rotation)
    ensures var sum := Quarters(first) + Quarters(second);
            Quarters(Then(first, second)) == if sum < 4 then sum else sum - 4
  {
    var degrees := Degrees(first) + Degrees(second);
    if degrees < 360 {
      assert degrees % 360 == degrees;
    } else {
      assert degrees % 360 == degrees - 360;
    }
  }

  lemma ThenOpposite(rotation: Rotation, turn: Rotation)
    ensures Then(Then(rotation, turn), Opposite(turn)) == rotation
  {
    hide Then, Degrees, FromDegrees;
    ThenAdds(rotation, turn);
    ThenAdds(Then(rotation, turn), Opposite(turn));
  }

  // ------------------------------------------------------------------ the document

  /** A page's size takes no part in any command. */
  datatype Page = Page(width: real, height: real, rotation: Rotation)

  type Pages = seq<Page>

  function Turned(pages: Pages, page: nat, turn: Rotation): Result<Pages, Error> {
    if page >= |pages| then Err(PageOutOfRange(page, |pages|))
    else Ok(pages[page := pages[page].(rotation := Then(pages[page].rotation, turn))])
  }

  function Moved(pages: Pages, from: nat, to: nat): Result<Pages, Error> {
    if from >= |pages| then Err(PageOutOfRange(from, |pages|))
    else if to >= |pages| then Err(PageOutOfRange(to, |pages|))
    else
      var rest := pages[..from] + pages[from + 1..];
      Ok(rest[..to] + [pages[from]] + rest[to..])
  }

  /** Where each page of the result comes from: the moved page lands at `to`, the others keep their order. */
  lemma MovedPages(pages: Pages, from: nat, to: nat, i: nat)
    requires from < |pages| && to < |pages| && i < |pages|
    ensures |Moved(pages, from, to).value| == |pages|
    ensures Moved(pages, from, to).value[i] ==
            if i == to then pages[from]
            else if from <= i < to then pages[i + 1]
            else if to < i <= from then pages[i - 1]
            else pages[i]
  {
  }

  lemma MoveBack(pages: Pages, from: nat, to: nat)
    requires from < |pages| && to < |pages|
    ensures Moved(Moved(pages, from, to).value, to, from) == Ok(pages)
  {
    var moved := Moved(pages, from, to).value;
    var back := Moved(moved, to, from).value;
    MovedPages(pages, from, to, 0);
    MovedPages(moved, to, from, 0);
    forall i | 0 <= i < |pages|
      ensures back[i] == pages[i]
    {
      hide Moved;
      MovedPages(moved, to, from, i);
      MovedPages(pages, from, to,
                 if i == from then to
                 else if to <= i < from then i + 1
                 else if from < i <= to then i - 1
                 else i);
    }
    assert back == pages;
  }

  // ------------------------------------------------------------------- commands

  datatype Command = RotatePage(page: nat, turn: Rotation) | MovePage(from: nat, to: nat)

  function Applied(command: Command, pages: Pages): Result<Pages, Error> {
    match command
    case RotatePage(page, turn) => Turned(pages, page, turn)
    case MovePage(from, to) => Moved(pages, from, to)
  }

  /** Rotating turns the page named by the angle given, and touches neither its size nor any other page. */
  lemma RotatingTurnsThePage(pages: Pages, page: nat, turn: Rotation)
    ensures match Applied(RotatePage(page, turn), pages)
            case Err(error) => page >= |pages| && error == PageOutOfRange(page, |pages|)
            case Ok(after) =>
              && page < |pages| == |after|
              && (forall i | 0 <= i < |pages| && i != page :: after[i] == pages[i])
              && after[page].width == pages[page].width && after[page].height == pages[page].height
              && (Degrees(after[page].rotation) - Degrees(pages[page].rotation) - Degrees(turn)) % 360 == 0
  {
    if page < |pages| {
      ThenAdds(pages[page].rotation, turn);
    }
  }

  /** Moving puts the page at `from` in place `to`; the pages between close up, the rest stay. */
  lemma MovingPutsThePage(pages: Pages, from: nat, to: nat)
    ensures match Applied(MovePage(from, to), pages)
            case Err(error) =>
              (from >= |pages| && error == PageOutOfRange(from, |pages|)) ||
              (from < |pages| <= to && error == PageOutOfRange(to, |pages|))
            case Ok(after) =>
              && from < |pages| && to < |pages| == |after| && after[to] == pages[from]
              && (forall i | from <= i < to :: after[i] == pages[i + 1])
              && (forall i | to < i <= from :: after[i] == pages[i - 1])
              && (forall i | 0 <= i < |pages| && ((i < from && i < to) || (i > from && i > to)) :: after[i] == pages[i])
  {
    if from < |pages| && to < |pages| {
      MovedPages(pages, from, to, to);
      var moved := Moved(pages, from, to).value;
      forall i | 0 <= i < |pages|
        ensures moved[i] ==
                if i == to then pages[from]
                else if from <= i < to then pages[i + 1]
                else if to < i <= from then pages[i - 1]
                else pages[i]
      {
        MovedPages(pages, from, to, i);
      }
    }
  }

  /** Labels number pages from one. */
  lemma LabelsCountFromOne(page: nat, turn: Rotation, from: nat, to: nat)
    ensures LabelOf(RotatePage(page, turn)) == Rotated(page + 1)
    ensures LabelOf(MovePage(from, to)) == MovedTo(from + 1, to + 1)
  {
  }

  function Inverted(command: Command, pages: Pages): Result<Pages, Error> {
    match command
    case RotatePage(page, turn) =>
      (match FromDegrees(-Degrees(turn))
       case Err(error) => Err(error)
       case Ok(inverse) => Turned(pages, page, inverse))
    case MovePage(from, to) => Moved(pages, to, from)
  }

  datatype Label = Rotated(page: nat) | MovedTo(from: nat, to: nat)

  /** What the undo menu shows; pages are counted from one. */
  function LabelOf(command: Command): Label {
    match command
    case RotatePage(page, _) => Rotated(page + 1)
    case MovePage(from, to) => MovedTo(from + 1, to + 1)
  }

  /** A command that applied can be inverted, and inverting it gives the document back exactly. */
  lemma InverseRestores(command: Command, pages: Pages)
    requires Applied(command, pages).Ok?
    ensures Inverted(command, Applied(command, pages).value) == Ok(pages)
  {
    match command
    case RotatePage(page, turn) =>
      TurnBack(pages[page].rotation, turn);
      var turned := Applied(command, pages).value;
      assert Inverted(command, turned).value == pages;
    case MovePage(from, to) =>
      MoveBack(pages, from, to);
  }

  class Document {
    var pages: Pages

    constructor (pages: Pages)
      ensures this.pages == pages
    {
      this.pages := pages;
    }

    method Turn(page: nat, turn: Rotation) returns (r: Result<(), Error>)
      modifies this
      ensures match Turned(old(pages), page, turn)
              case Ok(turned) => r == Ok(()) && pages == turned
              case Err(error) => r == Err(error) && pages == old(pages)
    {
      if page >= |pages| {
        return Err(PageOutOfRange(page, |pages|));
      }
      var turned := pages[page].(rotation := Then(pages[page].rotation, turn));
      pages := pages[page := turned];
      r := Ok(());
    }

    method MovePage(from: nat, to: nat) returns (r: Result<(), Error>)
      modifies this
      ensures match Moved(old(pages), from, to)
              case Ok(moved) => r == Ok(()) && pages == moved
              case Err(error) => r == Err(error) && pages == old(pages)
    {
      var total := |pages|;
      if from >= total {
        return Err(PageOutOfRange(from, total));
      }
      if to >= total {
        return Err(PageOutOfRange(to, total));
      }
      var page := pages[from];
      pages := pages[..from] + pages[from + 1..];
      pages := pages[..to] + [page] + pages[to..];
      r := Ok(());
    }

    method Apply(command: Command) returns (r: Result<(), Error>)
      modifies this
      ensures match Applied(command, old(pages))
              case Ok(changed) => r == Ok(()) && pages == changed
              case Err(error) => r == Err(error) && pages == old(pages)
    {
      match command {
        case RotatePage(page, turn) => r := Turn(page, turn);
        case MovePage(from, to) => r := MovePage(from, to);
      }
    }

    method Invert(command: Command) returns (r: Result<(), Error>)
      modifies this
      ensures match Inverted(command, old(pages))
              case Ok(changed) => r == Ok(()) && pages == changed
              case Err(error) => r == Err(error) && pages == old(pages)
    {
      match command {
        case RotatePage(page, turn) =>
          var inverse := FromDegrees(-Degrees(turn));
          if inverse.Err? {
            return Err(inverse.error);
          }
          r := Turn(page, inverse.value);
        case MovePage(from, to) => r := MovePage(to, from);
      }
    }
  }

  // --------------------------------------------------------------------- the stack

  /** The document and the two stacks, last pushed last. */
  datatype History = History(pages: Pages, done: seq<Command>, undone: seq<Command>)

  type Reply = Result<Option<Label>, Error>

  datatype Action = Do(command: Command) | Undo | Redo

  function Did(history: History, command: Command): (History, Reply) {
    match Applied(command, history.pages)
    case Err(error) => (history, Err(error))
    case Ok(pages) => (History(pages, history.done + [command], []), Ok(None))
  }

  /** The command is off the stack before its inverse is tried. */
  function Undid(history: History): (History, Reply) {
    if history.done == [] then (history, Ok(None))
    else
      var command := history.done[|history.done| - 1];
      var popped := history.(done := history.done[..|history.done| - 1]);
      match Inverted(command, history.pages)
      case Err(error) => (popped, Err(error))
      case Ok(pages) =>
        (popped.(pages := pages, undone := history.undone + [command]), Ok(Some(LabelOf(command))))
  }

  function Redid(history: History): (History, Reply) {
    if history.undone == [] then (history, Ok(None))
    else
      var command := history.undone[|history.undone| - 1];
      var popped := history.(undone := history.undone[..|history.undone| - 1]);
      match Applied(command, history.pages)
      case Err(error) => (popped, Err(error))
      case Ok(pages) => (popped.(pages := pages, done := history.done + [command]), Ok(Some(LabelOf(command))))
  }

  function Acted(history: History, action: Action): (History, Reply) {
    match action
    case Do(command) => Did(history, command)
    case Undo => Undid(history)
    case Redo => Redid(history)
  }

  class CommandStack {
    var done: seq<Command>
    var undone: seq<Command>

    constructor ()
      ensures done == [] && undone == []
    {
      done, undone := [], [];
    }

    method Apply(document: Document, command: Command) returns (r: Reply)
      modifies this, document
      ensures (History(document.pages, done, undone), r) ==
              Did(History(old(document.pages), old(done), old(undone)), command)
    {
      var applied := document.Apply(command);
      if applied.Err? {
        return Err(applied.error);
      }
      done := done + [command];
      undone := [];
      r := Ok(None);
    }

    method Undo(document: Document) returns (r: Reply)
      modifies this, document
      ensures (History(document.pages, done, undone), r) ==
              Undid(History(old(document.pages), old(done), old(undone)))
    {
      if done == [] {
        return Ok(None);
      }
      var command := done[|done| - 1];
      done := done[..|done| - 1];
      var inverted := document.Invert(command);
      if inverted.Err? {
        return Err(inverted.error);
      }
      undone := undone + [command];
      r := Ok(Some(LabelOf(command)));
    }

    method Redo(document: Document) returns (r: Reply)
      modifies this, document
      ensures (History(document.pages, done, undone), r) ==
              Redid(History(old(document.pages), old(done), old(undone)))
    {
      if undone == [] {
        return Ok(None);
      }
      var command := undone[|undone| - 1];
      undone := undone[..|undone| - 1];
      var applied := document.Apply(command);
      if applied.Err? {
        return Err(applied.error);
      }
      done := done + [command];
      r := Ok(Some(LabelOf(command)));
    }
  }

  // --------------------------------------------------------- snapshots with a cursor

  /** The plain reading of an undo history: every document there has been on this branch, and which one is shown. */
  datatype Timeline = Timeline(snapshots: seq<Pages>, cursor: nat)

  function Shown(timeline: Timeline): Pages
    requires timeline.cursor < |timeline.snapshots|
  {
    timeline.snapshots[timeline.cursor]
  }

  /** Doing cuts off what was undone; undoing and redoing only move the cursor. */
  function MovedOn(timeline: Timeline, action: Action): (moved: Timeline)
    requires timeline.cursor < |timeline.snapshots|
    ensures moved.cursor < |moved.snapshots|
  {
    match action
    case Do(command) =>
      (match Applied(command, Shown(timeline))
       case Err(_) => timeline
       case Ok(pages) => Timeline(timeline.snapshots[..timeline.cursor + 1] + [pages], timeline.cursor + 1))
    case Undo => if timeline.cursor == 0 then timeline else timeline.(cursor := timeline.cursor - 1)
    case Redo =>
      if timeline.cursor + 1 == |timeline.snapshots| then timeline else timeline.(cursor := timeline.cursor + 1)
  }

  /** The command between each snapshot and the next: those done, then those undone, last undone first. */
  function Between(history: History, i: nat): Command
    requires i < |history.done| + |history.undone|
  {
    if i < |history.done| then history.done[i]
    else history.undone[|history.undone| - 1 - (i - |history.done|)]
  }

  ghost predicate Tells(history: History, timeline: Timeline) {
    && |timeline.snapshots| == |history.done| + |history.undone| + 1
    && timeline.cursor == |history.done|
    && history.pages == Shown(timeline)
    && forall i | 0 <= i < |history.done| + |history.undone| ::
         Applied(Between(history, i), timeline.snapshots[i]) == Ok(timeline.snapshots[i + 1])
  }

  /** An action keeps the two histories in step, and undo and redo never fail. */
  lemma ActionsAgree(history: History, timeline: Timeline, action: Action)
    requires Tells(history, timeline)
    ensures Tells(Acted(history, action).0, MovedOn(timeline, action))
    ensures !action.Do? ==> Acted(history, action).1.Ok?
    ensures action.Do? && Acted(history, action).1.Err? ==> Acted(history, action).0 == history
    ensures action.Undo? ==>
              Acted(history, action).1 ==
              Ok(if timeline.cursor == 0 then None else Some(LabelOf(Between(history, timeline.cursor - 1))))
    ensures action.Redo? ==>
              Acted(history, action).1 ==
              Ok(if timeline.cursor + 1 == |timeline.snapshots| then None
                 else Some(LabelOf(Between(history, timeline.cursor))))
  {
    hide Applied, Inverted, LabelOf;
    var history', timeline' := Acted(history, action).0, MovedOn(timeline, action);
    var n := |history.done|;
    match action
    case Do(command) =>
      forall i | 0 <= i < |history'.done| + |history'.undone|
        ensures Applied(Between(history', i), timeline'.snapshots[i]) == Ok(timeline'.snapshots[i + 1])
      {
        if i < n {
          assert Between(history', i) == Between(history, i);
        }
      }
    case Undo =>
      if n > 0 {
        assert Between(history, n - 1) == history.done[n - 1];
        assert Applied(history.done[n - 1], timeline.snapshots[n - 1]) == Ok(timeline.snapshots[n - 1 + 1]);
        InverseRestores(history.done[n - 1], timeline.snapshots[n - 1]);
        SameBetween(history, history');
      }
    case Redo =>
      if history.undone != [] {
        assert Between(history, n) == history.undone[|history.undone| - 1];
        assert Applied(Between(history, n), timeline.snapshots[n]) == Ok(timeline.snapshots[n + 1]);
        SameBetween(history, history');
      }
  }

  lemma SameBetween(history: History, history': History)
    requires |history.done| + |history.undone| == |history'.done| + |history'.undone|
    requires (history.done != [] &&
              history'.done == history.done[..|history.done| - 1] &&
              history'.undone == history.undone + [history.done[|history.done| - 1]]) ||
             (history.undone != [] &&
              history'.done == history.done + [history.undone[|history.undone| - 1]] &&
              history'.undone == history.undone[..|history.undone| - 1])
    ensures forall i | 0 <= i < |history.done| + |history.undone| :: Between(history', i) == Between(history, i)
  {
  }

  // ------------------------------------------------------------------------ runs

  function Run(start: Pages, actions: seq<Action>): History {
    if actions == [] then History(start, [], [])
    else Acted(Run(start, actions[..|actions| - 1]), actions[|actions| - 1]).0
  }

  function RunTimeline(start: Pages, actions: seq<Action>): (timeline: Timeline)
    ensures timeline.cursor < |timeline.snapshots|
  {
    if actions == [] then Timeline([start], 0)
    else MovedOn(RunTimeline(start, actions[..|actions| - 1]), actions[|actions| - 1])
  }

  /** Any run from an empty stack shows exactly what the list of snapshots shows. */
  lemma {:induction false} RunsAgree(start: Pages, actions: seq<Action>)
    ensures Tells(Run(start, actions), RunTimeline(start, actions))
    ensures Run(start, actions).pages == Shown(RunTimeline(start, actions))
    ensures RunTimeline(start, actions).snapshots[0] == start
  {
    hide Acted, MovedOn;
    if actions != [] {
      var before, last := actions[..|actions| - 1], actions[|actions| - 1];
      RunsAgree(start, before);
      ActionsAgree(Run(start, before), RunTimeline(start, before), last);
      FirstStays(RunTimeline(start, before), last);
    }
  }

  lemma FirstStays(timeline: Timeline, action: Action)
    requires timeline.cursor < |timeline.snapshots|
    ensures MovedOn(timeline, action).snapshots[0] == timeline.snapshots[0]
  {
  }

  function Undos(n: nat): seq<Action> {
    seq(n, _ => Undo)
  }

  /** Undoing everything gives the starting document back. */
  lemma UndoingEverythingRestores(start: Pages, actions: seq<Action>)
    ensures Run(start, actions + Undos(|Run(start, actions).done|)).pages == start
  {
    RunsAgree(start, actions);
    UndosMoveBack(start, actions, |Run(start, actions).done|);
    RunsAgree(start, actions + Undos(|Run(start, actions).done|));
  }

  lemma {:induction false} UndosMoveBack(start: Pages, actions: seq<Action>, n: nat)
    requires n <= RunTimeline(start, actions).cursor
    ensures RunTimeline(start, actions + Undos(n)) ==
            RunTimeline(start, actions).(cursor := RunTimeline(start, actions).cursor - n)
  {
    if n == 0 {
      assert actions + Undos(0) == actions;
    } else {
      UndosMoveBack(start, actions, n - 1);
      assert (actions + Undos(n))[..|actions| + n - 1] == actions + Undos(n - 1);
    }
  }
}
