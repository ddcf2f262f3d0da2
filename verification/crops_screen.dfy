/** The crop-management screen: a pager over the catalogue of crops, the active crop with the
    days it has run, and the confirmation asked before abandoning an unfinished crop. */
module CropsScreen {
  import opened Wrappers

  /** A catalogue entry: id, display name and cycle length in days. */
  datatype CropSpec = CropSpec(id: string, name: string, totalDays: int)

  /** The screen's own catalogue; its cycle lengths differ from those of the summary screen. */
  const Catalog: seq<CropSpec> := [
    CropSpec("lechuga", "Lechuga", 20),
    CropSpec("espinaca", "Espinaca", 30),
    CropSpec("rucula", "Rúcula", 20),
    CropSpec("acelga", "Acelga", 35),
    CropSpec("albahaca", "Albahaca", 21),
    CropSpec("mostaza", "Mostaza", 25)
  ]

  const InitialElapsed: int := 12

  /** `activeIndex`, `activeDaysElapsed`, the pager's current page and `confirmForIndex`. */
  datatype State = State(active: nat, elapsed: int, page: nat, pending: Option<nat>)

  predicate Valid(s: State) {
    && s.active < |Catalog|
    && s.page < |Catalog|
    && (s.pending.Some? ==> s.pending.value < |Catalog|)
  }

  /** The screen opens on the first crop, twelve days in, with no dialog. */
  function Init(): (r: State)
    ensures Valid(r) && r.pending.None? && r.page == r.active
  {
    State(0, InitialElapsed, 0, None)
  }

  /** Days left in the active crop's cycle; negative once it has overrun. */
  function Remaining(s: State): int
    requires Valid(s)
  {
    Catalog[s.active].totalDays - s.elapsed
  }

  /** The remaining days as the dialog shows them: never negative. */
  function RemainingShown(s: State): (r: int)
    requires Valid(s)
    ensures r >= 0
    ensures r >= Remaining(s)
    ensures r == 0 || r == Remaining(s)
  {
    if Remaining(s) < 0 then 0 else Remaining(s)
  }

  /** The pager settles on page `i`. The effect runs only when the page changes: landing on
      another crop asks for confirmation while the active one still has days left, and switches
      at once (starting at day 0) otherwise. */
  function SettlePage(s: State, i: nat): (r: State)
    requires Valid(s) && i < |Catalog|
    ensures Valid(r) && r.page == i
    ensures i == s.page ==> r == s
    ensures i != s.page && i == s.active ==> r == s.(page := i)
    ensures i != s.page && i != s.active && Remaining(s) > 0 ==>
      r == s.(page := i, pending := Some(i))
    ensures i != s.page && i != s.active && Remaining(s) <= 0 ==>
      r.active == i && r.elapsed == 0 && r.pending == s.pending
  {
    if i == s.page then s
    else if i == s.active then s.(page := i)
    else if Remaining(s) > 0 then s.(page := i, pending := Some(i))
    else s.(page := i, active := i, elapsed := 0)
  }

  /** Page `p` lies on the way from `from` to `to`, past `from` and not beyond `to`. */
  predicate Between(from: nat, p: nat, to: nat) {
    (from < to ==> from < p <= to) && (from > to ==> to <= p < from) && (from == to ==> p == to)
  }

  /** The values `currentPage` takes while `animateScrollToPage` moves the pager from `from` to
      `to`: none when it is there already, otherwise some of the pages in between in the order
      passed (a page the pager jumps over is not seen) and then `to`. */
  predicate ScrollPath(from: nat, to: nat, path: seq<nat>) {
    && (from == to ==> path == [])
    && (from != to ==> |path| > 0 && path[|path| - 1] == to)
    && (forall k :: 0 <= k < |path| ==> Between(from, path[k], to))
    && (forall k :: 0 <= k < |path| - 1 ==>
          (from < to ==> path[k] < path[k + 1]) && (from > to ==> path[k] > path[k + 1]))
  }

  /** Every page change re-runs the page effect, exactly as a settled swipe does. */
  function Scroll(s: State, path: seq<nat>): (r: State)
    requires Valid(s) && forall k :: 0 <= k < |path| ==> path[k] < |Catalog|
    ensures Valid(r)
    ensures |path| == 0 ==> r == s
    ensures |path| > 0 ==> r.page == path[|path| - 1]
    decreases |path|
  {
    if |path| == 0 then s else Scroll(SettlePage(s, path[0]), path[1..])
  }

  /** Scrolling back to the active crop while it has days left: the crop and its days are kept
      and the pager ends on it, but every page passed on the way asks for confirmation again, so
      the dialog is left open for the last page passed before the active one. */
  lemma {:induction false} ScrollBackToActive(s: State, path: seq<nat>)
    requires Valid(s) && Remaining(s) > 0 && ScrollPath(s.page, s.active, path)
    ensures var r := Scroll(s, path);
      && r.active == s.active && r.elapsed == s.elapsed && r.page == s.active
      && r.pending == (if |path| >= 2 then Some(path[|path| - 2]) else s.pending)
    decreases |path|
  {
    if |path| == 1 {
      assert SettlePage(s, path[0]) == s.(page := s.active);
    } else if |path| >= 2 {
      assert Between(s.page, path[1], s.active);
      var t := SettlePage(s, path[0]);
      assert t == s.(page := path[0], pending := Some(path[0]));
      var rest := path[1..];
      assert ScrollPath(t.page, t.active, rest) by {
        forall k | 0 <= k < |rest|
          ensures Between(t.page, rest[k], t.active)
        {
          assert rest[k] == path[k + 1];
          if k > 0 {
            assert rest[k] == path[k + 1] && rest[k - 1] == path[k];
          }
          PathStrictlyMoves(s.page, s.active, path, 0, k + 1);
        }
      }
      ScrollBackToActive(t, rest);
    }
  }

  /** Along a scroll path, a later page lies strictly further on than an earlier one. */
  lemma {:induction false} PathStrictlyMoves(from: nat, to: nat, path: seq<nat>, i: nat, j: nat)
    requires ScrollPath(from, to, path) && i < j < |path|
    ensures from < to ==> path[i] < path[j]
    ensures from > to ==> path[i] > path[j]
    decreases j - i
  {
    if i + 1 < j {
      PathStrictlyMoves(from, to, path, i + 1, j);
    }
  }

  /** "Abandonar y cambiar": the pending crop becomes active from day 0 and the pager animates
      back to it along `path`; a page passed on the way asks again, so the dialog is closed
      afterwards exactly when no page lies between. */
  function Confirm(s: State, path: seq<nat>): (r: State)
    requires Valid(s) && s.pending.Some? && ScrollPath(s.page, s.pending.value, path)
    ensures Valid(r)
    ensures r.active == s.pending.value && r.elapsed == 0 && r.page == r.active
    ensures r.pending == (if |path| >= 2 then Some(path[|path| - 2]) else None)
  {
    var t := State(s.pending.value, 0, s.page, None);
    ScrollBackToActive(t, path);
    Scroll(t, path)
  }

  /** "Cancelar", and dismissing the dialog, which does the same: the dialog closes, the active
      crop is kept and the pager animates back to it along `path`, where a page passed on the way
      asks again. */
  function Cancel(s: State, path: seq<nat>): (r: State)
    requires Valid(s) && s.pending.Some? && ScrollPath(s.page, s.active, path)
    ensures Valid(r) && r.page == s.active
    ensures Remaining(s) > 0 ==> r.active == s.active && r.elapsed == s.elapsed
    ensures Remaining(s) > 0 ==> r.pending == (if |path| >= 2 then Some(path[|path| - 2]) else None)
  {
    var t := s.(pending := None);
    if Remaining(s) > 0 then
      ScrollBackToActive(t, path);
      Scroll(t, path)
    else
      Scroll(t, path)
  }

  datatype Event = Settle(page: nat) | ConfirmTap(path: seq<nat>) | CancelTap(path: seq<nat>) | DismissDialog(path: seq<nat>)

  /** The dialog's buttons exist only while it is shown; the pager has one page per crop, and
      the return animation moves from the current page to the crop it scrolls to. */
  predicate Enabled(s: State, e: Event)
    requires Valid(s)
  {
    match e
    case Settle(i) => i < |Catalog|
    case ConfirmTap(path) => s.pending.Some? && ScrollPath(s.page, s.pending.value, path)
    case CancelTap(path) => s.pending.Some? && ScrollPath(s.page, s.active, path)
    case DismissDialog(path) => s.pending.Some? && ScrollPath(s.page, s.active, path)
  }

  function Step(s: State, e: Event): (r: State)
    requires Valid(s) && Enabled(s, e)
    ensures Valid(r)
  {
    match e
    case Settle(i) => SettlePage(s, i)
    case ConfirmTap(path) => Confirm(s, path)
    case CancelTap(path) => Cancel(s, path)
    case DismissDialog(path) => Cancel(s, path)
  }

  predicate ValidTrace(s: State, es: seq<Event>)
    requires Valid(s)
    decreases |es|
  {
    |es| == 0 || (Enabled(s, es[0]) && ValidTrace(Step(s, es[0]), es[1..]))
  }

  function Run(s: State, es: seq<Event>): (r: State)
    requires Valid(s) && ValidTrace(s, es)
    ensures Valid(r)
    decreases |es|
  {
    if |es| == 0 then s else Run(Step(s, es[0]), es[1..])
  }

  /** The active crop has only ever run zero or twelve days, fewer than any cycle in the
      catalogue, so it always has days left. */
  predicate Unfinished(s: State)
    requires Valid(s)
  {
    (s.elapsed == 0 || s.elapsed == InitialElapsed) && Remaining(s) > 0
  }

  lemma StepKeepsUnfinished(s: State, e: Event)
    requires Valid(s) && Enabled(s, e) && Unfinished(s)
    ensures Unfinished(Step(s, e))
  {
  }

  lemma {:induction false} RunKeepsUnfinished(s: State, es: seq<Event>)
    requires Valid(s) && ValidTrace(s, es) && Unfinished(s)
    ensures Unfinished(Run(s, es))
    decreases |es|
  {
    if |es| > 0 {
      StepKeepsUnfinished(s, es[0]);
      RunKeepsUnfinished(Step(s, es[0]), es[1..]);
    }
  }

  /** From the screen's initial state, turning the pager never switches the crop by itself: the
      switch without confirmation cannot happen, and the crop changes only through the dialog. */
  lemma NoSwitchWithoutConfirmation(es: seq<Event>, i: nat)
    requires ValidTrace(Init(), es) && i < |Catalog|
    ensures var s := Run(Init(), es);
      && SettlePage(s, i).active == s.active
      && SettlePage(s, i).elapsed == s.elapsed
      && (i != s.page && i != s.active ==> SettlePage(s, i).pending == Some(i))
  {
    RunKeepsUnfinished(Init(), es);
  }

  /** A fling from the first crop to the fourth passes the second and third, and cancelling
      animates back past them: the crop is kept, but the dialog is open again, now for the
      second crop. */
  lemma CancelFromFarPageReopens()
    ensures var es := [Settle(1), Settle(2), Settle(3), CancelTap([2, 1, 0])];
      && ValidTrace(Init(), es)
      && Run(Init(), es) == State(0, InitialElapsed, 0, Some(1))
  {
    var es := [Settle(1), Settle(2), Settle(3), CancelTap([2, 1, 0])];
    var s1 := SettlePage(Init(), 1);
    var s2 := SettlePage(s1, 2);
    var s3 := SettlePage(s2, 3);
    assert s3 == State(0, InitialElapsed, 3, Some(3));
    assert ScrollPath(3, 0, [2, 1, 0]);
    assert Cancel(s3, [2, 1, 0]) == State(0, InitialElapsed, 0, Some(1));
    assert es[1..][1..][1..][1..] == [];
  }
}
