/**
  The period selector of the transaction list: a period type and an offset
  counted in periods back from the current one (0 is the current period, -1
  the one before). The back button is disabled for "all time"; the forward
  button is disabled for "all time" and whenever the offset has reached 0;
  choosing a different type from the drop-down resets the offset to 0. The
  drop-down's handler runs on the browser's change event, which a native
  select fires only when the picked option differs from the current one, so
  picking the current type again does nothing.
 */
module Period {

  datatype PeriodType = Day | Week | Month | Year | All

  /** The pair of state variables the page keeps for the selector. */
  datatype Navigation = Navigation(periodType: PeriodType, offset: int)

  /** A user action on the selector: an arrow click, or picking an option of the drop-down. */
  datatype Event = Back | Forward | Select(choice: PeriodType)

  /** The page opens on the current week. */
  const Initial: Navigation := Navigation(Week, 0)

  /** The back button is enabled unless the type is "all time". */
  predicate BackEnabled(s: Navigation)
  {
    s.periodType != All
  }

  /** The forward button is disabled for "all time" or when the offset is not negative. */
  predicate ForwardEnabled(s: Navigation)
  {
    !(s.periodType == All || s.offset >= 0)
  }

  /** The states the selector can be in: never in the future, and "all time" has no offset. */
  predicate Valid(s: Navigation)
  {
    s.offset <= 0 && (s.periodType == All ==> s.offset == 0)
  }

  /**
    The effect of one action. A click on a disabled button does nothing;
    back and forward move the offset by one period; picking another type sets
    the type and resets the offset, picking the current one changes nothing.
   */
  function Step(s: Navigation, e: Event): (r: Navigation)
    ensures Valid(s) ==> Valid(r)
    ensures e.Select? ==> r.periodType == e.choice
    ensures e.Select? && e.choice != s.periodType ==> r.offset == 0
    ensures e.Select? && e.choice == s.periodType ==> r == s
    ensures !e.Select? ==> r.periodType == s.periodType
    ensures r.offset > s.offset ==> e.Select? || (e == Forward && ForwardEnabled(s))
    ensures r.offset < s.offset ==> e.Select? || (e == Back && BackEnabled(s))
  {
    match e
    case Back => if BackEnabled(s) then s.(offset := s.offset - 1) else s
    case Forward => if ForwardEnabled(s) then s.(offset := s.offset + 1) else s
    case Select(p) => if p != s.periodType then Navigation(p, 0) else s
  }

  /** The state after a sequence of actions, oldest first. */
  function Run(s: Navigation, events: seq<Event>): (r: Navigation)
    ensures Valid(s) ==> Valid(r)
    decreases |events|
  {
    if events == [] then s else Run(Step(s, events[0]), events[1..])
  }

  /** `n` clicks on the back button. */
  function Backs(n: nat): (r: seq<Event>)
    ensures |r| == n && forall i :: 0 <= i < n ==> r[i] == Back
  {
    if n == 0 then [] else [Back] + Backs(n - 1)
  }

  /** From the current period of a type other than "all time", `n` back clicks go `n` periods back. */
  lemma {:induction false} RunBacks(p: PeriodType, k: int, n: nat)
    requires p != All
    ensures Run(Navigation(p, k), Backs(n)) == Navigation(p, k - n)
    decreases n
  {
    if n > 0 {
      assert Backs(n)[1..] == Backs(n - 1);
      RunBacks(p, k - 1, n - 1);
    }
  }

  /**
    Every valid state is reached from the initial one: choose its type, then
    go back as many periods as its offset says. So `Valid` describes the
    reachable states exactly, together with `Run` preserving it.
   */
  lemma Reachable(target: Navigation)
    requires Valid(target)
    ensures Run(Initial, [Select(target.periodType)] + Backs(-target.offset)) == target
  {
    var events := [Select(target.periodType)] + Backs(-target.offset);
    assert events[1..] == Backs(-target.offset);
    if target.periodType != All {
      RunBacks(target.periodType, 0, -target.offset);
    } else {
      assert Backs(0) == [];
    }
  }

  /** Forward undoes back in every valid state where back is enabled. */
  lemma ForwardUndoesBack(s: Navigation)
    requires Valid(s) && BackEnabled(s)
    ensures ForwardEnabled(Step(s, Back)) && Step(Step(s, Back), Forward) == s
  {
  }

  /** "All time" is a fixed point of both arrow buttons. */
  lemma AllIgnoresArrows(s: Navigation, events: seq<Event>)
    requires s.periodType == All
    requires forall i :: 0 <= i < |events| ==> !events[i].Select?
    ensures Run(s, events) == s
  {
    if events != [] {
      AllIgnoresArrows(Step(s, events[0]), events[1..]);
    }
  }

  /** The selector's state on the page, changed by the button and drop-down handlers. */
  class Navigator {
    var periodType: PeriodType
    var periodOffset: int

    function State(): Navigation
      reads this
    {
      Navigation(periodType, periodOffset)
    }

    constructor ()
      ensures State() == Initial
    {
      periodType := Week;
      periodOffset := 0;
    }

    /** The back button: a click counts only when the button is enabled. */
    method ClickBack()
      modifies this
      ensures State() == Step(old(State()), Back)
      ensures old(BackEnabled(State())) ==> periodOffset == old(periodOffset) - 1
    {
      if BackEnabled(State()) {
        periodOffset := periodOffset - 1;
      }
    }

    /** The forward button: a click counts only when the button is enabled. */
    method ClickForward()
      modifies this
      ensures State() == Step(old(State()), Forward)
      ensures old(ForwardEnabled(State())) ==> periodOffset == old(periodOffset) + 1
    {
      if ForwardEnabled(State()) {
        periodOffset := periodOffset + 1;
      }
    }

    /**
      Picking option `p` of the drop-down. The change handler, which stores
      the type and then resets the offset, runs only when `p` differs from the
      current type.
     */
    method ChooseType(p: PeriodType)
      modifies this
      ensures State() == Step(old(State()), Select(p))
      ensures periodType == p
      ensures p != old(periodType) ==> periodOffset == 0
      ensures p == old(periodType) ==> periodOffset == old(periodOffset)
    {
      if p != periodType {
        periodType := p;
        periodOffset := 0;
      }
    }
  }
}
