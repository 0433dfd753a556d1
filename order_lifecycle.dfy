/**
 * The order lifecycle of OrderService: the fixed transition table, the
 * case-insensitive status-name parse in front of it, and `CanTransition`.
 */
module OrderLifecycle {
  import opened Wrappers
  import opened Text
  import opened Domain

  /** `AllowedTransitions`: each status to the statuses it may move to; terminal states map to []. */
  const AllowedTransitions: map<OrderStatus, seq<OrderStatus>> := map[
    Pending := [Confirmed, Cancelled],
    Confirmed := [Shipped, Cancelled],
    Shipped := [Delivered],
    Delivered := [],
    Cancelled := []]

  /** The lifecycle written out pair by pair, independently of the table. */
  predicate IsLifecycleStep(from: OrderStatus, to: OrderStatus)
  {
    || (from == Pending && to == Confirmed)
    || (from == Pending && to == Cancelled)
    || (from == Confirmed && to == Shipped)
    || (from == Confirmed && to == Cancelled)
    || (from == Shipped && to == Delivered)
  }

  predicate IsTerminal(s: OrderStatus)
  {
    s == Delivered || s == Cancelled
  }

  /**
   * `Enum.TryParse<OrderStatus>(name, ignoreCase: true, ...)` restricted to
   * member names: the status whose name equals `name` ignoring case.
   */
  function ParseStatus(name: string): (r: Option<OrderStatus>)
    ensures r.Some? ==> EqualsIgnoreCase(name, StatusName(r.value))
    ensures r.None? ==> forall s: OrderStatus :: !EqualsIgnoreCase(name, StatusName(s))
  {
    if EqualsIgnoreCase(name, StatusName(Pending)) then Some(Pending)
    else if EqualsIgnoreCase(name, StatusName(Confirmed)) then Some(Confirmed)
    else if EqualsIgnoreCase(name, StatusName(Shipped)) then Some(Shipped)
    else if EqualsIgnoreCase(name, StatusName(Delivered)) then Some(Delivered)
    else if EqualsIgnoreCase(name, StatusName(Cancelled)) then Some(Cancelled)
    else None
  }

  /** `CanTransition(currentStatus, newStatus)`: false, not an error, when either name is unknown. */
  function CanTransition(current: string, target: string): bool
  {
    match (ParseStatus(current), ParseStatus(target))
    case (Some(from), Some(to)) =>
      assert from in AllowedTransitions by { assert from.Pending? || from.Confirmed? || from.Shipped? || from.Delivered? || from.Cancelled?; }
      to in AllowedTransitions[from]
    case _ => false
  }

  /** No two member names are equal ignoring case. */
  lemma StatusNamesDistinct(a: OrderStatus, b: OrderStatus)
    requires a != b
    ensures !EqualsIgnoreCase(StatusName(a), StatusName(b))
  {
    var la, lb := ToLower(StatusName(a)), ToLower(StatusName(b));
    if |la| == |lb| {
      match (a, b)
      case (Pending, Shipped) => assert la[0] != lb[0];
      case (Shipped, Pending) => assert la[0] != lb[0];
      case (Confirmed, Delivered) => assert la[0] != lb[0];
      case (Delivered, Confirmed) => assert la[0] != lb[0];
      case (Confirmed, Cancelled) => assert la[1] != lb[1];
      case (Cancelled, Confirmed) => assert la[1] != lb[1];
      case (Delivered, Cancelled) => assert la[0] != lb[0];
      case (Cancelled, Delivered) => assert la[0] != lb[0];
      case _ =>
    }
  }

  /** A name parses to a status exactly when it equals that status's name ignoring case. */
  lemma {:induction false} ParseStatusExactly(name: string, s: OrderStatus)
    ensures ParseStatus(name) == Some(s) <==> EqualsIgnoreCase(name, StatusName(s))
  {
    if EqualsIgnoreCase(name, StatusName(s)) {
      var r := ParseStatus(name);
      assert r.Some?;
      if r.value != s {
        StatusNamesDistinct(r.value, s);
        assert false;
      }
    }
  }

  /** Parsing a status's own name gives that status back. */
  lemma ParseStatusName(s: OrderStatus)
    ensures ParseStatus(StatusName(s)) == Some(s)
  {
    ParseStatusExactly(StatusName(s), s);
  }

  /** Parsing ignores case. */
  lemma ParseStatusIgnoresCase(a: string, b: string)
    requires EqualsIgnoreCase(a, b)
    ensures ParseStatus(a) == ParseStatus(b)
  {
  }

  /** The table allows exactly the five lifecycle steps. */
  lemma TableMatchesLifecycle(from: OrderStatus, to: OrderStatus)
    ensures from in AllowedTransitions
    ensures to in AllowedTransitions[from] <==> IsLifecycleStep(from, to)
  {
  }

  /** Between member names `CanTransition` is exactly the lifecycle relation. */
  lemma CanTransitionOnNames(from: OrderStatus, to: OrderStatus)
    ensures CanTransition(StatusName(from), StatusName(to)) <==> IsLifecycleStep(from, to)
  {
    ParseStatusName(from);
    ParseStatusName(to);
  }

  /** Two names that denote, ignoring case, statuses one lifecycle step apart are allowed. */
  lemma CanTransitionFromNames(current: string, target: string, from: OrderStatus, to: OrderStatus)
    requires EqualsIgnoreCase(current, StatusName(from)) && EqualsIgnoreCase(target, StatusName(to))
    ensures CanTransition(current, target) <==> IsLifecycleStep(from, to)
  {
    ParseStatusExactly(current, from);
    ParseStatusExactly(target, to);
    TableMatchesLifecycle(from, to);
  }

  /**
   * For arbitrary strings: allowed exactly when the two names denote, ignoring
   * case, two statuses one lifecycle step apart; unknown names are never allowed.
   */
  lemma CanTransitionCharacterized(current: string, target: string)
    ensures CanTransition(current, target) <==>
      exists from: OrderStatus, to: OrderStatus ::
        EqualsIgnoreCase(current, StatusName(from)) && EqualsIgnoreCase(target, StatusName(to)) && IsLifecycleStep(from, to)
  {
    if CanTransition(current, target) {
      var from, to := ParseStatus(current).value, ParseStatus(target).value;
      CanTransitionFromNames(current, target, from, to);
    }
    if exists from: OrderStatus, to: OrderStatus ::
        EqualsIgnoreCase(current, StatusName(from)) && EqualsIgnoreCase(target, StatusName(to)) && IsLifecycleStep(from, to)
    {
      var from: OrderStatus, to: OrderStatus :|
        EqualsIgnoreCase(current, StatusName(from)) && EqualsIgnoreCase(target, StatusName(to)) && IsLifecycleStep(from, to);
      CanTransitionFromNames(current, target, from, to);
    }
  }

  /** From Delivered or Cancelled no target, known or not, is ever allowed. */
  lemma TerminalIsAbsorbing(s: OrderStatus, target: string)
    requires IsTerminal(s)
    ensures !CanTransition(StatusName(s), target)
  {
    ParseStatusName(s);
  }

  /** Every allowed transition raises the enum value, so no status is ever revisited. */
  lemma TransitionsMoveForward(current: string, target: string)
    requires CanTransition(current, target)
    ensures ParseStatus(current).Some? && ParseStatus(target).Some?
    ensures Ordinal(ParseStatus(current).value) < Ordinal(ParseStatus(target).value)
  {
  }

  /** `CanTransition("pending", "CONFIRMED")` holds, and a garbage name is refused. */
  lemma CanTransitionExamples()
    ensures CanTransition("pending", "CONFIRMED")
    ensures !CanTransition("pending", "Pending")
    ensures !CanTransition("Paid", "Shipped")
  {
    assert EqualsIgnoreCase("pending", StatusName(Pending)) by {
      assert ToLower("pending") == ToLower("Pending");
    }
    assert EqualsIgnoreCase("CONFIRMED", StatusName(Confirmed));
    ParseStatusExactly("pending", Pending);
    ParseStatusExactly("CONFIRMED", Confirmed);
    assert !EqualsIgnoreCase("Paid", StatusName(Pending)) by {
      assert |ToLower("Paid")| != |ToLower("Pending")|;
    }
    assert ParseStatus("Paid").None?;
  }
}
