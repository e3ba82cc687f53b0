/** The clocking rule: which action a user may clock next, given the last
    action on record. The database read of the last clock becomes the
    `lastAction` input: `None` when the user has no clock yet, otherwise the
    action text as stored (in any letter case). */
module Clocking {
  import opened Wrappers
  import opened Strings

  const InAction := "in"
  const PauseAction := "pause"
  const ReturnAction := "return"
  const OutAction := "out"

  /** The actions that may follow each stored action. */
  const WhiteList: map<string, seq<string>> := map[
    InAction := [PauseAction, OutAction],
    PauseAction := [ReturnAction],
    ReturnAction := [PauseAction, OutAction],
    OutAction := [InAction]
  ]

  const NoPreviousClockMessage :=
    "You do not have any previous registration, so the coherent thing is that you sign an entry(`IN`)"

  function RejectionMessage(last: string, action: string): string
  {
    "Your last clock action was `" + Upper(last) + "`, so you can not `" + Upper(action) + "` clock action"
  }

  /** `user_can_clock_this_action`: whether `action` may be clocked, and
      the reason when it may not. A stored action outside the four keys
      makes the source's lookup raise KeyError; it is excluded here. */
  function UserCanClockThisAction(lastAction: Option<string>, action: string): (r: (bool, Option<string>))
    requires lastAction.Some? ==> Lower(lastAction.value) in WhiteList
    ensures r.0 <==> r.1.None?
  {
    if lastAction.None? && action != InAction then (false, Some(NoPreviousClockMessage))
    else if lastAction.None? then (true, None)
    else
      var last := Lower(lastAction.value);
      if action !in WhiteList[last] then (false, Some(RejectionMessage(last, action)))
      else (true, None)
  }

  /** The four actions, as an independent statement of the clocking cycle:
      in, then any number of pause/return rounds, then out. */
  datatype Action = In | Pause | Return | Out

  function Name(a: Action): string
  {
    match a
    case In => InAction
    case Pause => PauseAction
    case Return => ReturnAction
    case Out => OutAction
  }

  /** A user who is working may pause or leave; one on a pause may only
      come back; one who left may only come in. */
  function Successors(a: Action): set<Action>
  {
    match a
    case In => {Pause, Out}
    case Pause => {Return}
    case Return => {Pause, Out}
    case Out => {In}
  }

  /** With no clock on record only `in` is accepted; anything else is
      refused with the message asking for an entry first. */
  lemma NoPreviousClock(action: string)
    ensures UserCanClockThisAction(None, action)
         == if action == InAction then (true, None) else (false, Some(NoPreviousClockMessage))
  {
  }

  /** The white list is exactly the successor relation of the cycle, and the
      letter case of the stored action does not matter. */
  lemma AcceptedIffSuccessor(stored: string, last: Action, action: string)
    requires Lower(stored) == Name(last)
    ensures UserCanClockThisAction(Some(stored), action).0
        <==> exists next :: next in Successors(last) && action == Name(next)
  {
    match last
    case In =>
      AfterInOrReturn(stored, action);
      AcceptedAmong(last, action, Pause, Out);
    case Return =>
      AfterInOrReturn(stored, action);
      AcceptedAmong(last, action, Pause, Out);
    case Pause =>
      AfterPause(stored, action);
      AcceptedAmong(last, action, Return, Return);
    case Out =>
      AfterOut(stored, action);
      AcceptedAmong(last, action, In, In);
  }

  /** An action names a successor exactly when it names one of the two
      listed successors. */
  lemma AcceptedAmong(last: Action, action: string, a: Action, b: Action)
    requires Successors(last) == {a, b}
    ensures (exists next :: next in Successors(last) && action == Name(next)) <==> action == Name(a) || action == Name(b)
  {
    if action == Name(a) {
      assert a in Successors(last);
    } else if action == Name(b) {
      assert b in Successors(last);
    }
  }

  /** After `in` or `return`, exactly `pause` and `out` are accepted. */
  lemma AfterInOrReturn(stored: string, action: string)
    requires Lower(stored) == InAction || Lower(stored) == ReturnAction
    ensures UserCanClockThisAction(Some(stored), action).0 <==> action == PauseAction || action == OutAction
  {
  }

  /** After `pause` only `return` is accepted. */
  lemma AfterPause(stored: string, action: string)
    requires Lower(stored) == PauseAction
    ensures UserCanClockThisAction(Some(stored), action).0 <==> action == ReturnAction
  {
  }

  /** After `out` only `in` is accepted. */
  lemma AfterOut(stored: string, action: string)
    requires Lower(stored) == OutAction
    ensures UserCanClockThisAction(Some(stored), action).0 <==> action == InAction
  {
  }

  /** No action may be clocked twice in a row. */
  lemma NoRepeat(stored: string)
    requires Lower(stored) in WhiteList
    ensures !UserCanClockThisAction(Some(stored), Lower(stored)).0
  {
  }

  /** Two stored texts that differ only in letter case give the same answer. */
  lemma StoredCaseIgnored(a: string, b: string, action: string)
    requires Lower(a) in WhiteList && Lower(a) == Lower(b)
    ensures UserCanClockThisAction(Some(a), action) == UserCanClockThisAction(Some(b), action)
  {
  }

  /** A refusal after a clock names the stored action and the requested one,
      both in upper case. */
  lemma RejectionNamesActions(stored: string, action: string)
    requires Lower(stored) in WhiteList
    requires !UserCanClockThisAction(Some(stored), action).0
    ensures UserCanClockThisAction(Some(stored), action).1
         == Some("Your last clock action was `" + Upper(stored) + "`, so you can not `" + Upper(action) + "` clock action")
  {
    UpperOfLower(stored);
  }
}
