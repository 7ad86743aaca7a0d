/** norduser/process_monitor.go: which of norduserd's calls each member of the nordvpn group gets, and when. */
module Sessions {

  datatype State = NotActive | LoginGUI | LoginText | RunningGUI | RunningText

  /** What the table of logins knows about an active user. */
  type Login = s: State | s.LoginGUI? || s.LoginText? witness LoginGUI

  datatype Action = Enable | Restart | Stop

  /** How one attempt goes: the user's ids are not found, the service refuses, or it works. */
  datatype Outcome = NoIds | Refused | Done

  datatype Call = Call(user: string, action: Action, done: bool)

  /** The service call that a change of state asks for, if any. */
  function Needed(s: State, target: State): seq<Action> {
    match (s, target)
    case (NotActive, LoginGUI) => [Enable]
    case (NotActive, LoginText) => [Enable]
    case (RunningGUI, NotActive) => [Stop]
    case (RunningText, NotActive) => [Stop]
    case (RunningGUI, LoginText) => [Restart]
    case _ => []
  }

  /** The state in which a tracked user ends up if nothing fails. */
  function Goal(target: State): State {
    match target
    case LoginGUI => RunningGUI
    case LoginText => RunningText
    case _ => NotActive
  }

  function Changed(s: State, target: State, outcome: Outcome): State {
    if Needed(s, target) != [] then if outcome == Done then Goal(target) else s
    else if s == RunningText && target == LoginGUI then RunningGUI
    else s
  }

  function Calls(user: string, s: State, target: State, outcome: Outcome): seq<Call> {
    if Needed(s, target) == [] || outcome == NoIds then [] else [Call(user, Needed(s, target)[0], outcome == Done)]
  }

  // ----- logs of calls -----

  function CallsOf(log: seq<Call>, user: string): seq<Call> {
    if log == [] then []
    else CallsOf(log[..|log| - 1], user) + if log[|log| - 1].user == user then [log[|log| - 1]] else []
  }

  /** The actions that worked. */
  function Succeeded(calls: seq<Call>): seq<Action> {
    if calls == [] then []
    else Succeeded(calls[..|calls| - 1]) + if calls[|calls| - 1].done then [calls[|calls| - 1].action] else []
  }

  lemma {:induction false} CallsOfAppend(log: seq<Call>, more: seq<Call>, user: string)
    ensures CallsOf(log + more, user) == CallsOf(log, user) + CallsOf(more, user)
  {
    if more == [] {
      assert log + more == log;
    } else {
      var n := |more| - 1;
      CallsOfAppend(log, more[..n], user);
      assert (log + more)[..|log + more| - 1] == log + more[..n];
    }
  }

  lemma {:induction false} SucceededAppend(calls: seq<Call>, more: seq<Call>)
    ensures Succeeded(calls + more) == Succeeded(calls) + Succeeded(more)
  {
    if more == [] {
      assert calls + more == calls;
    } else {
      var n := |more| - 1;
      SucceededAppend(calls, more[..n]);
      assert (calls + more)[..|calls + more| - 1] == calls + more[..n];
    }
  }

  lemma CallsAre(user: string, s: State, target: State, outcome: Outcome, other: string)
    ensures CallsOf(Calls(user, s, target, outcome), other) ==
            if other == user then Calls(user, s, target, outcome) else []
  {
    var calls := Calls(user, s, target, outcome);
    assert calls != [] ==> calls[..|calls| - 1] == [];
  }

  lemma SucceededCalls(user: string, s: State, target: State, outcome: Outcome)
    ensures Succeeded(Calls(user, s, target, outcome)) == if outcome == Done then Needed(s, target) else []
  {
    var calls := Calls(user, s, target, outcome);
    assert calls != [] ==> calls[..|calls| - 1] == [];
  }

  // ----- sessions -----

  datatype Phase = Closed | Open | Broken

  function Advance(p: Phase, a: Action): Phase {
    match (p, a)
    case (Closed, Enable) => Open
    case (Open, Restart) => Open
    case (Open, Stop) => Closed
    case _ => Broken
  }

  function PhaseOf(actions: seq<Action>): Phase {
    if actions == [] then Closed else Advance(PhaseOf(actions[..|actions| - 1]), actions[|actions| - 1])
  }

  /** Enable Restart* */
  ghost predicate Started(actions: seq<Action>) {
    actions != [] && actions[0] == Enable && forall i :: 0 < i < |actions| ==> actions[i] == Restart
  }

  /** (Enable Restart* Stop)* */
  ghost predicate Complete(actions: seq<Action>)
    decreases |actions|
  {
    actions == [] || (actions[|actions| - 1] == Stop && Running(actions[..|actions| - 1]))
  }

  /** (Enable Restart* Stop)* Enable Restart* */
  ghost predicate Running(actions: seq<Action>)
    decreases |actions|
  {
    exists k :: 0 <= k < |actions| && Complete(actions[..k]) && Started(actions[k..])
  }

  lemma {:induction false} PhaseIsLanguage(actions: seq<Action>)
    ensures PhaseOf(actions) == Closed <==> Complete(actions)
    ensures PhaseOf(actions) == Open <==> Running(actions)
  {
    if actions != [] {
      var n := |actions| - 1;
      PhaseIsLanguage(actions[..n]);
      if Running(actions) {
        RunningShorter(actions);
      } else if actions[n] != Stop && PhaseOf(actions) == Open {
        RunningLonger(actions);
      }
    }
  }

  lemma RunningAt(actions: seq<Action>, k: nat)
    requires k < |actions| && Complete(actions[..k]) && Started(actions[k..])
    ensures Running(actions)
  {
  }

  lemma SplitLast(s: seq<Action>, k: nat)
    requires k < |s|
    ensures s[..|s| - 1][..k] == s[..k] && s[k..] == s[..|s| - 1][k..] + [s[|s| - 1]]
  {
  }

  lemma RunningLonger(actions: seq<Action>)
    requires actions != []
    requires var n := |actions| - 1;
             (actions[n] == Enable && Complete(actions[..n])) || (actions[n] == Restart && Running(actions[..n]))
    ensures Running(actions)
  {
    var n := |actions| - 1;
    if actions[n] == Enable {
      assert actions[n..] == [Enable];
      RunningAt(actions, n);
    } else {
      var k :| 0 <= k < n && Complete(actions[..n][..k]) && Started(actions[..n][k..]);
      SplitLast(actions, k);
      StartedLonger(actions[..n][k..], Restart);
      RunningAt(actions, k);
    }
  }

  lemma RunningShorter(actions: seq<Action>)
    requires actions != [] && Running(actions)
    ensures var n := |actions| - 1;
            (actions[n] == Enable && Complete(actions[..n])) || (actions[n] == Restart && Running(actions[..n]))
  {
    var n := |actions| - 1;
    var k :| 0 <= k < |actions| && Complete(actions[..k]) && Started(actions[k..]);
    if k == n {
      assert actions[k..] == [actions[n]];
    } else {
      RunningShorterAt(actions, k);
    }
  }

  lemma RunningShorterAt(actions: seq<Action>, k: nat)
    requires k < |actions| - 1 && Complete(actions[..k]) && Started(actions[k..])
    ensures actions[|actions| - 1] == Restart && Running(actions[..|actions| - 1])
  {
    var n := |actions| - 1;
    SplitLast(actions, k);
    StartedLonger(actions[..n][k..], actions[n]);
    RunningAt(actions[..n], k);
  }

  lemma StartedLonger(actions: seq<Action>, last: Action)
    requires actions != []
    ensures Started(actions + [last]) <==> Started(actions) && last == Restart
  {
    var all := actions + [last];
    assert all[0] == actions[0] && all[|actions|] == last;
    assert forall i :: 0 < i < |actions| ==> all[i] == actions[i];
  }

  predicate InPhase(s: State, p: Phase) {
    match s
    case NotActive => p == Closed
    case RunningGUI => p == Open
    case RunningText => p == Open
    case _ => false
  }

  /** The state of a tracked user agrees with the calls that worked since tracking began. */
  predicate Agrees(s: State, actions: seq<Action>) {
    InPhase(s, PhaseOf(actions))
  }

  lemma ChangeInPhase(s: State, p: Phase, target: State)
    requires InPhase(s, p)
    ensures Needed(s, target) != [] ==> InPhase(Goal(target), Advance(p, Needed(s, target)[0]))
    ensures forall outcome :: outcome != Done || Needed(s, target) == [] ==> InPhase(Changed(s, target, outcome), p)
  {
  }

  lemma ChangeAgrees(s: State, actions: seq<Action>, user: string, target: State, outcome: Outcome)
    requires Agrees(s, actions)
    ensures Agrees(Changed(s, target, outcome), actions + Succeeded(Calls(user, s, target, outcome)))
  {
    SucceededCalls(user, s, target, outcome);
    ChangeInPhase(s, PhaseOf(actions), target);
    var needed := Needed(s, target);
    if outcome == Done && needed != [] {
      PhaseAppend(actions, needed[0]);
      assert needed == [needed[0]];
    } else {
      assert actions + [] == actions;
    }
  }

  lemma PhaseAppend(actions: seq<Action>, a: Action)
    ensures PhaseOf(actions + [a]) == Advance(PhaseOf(actions), a)
  {
    assert (actions + [a])[..|actions|] == actions;
  }
}
