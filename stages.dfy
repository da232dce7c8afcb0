/**
 * The stage machine of `WebScraper`: its states, its triggers and the
 * transition table built with `auto_transitions=False`.
 */
module Stages {
  import opened Wrappers

  datatype State =
    | Init | LoadingPage | HandlingCookies | WaitingPageLoad
    | ExtractingPublications | ExtractingDetails | Error | Completed

  /** The triggers added to the machine; no automatic `to_<state>` triggers exist. */
  datatype Trigger = Load | HandleCookies | WaitLoad | Extract | GetDetails | Finish | Fail

  /** The states in the order the class lists them. */
  const STATES: seq<State> :=
    [Init, LoadingPage, HandlingCookies, WaitingPageLoad,
     ExtractingPublications, ExtractingDetails, Error, Completed]

  /** The source argument of `add_transition`: `'*'` or a list of states. */
  datatype Sources = Any | From(states: seq<State>)

  datatype Transition = Transition(trigger: Trigger, sources: Sources, dest: State)

  /** The `add_transition` calls, in order; `Fail` is the trigger named `error`. */
  const TABLE: seq<Transition> := [
    Transition(Load, From([Init]), LoadingPage),
    Transition(HandleCookies, From([LoadingPage]), HandlingCookies),
    Transition(WaitLoad, From([HandlingCookies, LoadingPage]), WaitingPageLoad),
    Transition(Extract, From([WaitingPageLoad]), ExtractingPublications),
    Transition(GetDetails, From([ExtractingPublications]), ExtractingDetails),
    Transition(Finish, From([ExtractingDetails]), Completed),
    Transition(Fail, Any, Error)
  ]

  predicate Admits(sources: Sources, s: State)
  {
    match sources
    case Any => true
    case From(states) => s in states
  }

  /** The first transition of `table` for trigger `t` that admits state `s`. */
  function Lookup(table: seq<Transition>, s: State, t: Trigger): Option<State>
  {
    if table == [] then None
    else if table[0].trigger == t && Admits(table[0].sources, s) then Some(table[0].dest)
    else Lookup(table[1..], s, t)
  }

  /** Position of a state in `STATES`. */
  function Rank(s: State): (k: nat)
    ensures k < |STATES| && STATES[k] == s
  {
    match s
    case Init => 0
    case LoadingPage => 1
    case HandlingCookies => 2
    case WaitingPageLoad => 3
    case ExtractingPublications => 4
    case ExtractingDetails => 5
    case Error => 6
    case Completed => 7
  }

  /** The pairs the table lists, written out state by state. */
  predicate Listed(s: State, t: Trigger)
  {
    || t == Fail
    || (t == Load && s == Init)
    || (t == HandleCookies && s == LoadingPage)
    || (t == WaitLoad && (s == HandlingCookies || s == LoadingPage))
    || (t == Extract && s == WaitingPageLoad)
    || (t == GetDetails && s == ExtractingPublications)
    || (t == Finish && s == ExtractingDetails)
  }

  /** `error` has source `'*'`: it is accepted in every state, `Completed` and `Error` included. */
  lemma FailAlwaysAccepted(s: State)
    ensures Step(s, Fail) == Some(Error)
  {
  }

  /** Every trigger has a single destination, whatever state it fires from. */
  function Destination(t: Trigger): State
  {
    match t
    case Load => LoadingPage
    case HandleCookies => HandlingCookies
    case WaitLoad => WaitingPageLoad
    case Extract => ExtractingPublications
    case GetDetails => ExtractingDetails
    case Finish => Completed
    case Fail => Error
  }

  /**
   * Firing trigger `t` in state `s`: the new state, or `None` where the
   * machine raises `MachineError`.
   */
  function Step(s: State, t: Trigger): (r: Option<State>)
    ensures r.Some? ==> r.value == Destination(t) && r.value != Init
    ensures t == Fail ==> r == Some(Error)
  {
    if Listed(s, t) then Some(Destination(t)) else None
  }

  // One lemma per `add_transition` call: the states it accepts the trigger in, and where it goes.

  lemma LoadRow(s: State)
    ensures Lookup(TABLE, s, Load) == if s == Init then Some(LoadingPage) else None
  {
  }

  lemma HandleCookiesRow(s: State)
    ensures Lookup(TABLE, s, HandleCookies) == if s == LoadingPage then Some(HandlingCookies) else None
  {
  }

  lemma WaitLoadRow(s: State)
    ensures Lookup(TABLE, s, WaitLoad) ==
      if s == HandlingCookies || s == LoadingPage then Some(WaitingPageLoad) else None
  {
  }

  lemma ExtractRow(s: State)
    ensures Lookup(TABLE, s, Extract) == if s == WaitingPageLoad then Some(ExtractingPublications) else None
  {
  }

  lemma GetDetailsRow(s: State)
    ensures Lookup(TABLE, s, GetDetails) == if s == ExtractingPublications then Some(ExtractingDetails) else None
  {
  }

  lemma FinishRow(s: State)
    ensures Lookup(TABLE, s, Finish) == if s == ExtractingDetails then Some(Completed) else None
  {
  }

  lemma FailRow(s: State)
    ensures Lookup(TABLE, s, Fail) == Some(Error)
  {
  }

  /** `Step` is the table: the first `add_transition` entry for `t` whose sources admit `s`. */
  lemma StepIsTable(s: State, t: Trigger)
    ensures Step(s, t) == Lookup(TABLE, s, t)
  {
    match t
    case Load => LoadRow(s);
    case HandleCookies => HandleCookiesRow(s);
    case WaitLoad => WaitLoadRow(s);
    case Extract => ExtractRow(s);
    case GetDetails => GetDetailsRow(s);
    case Finish => FinishRow(s);
    case Fail => FailRow(s);
  }

  lemma StepGoesToDestination(s: State, t: Trigger)
    requires Step(s, t).Some?
    ensures Step(s, t) == Some(Destination(t))
    ensures Destination(t) != Init
  {
  }

  /** Every transition other than `error` moves to a later state of `STATES`. */
  lemma StepMovesForward(s: State, t: Trigger)
    requires t != Fail && Step(s, t).Some?
    ensures Rank(s) < Rank(Step(s, t).value)
  {
  }

  /** `Completed` is entered only by `finish` from `ExtractingDetails`. */
  lemma CompletedOnlyByFinish(s: State, t: Trigger)
    ensures Step(s, t) == Some(Completed) <==> s == ExtractingDetails && t == Finish
  {
  }

  /** From `Completed` and `Error` only the `error` trigger is accepted. */
  lemma TerminalStatesOnlyFail(s: State, t: Trigger)
    requires s == Completed || s == Error
    ensures Step(s, t).Some? <==> t == Fail
  {
  }

  /** The trigger that leads into each state other than `init`. */
  function Into(s: State): (t: Trigger)
    requires s != Init
    ensures Destination(t) == s
  {
    match s
    case LoadingPage => Load
    case HandlingCookies => HandleCookies
    case WaitingPageLoad => WaitLoad
    case ExtractingPublications => Extract
    case ExtractingDetails => GetDetails
    case Error => Fail
    case Completed => Finish
  }

  /** No two triggers share a destination. */
  lemma DestinationInjective(t: Trigger, u: Trigger)
    requires Destination(t) == Destination(u)
    ensures t == u
  {
  }

  /** `b` follows `a` by some transition of the table. */
  ghost predicate Edge(a: State, b: State)
  {
    exists t :: Step(a, t) == Some(b)
  }

  /** Each state is entered by a single trigger, so an edge is decided by that trigger. */
  lemma EdgeByInto(a: State, b: State)
    ensures Edge(a, b) <==> b != Init && Step(a, Into(b)) == Some(b)
  {
    if Edge(a, b) {
      var t :| Step(a, t) == Some(b);
      StepGoesToDestination(a, t);
      DestinationInjective(t, Into(b));
    }
    if b != Init && Step(a, Into(b)) == Some(b) {
      assert Step(a, Into(b)) == Some(b);
    }
  }
}
