/** The Aadhaar verification pop-up: the user types a 12-digit number, presses verify, and after
    a simulated check the window reports `{type: 'ABHA_VERIFIED'}` to the window that opened it.
    Time is modelled by the two timer events; whether an opener exists is a parameter. */
module AbhaVerification {
  import opened JsText

  datatype Step = Input | Verifying | Success

  function Rank(s: Step): nat {
    match s
    case Input => 0
    case Verifying => 1
    case Success => 2
  }

  /** The page's state: the current step and the number typed so far. */
  datatype PageState = PageState(step: Step, aadhaar: string)

  /** What can happen to the page: a change of the input text, a press of the verify button,
      the verification timer (2.5 s after entering the verifying step) and the hand-back timer
      (2 s after entering the success step). Input and button exist only in the input step and
      each timer only in its own step, so any other event changes nothing. */
  datatype Event = Typed(text: string) | VerifyPressed | VerifyTimer | HandBackTimer(hasOpener: bool)

  /** The typed text with every non-digit removed, kept only when at most 12 digits remain. */
  function Typed12(current: string, text: string): (r: string)
    requires |current| <= 12 && AllDigits(current)
    ensures |r| <= 12 && AllDigits(r)
    ensures r == DigitsOnly(text) <==> |DigitsOnly(text)| <= 12
    ensures r != DigitsOnly(text) ==> r == current
  {
    var v := DigitsOnly(text);
    if |v| <= 12 then v else current
  }

  /** The input invariant: at most 12 digits, and exactly 12 once the input step is left. */
  predicate Valid(s: PageState) {
    |s.aadhaar| <= 12 && AllDigits(s.aadhaar) && (s.step != Input ==> |s.aadhaar| == 12)
  }

  /** One event: the new state, and whether the verified message was posted to the opener. */
  function Next(s: PageState, e: Event): (r: (PageState, bool))
    requires Valid(s)
    ensures Valid(r.0)
    ensures Rank(s.step) <= Rank(r.0.step) <= Rank(s.step) + 1
    ensures r.0.step == Verifying && s.step == Input <==> e == VerifyPressed && s.step == Input && |s.aadhaar| == 12
    ensures r.0.step != s.step ==> r.0.aadhaar == s.aadhaar
    ensures r.1 <==> s.step == Success && e.HandBackTimer? && e.hasOpener
  {
    match e
    case Typed(text) => if s.step == Input then (s.(aadhaar := Typed12(s.aadhaar, text)), false) else (s, false)
    case VerifyPressed => if s.step == Input && |s.aadhaar| == 12 then (s.(step := Verifying), false) else (s, false)
    case VerifyTimer => if s.step == Verifying then (s.(step := Success), false) else (s, false)
    case HandBackTimer(hasOpener) => (s, s.step == Success && hasOpener)
  }

  const Initial := PageState(Input, "")

  /** The page after a series of events, with the number of messages posted. */
  function Run(s: PageState, events: seq<Event>): (r: (PageState, nat))
    requires Valid(s)
    ensures Valid(r.0)
    decreases |events|
  {
    if events == [] then (s, 0)
    else
      var n := Next(s, events[0]);
      var rest := Run(n.0, events[1..]);
      (rest.0, rest.1 + (if n.1 then 1 else 0))
  }

  /** Along any series of events the step never goes back, and a message is posted only from
      the success step, which is reached only with 12 digits entered. */
  lemma {:induction false} RunOnlyAdvances(s: PageState, events: seq<Event>)
    requires Valid(s)
    ensures Rank(s.step) <= Rank(Run(s, events).0.step)
    ensures Run(s, events).1 > 0 ==> Run(s, events).0.step == Success && |Run(s, events).0.aadhaar| == 12
    ensures s.step == Input && Run(s, events).0.step != Input ==> VerifyPressed in events
    decreases |events|
  {
    if events != [] {
      var n := Next(s, events[0]);
      RunOnlyAdvances(n.0, events[1..]);
      if n.1 {
        assert s.step == Success && n.0.step == Success;
      }
      if s.step == Input && Run(s, events).0.step != Input && n.0.step == Input {
        assert VerifyPressed in events[1..];
      }
    }
  }

  /** From the first render, nothing is posted without the button having been pressed. */
  lemma NoMessageWithoutPress(events: seq<Event>)
    requires VerifyPressed !in events
    ensures Run(Initial, events) == (Initial.(aadhaar := Run(Initial, events).0.aadhaar), 0)
  {
    RunOnlyAdvances(Initial, events);
  }

  /** The page as a component with its two state variables. */
  class VerificationPage {
    var step: Step
    var aadhaar: string

    function State(): PageState
      reads this
    {
      PageState(step, aadhaar)
    }

    constructor ()
      ensures State() == Initial
    {
      step := Input;
      aadhaar := "";
    }

    /** The input's change handler, the button's click handler and the two timers. */
    method Handle(e: Event) returns (posted: bool)
      requires Valid(State())
      modifies this
      ensures Valid(State())
      ensures (State(), posted) == Next(old(State()), e)
    {
      posted := false;
      match e {
        case Typed(text) =>
          if step == Input {
            var v := DigitsOnly(text);
            if |v| <= 12 {
              aadhaar := v;
            }
          }
        case VerifyPressed =>
          if step == Input && |aadhaar| == 12 {
            step := Verifying;
          }
        case VerifyTimer =>
          if step == Verifying {
            step := Success;
          }
        case HandBackTimer(hasOpener) =>
          posted := step == Success && hasOpener;
      }
    }
  }
}
