/**
 The life of the bulk transfers of rtlsdr_read_async. What libusb and the other
 threads do is an explicit list: which transfer lands with which status and
 whether its resubmission is accepted, when cancellation is asked for, and what
 becomes of each submission and each cancellation.
 */
module AsyncTransfers {
  import opened Outcomes

  datatype Status = Completed | Error | TimedOut | Cancelled | Stall | NoDevice | Overflow

  datatype AsyncStatus = Inactive | Canceling | Running

  /** A transfer: whether libusb holds it, and the status of its last completion. */
  datatype Transfer = Transfer(inFlight: bool, status: Status)

  /** What happens while events are handled; only a transfer that libusb holds can land. */
  datatype Event =
    | CancelRequest
    | Landing(i: nat, status: Status, accepted: bool)

  /** The answer to one cancellation, and the events handled after it. */
  datatype Answer = Answer(accepted: bool, events: seq<Event>)

  datatype EventResult = Handling | Interrupted | Failed

  /** One turn of the loop of rtlsdr_read_async. */
  datatype Round = Round(events: seq<Event>, result: EventResult, answers: seq<Answer>, last: seq<Event>)

  datatype Exit =
    | NotInactive    // refused: a stream is already running
    | Stopped        // left by next_status = INACTIVE
    | Lost           // left because the device is gone while transfers were being cancelled
    | EventError     // left on an error of the event handling
    | StillRunning   // the observed rounds are over and the loop goes on

  datatype Stream = Stream(xfers: seq<Transfer>, status: AsyncStatus, cancel: bool, lost: bool, errors: nat)

  // ----- what the calls do to the stream

  function Requested(s: Stream): Stream {
    if s.status == Running then s.(status := Canceling, cancel := true) else s
  }

  /** Transfer i lands: only COMPLETED submits it again, NO_DEVICE or one error per transfer loses the device. */
  function Landed(s: Stream, i: nat, status: Status, accepted: bool): Stream
    requires i < |s.xfers|
  {
    var t := s.(xfers := s.xfers[i := Transfer(status == Completed && accepted, status)]);
    if status == Completed then t.(errors := 0)
    else if status == Cancelled then t
    else
      var errors := s.errors + if status == Error then 1 else 0;
      if errors >= |s.xfers| || status == NoDevice then Requested(t.(errors := errors, lost := true))
      else t.(errors := errors)
  }

  /** One event; the landing of a transfer that is not in flight cannot happen. */
  function Stepped(s: Stream, e: Event): (t: Stream)
    ensures |t.xfers| == |s.xfers|
  {
    if e.CancelRequest? then Requested(s)
    else if e.i < |s.xfers| && s.xfers[e.i].inFlight then Landed(s, e.i, e.status, e.accepted)
    else s
  }

  function Handled(s: Stream, events: seq<Event>): (t: Stream)
    ensures |t.xfers| == |s.xfers|
    decreases |events|
  {
    if events == [] then s else Handled(Stepped(s, events[0]), events[1..])
  }

  /** An answer that is not listed accepts the cancellation. */
  function AnswerTo(answers: seq<Answer>, i: nat): Answer {
    if i < |answers| then answers[i] else Answer(true, [])
  }

  /** The rest of one round of cancelling, from transfer i on, and the state it says to go to. */
  function Passed(s: Stream, i: nat, next: AsyncStatus, answers: seq<Answer>): (p: (Stream, AsyncStatus))
    ensures |p.0.xfers| == |s.xfers|
    decreases |s.xfers| - i
  {
    if i >= |s.xfers| then (s, next)
    else if s.xfers[i].status == Cancelled then Passed(s, i + 1, next, answers)
    else
      var a := AnswerTo(answers, i);
      Passed(Handled(s, a.events), i + 1, if a.accepted then Canceling else next, answers)
  }

  datatype Result = Result(exit: Exit, next: AsyncStatus, stream: Stream, used: nat)

  /** The loop of rtlsdr_read_async over the observed rounds: how it ends, and after how many of them. */
  function Observed(s: Stream, next: AsyncStatus, rounds: seq<Round>, used: nat): Result
    requires used <= |rounds|
    decreases |rounds| - used
  {
    if used == |rounds| then Result(StillRunning, next, s, used)
    else
      var r := rounds[used];
      var h := Handled(s, r.events);
      if r.result == Interrupted || (r.result == Handling && h.status != Canceling) then
        Observed(h, next, rounds, used + 1)
      else if r.result == Failed then Result(EventError, next, h, used + 1)
      else
        var p := Passed(h, 0, Inactive, r.answers);
        if p.0.lost || p.1 == Inactive then
          Result(if p.1 == Inactive then Stopped else Lost, p.1, Handled(p.0, r.last), used + 1)
        else Observed(p.0, p.1, rounds, used + 1)
  }

  // ----- what every list of events keeps

  ghost predicate Sound(s: Stream) {
    forall i | 0 <= i < |s.xfers| :: s.xfers[i].status == Cancelled ==> !s.xfers[i].inFlight
  }

  /** Nothing was put in flight that was not there before, and cancelling is never taken back. */
  ghost predicate OnlyLands(s: Stream, t: Stream) {
    |t.xfers| == |s.xfers| &&
    (forall i | 0 <= i < |s.xfers| && t.xfers[i].inFlight :: s.xfers[i].inFlight) &&
    (s.lost ==> t.lost) &&
    (t.status == s.status || (s.status == Running && t.status == Canceling))
  }

  lemma {:induction false} SteppedLands(s: Stream, e: Event)
    requires Sound(s)
    ensures Sound(Stepped(s, e)) && OnlyLands(s, Stepped(s, e))
  {
    hide Landed;
    if e.Landing? && e.i < |s.xfers| && s.xfers[e.i].inFlight {
      hide Sound, OnlyLands;
      LandedLands(s, e.i, e.status, e.accepted);
    }
  }

  lemma {:induction false} LandedLands(s: Stream, i: nat, status: Status, accepted: bool)
    requires Sound(s) && i < |s.xfers| && s.xfers[i].inFlight
    ensures Sound(Landed(s, i, status, accepted)) && OnlyLands(s, Landed(s, i, status, accepted))
  {
    var x := s.xfers[i := Transfer(status == Completed && accepted, status)];
    assert Landed(s, i, status, accepted).xfers == x;
  }

  lemma {:induction false} HandledLands(s: Stream, events: seq<Event>)
    requires Sound(s)
    ensures Sound(Handled(s, events)) && OnlyLands(s, Handled(s, events))
    decreases |events|
  {
    hide Stepped, Sound;
    if events != [] {
      var e := events[0];
      SteppedLands(s, e);
      HandledLands(Stepped(s, e), events[1..]);
    }
  }

  /** A landing that leaves transfer i out of flight. */
  predicate Ends(e: Event, i: nat) {
    e.Landing? && e.i == i && !(e.status == Completed && e.accepted)
  }

  predicate NeverEnds(events: seq<Event>, i: nat) {
    forall k | 0 <= k < |events| :: !Ends(events[k], i)
  }

  /** libusb holds a transfer exactly if it did before and every landing was COMPLETED and accepted again. */
  lemma {:induction false} InFlightIff(s: Stream, events: seq<Event>, i: nat)
    requires i < |s.xfers|
    ensures Handled(s, events).xfers[i].inFlight
            <==> s.xfers[i].inFlight && NeverEnds(events, i)
    decreases |events|
  {
    if events != [] {
      var e := events[0];
      var t := Stepped(s, e);
      InFlightIff(t, events[1..], i);
      assert forall k | 0 <= k < |events| :: events[k] == if k == 0 then e else events[1..][k - 1];
      assert forall k | 0 <= k < |events[1..]| :: events[1..][k] == events[k + 1];
    }
  }

  lemma {:induction false} HandledStep(s: Stream, events: seq<Event>, k: nat)
    requires k < |events|
    ensures Handled(s, events[k..]) == Handled(Stepped(s, events[k]), events[k + 1..])
  {
    hide Stepped;
    assert events[k..][1..] == events[k + 1..];
  }

  lemma {:induction false} OneEvent(s: Stream, e: Event)
    ensures Handled(s, [e]) == Stepped(s, e)
  {
    hide Stepped;
    assert [e][1..] == [];
  }

  lemma {:induction false} LandedTwice(s: Stream, i: nat, status: Status, accepted: bool)
    requires i < |s.xfers|
    ensures Landed(s.(xfers := s.xfers[i := Transfer(false, status)]), i, status, accepted)
         == Landed(s, i, status, accepted)
  {
    var t := Transfer(status == Completed && accepted, status);
    assert s.xfers[i := Transfer(false, status)][i := t] == s.xfers[i := t];
  }

  function InFlight(xfers: seq<Transfer>): nat {
    if xfers == [] then 0 else InFlight(xfers[..|xfers| - 1]) + if xfers[|xfers| - 1].inFlight then 1 else 0
  }

  lemma {:induction false} InFlightUpdate(xfers: seq<Transfer>, i: nat, t: Transfer)
    requires i < |xfers|
    ensures InFlight(xfers[i := t]) + (if xfers[i].inFlight then 1 else 0)
         == InFlight(xfers) + if t.inFlight then 1 else 0
  {
    var n := |xfers| - 1;
    if i == n {
      assert xfers[i := t][..n] == xfers[..n];
    } else {
      assert xfers[i := t][..n] == xfers[..n][i := t];
      InFlightUpdate(xfers[..n], i, t);
    }
  }

  lemma {:induction false} SomeInFlight(xfers: seq<Transfer>) returns (i: nat)
    requires InFlight(xfers) > 0
    ensures i < |xfers| && xfers[i].inFlight
  {
    var n := |xfers| - 1;
    if xfers[n].inFlight {
      i := n;
    } else {
      i := SomeInFlight(xfers[..n]);
    }
  }

  lemma {:induction false} InFlightPositive(xfers: seq<Transfer>, i: nat)
    requires i < |xfers| && xfers[i].inFlight
    ensures InFlight(xfers) > 0
  {
    var n := |xfers| - 1;
    if i < n {
      InFlightPositive(xfers[..n], i);
    }
  }

  predicate NoneGone(events: seq<Event>) {
    forall k | 0 <= k < |events| :: events[k].Landing? ==> events[k].status != NoDevice
  }

  /** Whether errors can still add up to one per transfer: each takes a transfer out of flight for good. */
  predicate Losable(s: Stream) {
    InFlight(s.xfers) > 0 && s.errors + InFlight(s.xfers) >= |s.xfers|
  }

  lemma {:induction false} LandedLosable(s: Stream, i: nat, status: Status, accepted: bool)
    requires i < |s.xfers| && s.xfers[i].inFlight && status != NoDevice && !s.lost && !Losable(s)
    ensures var t := Landed(s, i, status, accepted); !t.lost && !Losable(t)
  {
    InFlightPositive(s.xfers, i);
    InFlightUpdate(s.xfers, i, Transfer(status == Completed && accepted, status));
  }

  lemma {:induction false} NeverLost(s: Stream, events: seq<Event>)
    requires !s.lost && !Losable(s) && NoneGone(events)
    ensures !Handled(s, events).lost
    decreases |events|
  {
    hide InFlight;
    if events != [] {
      var e := events[0];
      assert NoneGone(events[1..]);
      if e.Landing? && e.i < |s.xfers| && s.xfers[e.i].inFlight {
        LandedLosable(s, e.i, e.status, e.accepted);
      }
      NeverLost(Stepped(s, e), events[1..]);
    }
  }

  lemma {:induction false} HandledLost(s: Stream, events: seq<Event>)
    requires s.lost
    ensures Handled(s, events).lost
    decreases |events|
  {
    if events != [] {
      var e := events[0];
      HandledLost(Stepped(s, e), events[1..]);
    }
  }

  /** Landing one transfer after the other with ERROR. */
  lemma {:induction false} ErrorsLose(s: Stream) returns (events: seq<Event>)
    requires !s.lost && Losable(s)
    ensures NoneGone(events) && Handled(s, events).lost
    decreases InFlight(s.xfers)
  {
    var i := SomeInFlight(s.xfers);
    var e := Landing(i, Error, false);
    var t := Landed(s, i, Error, false);
    InFlightUpdate(s.xfers, i, Transfer(false, Error));
    var rest: seq<Event> := [];
    if t.lost {
      HandledLost(t, rest);
    } else {
      rest := ErrorsLose(t);
    }
    events := [e] + rest;
    assert events[1..] == rest;
  }

  /**
   Short of NO_DEVICE, the device can still be declared lost exactly while the errors counted and the transfers in
   flight are together one per transfer. An errored transfer stays out of flight and a completed one resets the
   count, so after an error and a completion the stream can dry up unnoticed.
   */
  lemma {:induction false} LosableIff(s: Stream)
    requires !s.lost
    ensures Losable(s) <==> exists events: seq<Event> :: NoneGone(events) && Handled(s, events).lost
  {
    if Losable(s) {
      var events := ErrorsLose(s);
    } else {
      forall events: seq<Event> | NoneGone(events)
        ensures !Handled(s, events).lost
      {
        NeverLost(s, events);
      }
    }
  }

  /** A stream without a transfer in flight that nobody cancels stays as it is: no data, no error, no end. */
  lemma {:induction false} DryForever(s: Stream, events: seq<Event>)
    requires InFlight(s.xfers) == 0
    requires forall k | 0 <= k < |events| :: events[k].Landing?
    ensures Handled(s, events) == s
    decreases |events|
  {
    if events != [] {
      var e := events[0];
      if e.i < |s.xfers| && s.xfers[e.i].inFlight {
        InFlightPositive(s.xfers, e.i);
      }
      DryForever(s, events[1..]);
    }
  }

  /** Two transfers, one failing before and one after a buffer that arrives: running, not lost, and dry. */
  lemma {:induction false} RunsDry()
    ensures var s := Stream([Transfer(true, Completed), Transfer(true, Completed)], Running, false, false, 0);
            Handled(s, [Landing(0, Error, true), Landing(1, Completed, true), Landing(1, Error, true)])
              == s.(xfers := [Transfer(false, Error), Transfer(false, Error)], errors := 1)
  {
    var s := Stream([Transfer(true, Completed), Transfer(true, Completed)], Running, false, false, 0);
    var e := [Landing(0, Error, true), Landing(1, Completed, true), Landing(1, Error, true)];
    assert e[1..] == [Landing(1, Completed, true), Landing(1, Error, true)];
    assert e[1..][1..] == [Landing(1, Error, true)];
    assert e[1..][1..][1..] == [];
    var t := Landed(s, 0, Error, true);
    assert t == s.(xfers := [Transfer(false, Error), Transfer(true, Completed)], errors := 1);
    assert Landed(t, 1, Completed, true) == t.(errors := 0);
  }

  // ----- a pass of cancellations

  lemma {:induction false} PassLands(s: Stream, i: nat, next: AsyncStatus, answers: seq<Answer>)
    requires Sound(s)
    ensures var t := Passed(s, i, next, answers).0; Sound(t) && OnlyLands(s, t)
    decreases |s.xfers| - i
  {
    if i < |s.xfers| {
      if s.xfers[i].status == Cancelled {
        PassLands(s, i + 1, next, answers);
      } else {
        var a := AnswerTo(answers, i);
        HandledLands(s, a.events);
        PassLands(Handled(s, a.events), i + 1, if a.accepted then Canceling else next, answers);
      }
    }
  }

  /** Once a cancellation is accepted the pass says CANCELING. */
  lemma {:induction false} NextStays(s: Stream, i: nat, next: AsyncStatus, answers: seq<Answer>)
    requires next != Running
    ensures var r := Passed(s, i, next, answers).1;
            (r == Inactive || r == Canceling) && (next == Canceling ==> r == Canceling)
    decreases |s.xfers| - i
  {
    hide Handled, AnswerTo;
    if i < |s.xfers| {
      if s.xfers[i].status == Cancelled {
        NextStays(s, i + 1, next, answers);
      } else {
        var a := AnswerTo(answers, i);
        NextStays(Handled(s, a.events), i + 1, if a.accepted then Canceling else next, answers);
      }
    }
  }

  /** A pass that says INACTIVE leaves in flight only transfers whose cancellation was refused. */
  lemma {:induction false} PassRefused(s: Stream, i: nat, next: AsyncStatus, answers: seq<Answer>, j: nat)
    requires Sound(s) && i <= j < |s.xfers| && next != Running
    ensures var p := Passed(s, i, next, answers);
            p.1 == Inactive && p.0.xfers[j].inFlight ==> !AnswerTo(answers, j).accepted
    decreases |s.xfers| - i
  {
    hide Handled, AnswerTo;
    if s.xfers[i].status == Cancelled {
      if i < j {
        PassRefused(s, i + 1, next, answers, j);
      } else {
        PassLands(s, i, next, answers);
      }
    } else {
      var a := AnswerTo(answers, i);
      var t := Handled(s, a.events);
      HandledLands(s, a.events);
      if i < j {
        PassRefused(t, i + 1, if a.accepted then Canceling else next, answers, j);
      } else if a.accepted {
        NextStays(t, i + 1, Canceling, answers);
      }
    }
  }

  /** A running stream is being cancelled after some events exactly if one asked for it or the device was lost. */
  lemma {:induction false} CancelingIff(s: Stream, events: seq<Event>)
    requires s.status == Running && !s.lost
    ensures Handled(s, events).status == Running || Handled(s, events).status == Canceling
    ensures Handled(s, events).status == Canceling <==> CancelRequest in events || Handled(s, events).lost
    decreases |events|
  {
    if events != [] {
      var e := events[0];
      assert events == [e] + events[1..];
      var t := Stepped(s, e);
      if t.status == Running {
        CancelingIff(t, events[1..]);
      } else {
        StaysCanceling(t, events[1..]);
        if t.lost {
          HandledLost(t, events[1..]);
        }
      }
    }
  }

  lemma {:induction false} StaysCanceling(s: Stream, events: seq<Event>)
    requires s.status == Canceling
    ensures Handled(s, events).status == Canceling
    decreases |events|
  {
    if events != [] {
      var e := events[0];
      StaysCanceling(Stepped(s, e), events[1..]);
    }
  }

  // ----- the loop

  /** After a stop whatever is still pending had its cancellation refused in the last round and has not landed since. */
  lemma {:induction false} StoppedPending(s: Stream, next: AsyncStatus, rounds: seq<Round>, used: nat, j: nat)
    requires Sound(s) && used <= |rounds| && j < |s.xfers|
    ensures var r := Observed(s, next, rounds, used);
            used <= r.used <= |rounds| && r.exit != NotInactive && |r.stream.xfers| == |s.xfers| &&
            (r.exit == StillRunning ==> r.used == |rounds|) &&
            (r.exit == EventError <==> used < r.used && rounds[r.used - 1].result == Failed) &&
            (r.exit == Stopped ==> used < r.used && r.next == Inactive) &&
            (r.exit == Lost ==> r.stream.lost && r.next == Canceling) &&
            (r.exit == Stopped || r.exit == Lost ==>
              used < r.used &&
              (r.stream.xfers[j].inFlight ==> NeverEnds(rounds[r.used - 1].last, j))) &&
            (r.exit == Stopped && r.stream.xfers[j].inFlight ==>
              !AnswerTo(rounds[r.used - 1].answers, j).accepted)
    decreases |rounds| - used
  {
    hide Handled, Passed, AnswerTo, Sound, NeverEnds;
    if used < |rounds| {
      var r := rounds[used];
      var h := Handled(s, r.events);
      HandledLands(s, r.events);
      if r.result == Interrupted || (r.result == Handling && h.status != Canceling) {
        StoppedPending(h, next, rounds, used + 1, j);
      } else if r.result == Handling {
        var p := Passed(h, 0, Inactive, r.answers);
        PassLands(h, 0, Inactive, r.answers);
        PassRefused(h, 0, Inactive, r.answers, j);
        NextStays(h, 0, Inactive, r.answers);
        if p.0.lost || p.1 == Inactive {
          HandledLands(p.0, r.last);
          InFlightIff(p.0, r.last, j);
        } else {
          StoppedPending(p.0, p.1, rounds, used + 1, j);
        }
      }
    }
  }

  /** While nobody cancels and every buffer that lands is complete and taken back, streaming goes on. */
  lemma {:induction false} StreamingGoesOn(s: Stream, next: AsyncStatus, rounds: seq<Round>, used: nat)
    requires used <= |rounds| && s.status == Running && !s.lost && s.errors < |s.xfers|
    requires forall k | used <= k < |rounds| :: rounds[k].result != Failed && Fine(rounds[k].events)
    ensures var r := Observed(s, next, rounds, used);
            r.exit == StillRunning && r.stream.status == Running && !r.stream.lost &&
            InFlight(r.stream.xfers) == InFlight(s.xfers)
    decreases |rounds| - used
  {
    if used < |rounds| {
      FineKeeps(s, rounds[used].events);
      StreamingGoesOn(Handled(s, rounds[used].events), next, rounds, used + 1);
    }
  }

  predicate Fine(events: seq<Event>) {
    forall k | 0 <= k < |events| :: events[k].Landing? && events[k].status == Completed && events[k].accepted
  }

  lemma {:induction false} FineKeeps(s: Stream, events: seq<Event>)
    requires Fine(events) && !s.lost && s.errors < |s.xfers|
    ensures var t := Handled(s, events);
            t.status == s.status && !t.lost && t.errors <= s.errors && InFlight(t.xfers) == InFlight(s.xfers)
    decreases |events|
  {
    if events != [] {
      var e := events[0];
      assert Fine(events[1..]);
      if e.i < |s.xfers| && s.xfers[e.i].inFlight {
        InFlightUpdate(s.xfers, e.i, Transfer(true, Completed));
      }
      FineKeeps(Stepped(s, e), events[1..]);
    }
  }

  /** What libusb promises: it cancels what it holds, which then lands as cancelled, and refuses anything else. */
  ghost predicate Obliging(s: Stream, answers: seq<Answer>) {
    forall i | 0 <= i < |s.xfers| ::
      AnswerTo(answers, i) == if s.xfers[i].inFlight then Answer(true, [Landing(i, Cancelled, false)])
                              else Answer(false, [])
  }

  ghost predicate Dry(s: Stream) {
    forall i | 0 <= i < |s.xfers| :: !s.xfers[i].inFlight
  }

  lemma {:induction false} ObligingPass(s: Stream, i: nat, next: AsyncStatus, answers: seq<Answer>)
    requires Sound(s) && i <= |s.xfers| && next != Running
    requires forall j | 0 <= j < i :: !s.xfers[j].inFlight
    requires forall j | i <= j < |s.xfers| ::
               AnswerTo(answers, j) == if s.xfers[j].inFlight then Answer(true, [Landing(j, Cancelled, false)])
                                       else Answer(false, [])
    ensures var p := Passed(s, i, next, answers);
            Dry(p.0) && Sound(p.0) && p.0.status == s.status && p.0.lost == s.lost &&
            (p.1 == Inactive || p.1 == Canceling) &&
            (Dry(s) ==> p.1 == next)
    decreases |s.xfers| - i
  {
    if i < |s.xfers| {
      if s.xfers[i].status == Cancelled {
        ObligingPass(s, i + 1, next, answers);
      } else {
        var a := AnswerTo(answers, i);
        var t := Handled(s, a.events);
        if s.xfers[i].inFlight {
          OneEvent(s, Landing(i, Cancelled, false));
        }
        ObligingPass(t, i + 1, if a.accepted then Canceling else next, answers);
      }
    }
  }

  lemma {:induction false} DryKeeps(s: Stream, events: seq<Event>)
    requires Dry(s) && s.status == Canceling
    ensures Handled(s, events) == s
    decreases |events|
  {
    if events != [] {
      DryKeeps(s, events[1..]);
    }
  }

  /** A cancelled stream ends within two rounds in which libusb cancels what it holds, and nothing stays pending. */
  lemma {:induction false} CancelEnds(s: Stream, next: AsyncStatus, rounds: seq<Round>, used: nat)
    requires Sound(s) && s.status == Canceling && used + 2 <= |rounds|
    requires rounds[used].result == Handling && rounds[used + 1].result == Handling
    requires var h := Handled(s, rounds[used].events);
             Obliging(h, rounds[used].answers) &&
             Obliging(Passed(h, 0, Inactive, rounds[used].answers).0, rounds[used + 1].answers)
    ensures var r := Observed(s, next, rounds, used);
            r.used <= used + 2 && (r.exit == Stopped || (r.exit == Lost && r.stream.lost)) && Dry(r.stream)
  {
    var r, q := rounds[used], rounds[used + 1];
    var h := Handled(s, r.events);
    HandledLands(s, r.events);
    StaysCanceling(s, r.events);
    ObligingPass(h, 0, Inactive, r.answers);
    var p := Passed(h, 0, Inactive, r.answers);
    DryKeeps(p.0, r.last);
    DryKeeps(p.0, q.events);
    ObligingPass(p.0, 0, Inactive, q.answers);
    var p2 := Passed(p.0, 0, Inactive, q.answers);
    DryKeeps(p2.0, q.last);
  }

  // ----- the device

  /** All transfers are handed over until one is refused. */
  function Submitted(n: nat, script: Script): (k: nat)
    ensures k <= n
    ensures forall j | 0 <= j < k && j < |script| :: script[j]
    ensures k < n ==> k < |script| && !script[k]
  {
    if n == 0 || !Head(script) then 0 else 1 + Submitted(n - 1, Tail(script))
  }

  /** rtlsdr_read_async as a whole: n transfers, of which the first ones are handed to libusb, then the loop. */
  function Read(n: nat, lost: bool, errors: nat, script: Script, rounds: seq<Round>): Result {
    Observed(Started(n, lost, errors, script), Inactive, rounds, 0)
  }

  function Started(n: nat, lost: bool, errors: nat, script: Script): (s: Stream)
    ensures Sound(s) && |s.xfers| == n
  {
    var k := Submitted(n, script);
    Stream(seq(n, i => Transfer(i < k, Completed)), if k == n then Running else Canceling, false, lost, errors)
  }

  lemma {:induction false} ReadPending(n: nat, lost: bool, errors: nat, script: Script, rounds: seq<Round>)
    requires n > 0
    ensures var r := Read(n, lost, errors, script, rounds);
            r.used <= |rounds| && r.exit != NotInactive &&
            (r.exit == Lost ==> r.stream.lost && r.next == Canceling) &&
            (r.exit == Stopped ==>
               r.used > 0 && r.next == Inactive &&
               forall j: nat | j < |r.stream.xfers| && r.stream.xfers[j].inFlight ::
                 !AnswerTo(rounds[r.used - 1].answers, j).accepted)
  {
    hide Observed, AnswerTo, Started;
    var s := Started(n, lost, errors, script);
    var r := Observed(s, Inactive, rounds, 0);
    StoppedPending(s, Inactive, rounds, 0, 0);
    forall j: nat | r.exit == Stopped && j < |r.stream.xfers| && r.stream.xfers[j].inFlight
      ensures !AnswerTo(rounds[r.used - 1].answers, j).accepted
    {
      StoppedPending(s, Inactive, rounds, 0, j);
    }
  }

  class Device {
    var xfers: seq<Transfer>
    var asyncStatus: AsyncStatus
    var asyncCancel: bool
    var devLost: bool
    var xferErrors: nat

    function State(): Stream
      reads this
    {
      Stream(xfers, asyncStatus, asyncCancel, devLost, xferErrors)
    }

    constructor ()
      ensures State() == Stream([], Inactive, false, false, 0)
    {
      xfers, asyncStatus, asyncCancel, devLost, xferErrors := [], Inactive, false, false, 0;
    }

    /** rtlsdr_cancel_async: graceful, and only while running. */
    method CancelAsync() returns (r: int)
      modifies this`asyncStatus, this`asyncCancel
      ensures r == if old(asyncStatus) == Running then 0 else -2
      ensures asyncStatus == if old(asyncStatus) == Running then Canceling else old(asyncStatus)
      ensures asyncCancel == (old(asyncCancel) || old(asyncStatus) == Running)
    {
      if asyncStatus == Running {
        asyncStatus := Canceling;
        asyncCancel := true;
        return 0;
      }
      return -2;
    }

    /** _libusb_callback for transfer i, which has just landed; libusb accepts a resubmission or does not. */
    method Callback(i: nat, accepted: bool)
      requires i < |xfers| && !xfers[i].inFlight
      modifies this
      ensures xfers == old(xfers)[i := Transfer(old(xfers)[i].status == Completed && accepted, old(xfers)[i].status)]
      ensures xferErrors == match old(xfers)[i].status
                            case Completed => 0
                            case Error => old(xferErrors) + 1
                            case _ => old(xferErrors)
      ensures devLost <==> old(devLost) || old(xfers)[i].status == NoDevice
                           || (xferErrors >= |xfers| && old(xfers)[i].status !in {Completed, Cancelled})
      ensures devLost && !old(devLost) ==> asyncStatus != Running
      ensures State() == Landed(old(State()), i, old(xfers)[i].status, accepted)
    {
      if xfers[i].status == Completed {
        if accepted {
          xfers := xfers[i := Transfer(true, Completed)];
        }
        xferErrors := 0;
      } else if xfers[i].status != Cancelled {
        if xfers[i].status == Error {
          xferErrors := xferErrors + 1;
        }
        if xferErrors >= |xfers| || xfers[i].status == NoDevice {
          devLost := true;
          var r := CancelAsync();
        }
      }
    }

    method HandleEvent(e: Event)
      modifies this
      ensures State() == Stepped(old(State()), e)
    {
      match e {
        case CancelRequest =>
          var c := CancelAsync();
        case Landing(i, status, accepted) =>
          if i < |xfers| && xfers[i].inFlight {
            ghost var before := State();
            xfers := xfers[i := Transfer(false, status)];
            LandedTwice(before, i, status, accepted);
            Callback(i, accepted);
          }
      }
    }

    /** The events land one by one, each through the callback. */
    method HandleEvents(events: seq<Event>)
      modifies this
      ensures State() == Handled(old(State()), events)
    {
      var k := 0;
      while k < |events|
        invariant k <= |events|
        invariant Handled(State(), events[k..]) == Handled(old(State()), events)
      {
        HandledStep(State(), events, k);
        HandleEvent(events[k]);
        k := k + 1;
      }
    }

    /** Hands every transfer to libusb; a refused submission starts cancelling. */
    method SubmitAll(script: Script)
      requires forall i | 0 <= i < |xfers| :: xfers[i] == Transfer(false, Completed)
      modifies this`xfers, this`asyncStatus
      ensures |xfers| == |old(xfers)|
      ensures forall i | 0 <= i < |xfers| :: xfers[i] == Transfer(i < Submitted(|xfers|, script), Completed)
      ensures asyncStatus == if Submitted(|xfers|, script) == |xfers| then old(asyncStatus) else Canceling
    {
      var rest := script;
      for i := 0 to |xfers|
        invariant |xfers| == |old(xfers)| && asyncStatus == old(asyncStatus)
        invariant i + Submitted(|xfers| - i, rest) == Submitted(|xfers|, script)
        invariant forall j | 0 <= j < |xfers| :: xfers[j] == Transfer(j < i, Completed)
      {
        var accepted := Head(rest);
        if !accepted {
          asyncStatus := Canceling;
          break;
        }
        rest := Tail(rest);
        xfers := xfers[i := Transfer(true, xfers[i].status)];
      }
    }

    /** One round of cancelling. */
    method CancelPass(answers: seq<Answer>) returns (next: AsyncStatus)
      modifies this
      ensures (State(), next) == Passed(old(State()), 0, Inactive, answers)
    {
      next := Inactive;
      var i := 0;
      while i < |xfers|
        invariant i <= |xfers| == |old(xfers)|
        invariant Passed(State(), i, next, answers) == Passed(old(State()), 0, Inactive, answers)
        decreases |xfers| - i
      {
        if xfers[i].status != Cancelled {
          var accepted := AnswerTo(answers, i).accepted;
          HandleEvents(AnswerTo(answers, i).events);
          if accepted {
            next := Canceling;
          }
        }
        i := i + 1;
      }
    }

    /** The loop of rtlsdr_read_async over the observed rounds. */
    method EventLoop(rounds: seq<Round>) returns (exit: Exit, next: AsyncStatus, used: nat)
      modifies this
      ensures Result(exit, next, State(), used) == Observed(old(State()), Inactive, rounds, 0)
    {
      hide Handled, Passed;
      next := Inactive;
      exit, used := StillRunning, 0;
      while used < |rounds|
        invariant used <= |rounds|
        invariant exit == StillRunning
        invariant Observed(State(), next, rounds, used) == Observed(old(State()), Inactive, rounds, 0)
      {
        var round := rounds[used];
        used := used + 1;
        HandleEvents(round.events);
        if round.result == Interrupted {
          continue;
        }
        if round.result == Failed {
          exit := EventError;
          break;
        }
        if asyncStatus == Canceling {
          next := CancelPass(round.answers);
          if devLost || next == Inactive {
            exit := if next == Inactive then Stopped else Lost;
            HandleEvents(round.last);
            break;
          }
        }
      }
    }

    /**
     rtlsdr_read_async, observed for the given rounds. `pending` are the transfers libusb still holds when the
     buffers are freed: after an orderly stop only ones whose cancellation it refused in the last round.
     */
    method ReadAsync(bufNum: nat, script: Script, rounds: seq<Round>)
      returns (exit: Exit, used: nat, pending: set<nat>)
      modifies this
      ensures old(asyncStatus) != Inactive <==> exit == NotInactive
      ensures exit == NotInactive ==> unchanged(this)
      ensures exit != NotInactive ==>
                var r := Read(if bufNum > 0 then bufNum else 15, old(devLost), old(xferErrors), script, rounds);
                exit == r.exit && used == r.used && devLost == r.stream.lost && xferErrors == r.stream.errors &&
                pending == (set i: nat | i < |r.stream.xfers| && r.stream.xfers[i].inFlight) &&
                (exit == StillRunning ==> State() == r.stream) &&
                (exit != StillRunning ==> xfers == [] && asyncStatus == r.next)
      ensures used <= |rounds|
      ensures exit == Stopped ==>
                asyncStatus == Inactive && used > 0 &&
                forall i | i in pending :: !AnswerTo(rounds[used - 1].answers, i).accepted
      ensures exit == Lost ==> devLost && asyncStatus == Canceling
    {
      hide Observed, Submitted, AnswerTo;
      if asyncStatus != Inactive {
        return NotInactive, 0, {};
      }
      asyncStatus := Running;
      asyncCancel := false;
      var n := if bufNum > 0 then bufNum else 15;
      xfers := seq(n, _ => Transfer(false, Completed));
      SubmitAll(script);
      assert State() == Started(n, devLost, xferErrors, script);
      ReadPending(n, devLost, xferErrors, script, rounds);
      var next: AsyncStatus;
      exit, next, used := EventLoop(rounds);
      pending := set i: nat | i < |xfers| && xfers[i].inFlight;
      if exit != StillRunning {
        xfers := [];
        asyncStatus := next;
      }
    }
  }
}
