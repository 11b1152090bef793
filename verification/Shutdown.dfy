/**
 The server's lifecycle (internal/server/server.go): Serve and shutdown in one goroutine,
 http.Serve in another, and a channel of capacity one between them, in any interleaving.

 net/http is given by its contract: Serve returns at any time with an error of its own,
 or with ErrServerClosed once Shutdown or Close has been called.
 */
module Shutdown {
  import opened Wrappers

  type Cause = nat

  // The goroutine: inside http.Serve, holding its result (None for ErrServerClosed), done.
  datatype Worker = Serving | Holding(result: Option<Cause>) | Exited

  datatype Failure = ServeFailed(cause: Cause) | GraceExceeded(cause: Cause)

  datatype Main =
    | Selecting
    | InShutdown
    | InClose(cause: Cause)
    | Draining(grace: Option<Cause>)
    | Returned(failure: Option<Failure>)

  // served and shut remember what http.Serve and Shutdown returned; sends and receives
  // count the channel's traffic.
  datatype State = State(worker: Worker, channel: Option<Option<Cause>>, main: Main, cancelled: bool,
                         served: Option<Option<Cause>>, shut: Option<Option<Cause>>, sends: nat, receives: nat)

  const START := State(Serving, None, Selecting, false, None, None, 0, 0)

  datatype Step =
    | Cancel
    | ServeReturns(result: Option<Cause>)
    | SendResult
    | SelectResult
    | SelectDone
    | ShutdownReturns(grace: Option<Cause>)
    | CloseReturns
    | ReceiveResult

  // Shutdown has been called.
  predicate Stopping(s: State) {
    s.main.InShutdown? || s.shut.Some?
  }

  predicate Enabled(s: State, step: Step) {
    match step
    case Cancel => !s.cancelled
    case ServeReturns(result) => s.worker.Serving? && (result.None? ==> Stopping(s))
    case SendResult => s.worker.Holding? && s.channel.None?
    case SelectResult => s.main.Selecting? && s.channel.Some?
    case SelectDone => s.main.Selecting? && s.cancelled
    case ShutdownReturns(_) => s.main.InShutdown?
    case CloseReturns => s.main.InClose?
    case ReceiveResult => s.main.Draining? && s.channel.Some?
  }

  function Next(s: State, step: Step): State
    requires Enabled(s, step)
  {
    match step
    case Cancel => s.(cancelled := true)
    case ServeReturns(result) => s.(worker := Holding(result), served := Some(result))
    case SendResult => s.(worker := Exited, channel := Some(s.worker.result), sends := s.sends + 1)
    case SelectResult => Receive(s, if s.channel.value.Some? then Some(ServeFailed(s.channel.value.value)) else None)
    case SelectDone => s.(main := InShutdown)
    case ShutdownReturns(grace) =>
      s.(main := if grace.Some? then InClose(grace.value) else Draining(None), shut := Some(grace))
    case CloseReturns => s.(main := Draining(Some(s.main.cause)))
    case ReceiveResult =>
      Receive(s, if s.main.grace.Some? then Some(GraceExceeded(s.main.grace.value))
                 else if s.channel.value.Some? then Some(ServeFailed(s.channel.value.value)) else None)
  }

  function Receive(s: State, failure: Option<Failure>): State {
    s.(main := Returned(failure), channel := None, receives := s.receives + 1)
  }

  ghost predicate ValidRun(s: State, run: seq<Step>)
    decreases |run|
  {
    run == [] || (Enabled(s, run[0]) && ValidRun(Next(s, run[0]), run[1..]))
  }

  function Exec(s: State, run: seq<Step>): State
    requires ValidRun(s, run)
    decreases |run|
  {
    if run == [] then s else Exec(Next(s, run[0]), run[1..])
  }

  // What Serve should return: the missed deadline first, then http.Serve's own failure.
  function Verdict(s: State): Option<Failure>
    requires s.served.Some?
  {
    if s.shut.Some? && s.shut.value.Some? then Some(GraceExceeded(s.shut.value.value))
    else if s.served.value.Some? then Some(ServeFailed(s.served.value.value)) else None
  }

  predicate Inv(s: State) {
    && s.sends == (if s.worker.Exited? then 1 else 0)
    && s.receives == (if s.main.Returned? then 1 else 0)
    && (s.channel.Some? <==> s.sends > s.receives) && s.receives <= s.sends
    && (s.served.Some? <==> !s.worker.Serving?)
    && (s.worker.Holding? ==> s.served == Some(s.worker.result))
    && (s.channel.Some? ==> s.served == s.channel)
    && (s.served == Some(None) ==> Stopping(s))
    && (Stopping(s) ==> s.cancelled)
    && (s.main.Selecting? || s.main.InShutdown? ==> s.shut.None?)
    && (s.main.InClose? ==> s.shut == Some(Some(s.main.cause)))
    && (s.main.Draining? ==> s.shut == Some(s.main.grace))
    && (s.main.Returned? ==> s.served.Some? && s.main.failure == Verdict(s))
  }

  // What is left to do; every step uses some of it up.
  function Budget(s: State): nat {
    (if s.cancelled then 0 else 1)
    + (match s.worker case Serving => 2 case Holding(_) => 1 case Exited => 0)
    + (match s.main
       case Selecting => 4
       case InShutdown => 3
       case InClose(_) => 2
       case Draining(_) => 1
       case Returned(_) => 0)
  }

  lemma StepInv(s: State, step: Step)
    requires Inv(s) && Enabled(s, step)
    ensures Inv(Next(s, step)) && Budget(Next(s, step)) < Budget(s)
  {
  }

  lemma {:induction false} RunInv(s: State, run: seq<Step>)
    requires Inv(s) && ValidRun(s, run)
    ensures Inv(Exec(s, run)) && |run| + Budget(Exec(s, run)) <= Budget(s)
    decreases |run|
  {
    if run != [] {
      StepInv(s, run[0]);
      RunInv(Next(s, run[0]), run[1..]);
    }
  }

  /**
   Every run ends, within seven steps, and one that can go no further has returned, with
   exactly one result sent and received: no goroutine is left waiting on the other.
   */
  lemma EveryRunReturns(run: seq<Step>)
    requires ValidRun(START, run)
    ensures |run| <= 7
    ensures var s := Exec(START, run);
      (forall step :: !Enabled(s, step)) ==>
        s.main.Returned? && s.worker.Exited? && s.channel.None? && s.sends == s.receives == 1
  {
    RunInv(START, run);
    var s := Exec(START, run);
    if forall step :: !Enabled(s, step) {
      assert !Enabled(s, ServeReturns(Some(0))) && !Enabled(s, SendResult) && !Enabled(s, SelectResult);
      assert !Enabled(s, Cancel) && !Enabled(s, SelectDone) && !Enabled(s, ShutdownReturns(None));
      assert !Enabled(s, CloseReturns) && !Enabled(s, ReceiveResult);
    }
  }

  /**
   Serve returns nil only after a cancellation, a shutdown within its deadline and a
   listener closed by it; a missed deadline hides http.Serve's own failure.
   */
  lemma ReturnedIsVerdict(run: seq<Step>)
    requires ValidRun(START, run) && Exec(START, run).main.Returned?
    ensures var s := Exec(START, run);
      && s.served.Some? && s.main.failure == Verdict(s)
      && (s.main.failure == None <==> s.cancelled && s.shut == Some(None) && s.served == Some(None))
      && (forall g: Cause :: s.main.failure == Some(GraceExceeded(g)) <==> s.shut == Some(Some(g)))
      && (forall c: Cause :: s.main.failure == Some(ServeFailed(c)) <==>
            s.served == Some(Some(c)) && (s.shut == None || s.shut == Some(None)))
  {
    RunInv(START, run);
  }

  // One more step at the start of a run.
  lemma Prepend(s: State, step: Step, rest: seq<Step>)
    requires Enabled(s, step) && ValidRun(Next(s, step), rest)
    ensures ValidRun(s, [step] + rest) && Exec(s, [step] + rest) == Exec(Next(s, step), rest)
  {
    assert ([step] + rest)[1..] == rest;
  }

  // The listener breaks with cause c after a cancellation, the deadline passes with cause g,
  // and only g is returned.
  lemma DeadlineHidesFailure(c: Cause, g: Cause) returns (run: seq<Step>)
    ensures ValidRun(START, run) && Exec(START, run).served == Some(Some(c))
    ensures Exec(START, run).main == Returned(Some(GraceExceeded(g)))
  {
    var s1 := Next(START, Cancel);
    var s2 := Next(s1, SelectDone);
    var s3 := Next(s2, ServeReturns(Some(c)));
    var s4 := Next(s3, SendResult);
    var s5 := Next(s4, ShutdownReturns(Some(g)));
    var s6 := Next(s5, CloseReturns);
    run := [];
    Prepend(s6, ReceiveResult, run);
    run := [ReceiveResult] + run;
    Prepend(s5, CloseReturns, run);
    run := [CloseReturns] + run;
    Prepend(s4, ShutdownReturns(Some(g)), run);
    run := [ShutdownReturns(Some(g))] + run;
    Prepend(s3, SendResult, run);
    run := [SendResult] + run;
    Prepend(s2, ServeReturns(Some(c)), run);
    run := [ServeReturns(Some(c))] + run;
    Prepend(s1, SelectDone, run);
    run := [SelectDone] + run;
    Prepend(START, Cancel, run);
    run := [Cancel] + run;
  }
}
