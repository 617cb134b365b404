/**
 * The protocol of `wrap`: begin a step, run the supplier, commit the step as
 * PASS and return the value, or commit it as FAIL with the exception and
 * rethrow that exception. `WrapBehaves` relates what the supplier and the
 * listeners do to the steps logged and to what `wrap` returns or throws.
 */
module StepProtocol {
  import opened LogEvents
  import opened StepNotification

  /** What the supplier handed to `wrap` does: returns a value (None for null) or throws. */
  datatype Supplied<T> = Returns(value: Option<T>) | Raises(thrown: Throwable)

  /** The supplier that `run` and `step(source, runnable)` build: run the runnable, then return null. */
  function RunnableSupplier(thrown: Option<Throwable>): (s: Supplied<()>)
    ensures s.Returns? <==> thrown.None?
    ensures s.Returns? ==> s.value.None?
    ensures s.Raises? ==> thrown == Some(s.thrown)
  {
    match thrown
    case None => Returns(None)
    case Some(e) => Raises(e)
  }

  /** `requireNonNull` applied to what `wrap` returned. */
  function RequireNonNull<T>(w: Result<Option<T>>): (r: Result<T>)
    ensures r.Success? <==> w.Success? && w.value.Some?
    ensures r.Success? ==> r.value == w.value.value
    ensures w.Failure? ==> r == Failure(w.error)
    ensures w == Success(None) ==> r == Failure(NullPointerException)
  {
    match w
    case Failure(e) => Failure(e)
    case Success(None) => Failure(NullPointerException)
    case Success(Some(v)) => Success(v)
  }

  /** The entry after `commitStep(log, PASS)`. */
  function Passed(event: LogEvent): LogEvent {
    event.(status := PASS)
  }

  /** The entry after `commitStep(log, e)`. */
  function Failed(event: LogEvent, e: Throwable): LogEvent {
    event.(status := FAIL, error := Some(e))
  }

  /**
   * The catch block of `wrap`: after the steps `prefix`, `commitStep(log, e)`
   * is logged and `e` is rethrown, unless a listener's `afterEvent` throws
   * something the listener loop does not catch, which then propagates instead.
   */
  ghost predicate FailCommitted<T>(
    r: Result<Option<T>>, steps: seq<Step>, prefix: seq<Step>, log: SelenideLog,
    registry: map<string, ListenerId>, event: LogEvent, e: Throwable, behaviour: Behaviour)
  {
    var failed := Failed(event, e);
    && steps == prefix + [Committed(log, failed)]
    && r.Failure?
    && (Quiet(registry, AfterEvent, failed, behaviour) ==> r.error == e)
    && (!Quiet(registry, AfterEvent, failed, behaviour) ==> r.error in Escaping(registry, AfterEvent, failed, behaviour))
  }

  /**
   * The try block of `wrap` and its catch block, once `beginStep` has
   * returned the entry `log` in state `started`: `commits` are the steps
   * committed, `r` what `wrap` returns or throws.
   */
  ghost predicate TryBehaves<T>(
    r: Result<Option<T>>, commits: seq<Step>, log: SelenideLog,
    registry: map<string, ListenerId>, started: LogEvent,
    supplied: Supplied<T>, behaviour: Behaviour)
  {
    match supplied
    case Returns(v) =>
      var passed := [Committed(log, Passed(started))];
      if Quiet(registry, AfterEvent, Passed(started), behaviour) then
        r == Success(v) && commits == passed
      else
        // commitStep(log, PASS) threw inside the try block
        exists x :: x in Escaping(registry, AfterEvent, Passed(started), behaviour) &&
          if Catchable(x) then FailCommitted(r, commits, passed, log, registry, Passed(started), x, behaviour)
          else r == Failure(x) && commits == passed
    case Raises(e) =>
      if Catchable(e) then FailCommitted(r, commits, [], log, registry, started, e, behaviour)
      else r == Failure(e) && commits == []
  }

  /**
   * What `wrap(source, subject, supplier)` does on a thread whose listeners
   * are `registry`, as the steps it logs for the entry `log` and the value it
   * returns or the throwable it throws.
   */
  ghost predicate WrapBehaves<T>(
    r: Result<Option<T>>, steps: seq<Step>, log: SelenideLog,
    registry: map<string, ListenerId>, source: string, subject: string,
    supplied: Supplied<T>, behaviour: Behaviour)
  {
    var started := Started(source, subject);
    && |steps| >= 1
    && steps[0] == Began(log, started)
    && if !Quiet(registry, BeforeEvent, started, behaviour) then
         // beginStep threw, before the try block: nothing is committed
         r.Failure? && r.error in Escaping(registry, BeforeEvent, started, behaviour) && |steps| == 1
       else
         TryBehaves(r, steps[1..], log, registry, started, supplied, behaviour)
  }

  /** `beginStep` threw: wrap propagates it and commits nothing. */
  lemma BehavesWhenBeginThrows<T>(
    r: Result<Option<T>>, steps: seq<Step>, log: SelenideLog,
    registry: map<string, ListenerId>, source: string, subject: string,
    supplied: Supplied<T>, behaviour: Behaviour)
    requires !Quiet(registry, BeforeEvent, Started(source, subject), behaviour)
    requires r.Failure? && r.error in Escaping(registry, BeforeEvent, Started(source, subject), behaviour)
    requires steps == [Began(log, Started(source, subject))]
    ensures WrapBehaves(r, steps, log, registry, source, subject, supplied, behaviour)
  {
  }

  /** `beginStep` returned: wrap goes on with its try block. */
  lemma BehavesWhenBegun<T>(
    r: Result<Option<T>>, commits: seq<Step>, log: SelenideLog,
    registry: map<string, ListenerId>, source: string, subject: string,
    supplied: Supplied<T>, behaviour: Behaviour)
    requires Quiet(registry, BeforeEvent, Started(source, subject), behaviour)
    requires TryBehaves(r, commits, log, registry, Started(source, subject), supplied, behaviour)
    ensures WrapBehaves(r, [Began(log, Started(source, subject))] + commits, log, registry, source, subject, supplied, behaviour)
  {
    assert ([Began(log, Started(source, subject))] + commits)[1..] == commits;
  }

  /** The supplier returned `v`: wrap commits PASS, then returns `v` or handles what `commitStep` threw. */
  lemma TryWhenReturned<T>(
    r: Result<Option<T>>, commits: seq<Step>, log: SelenideLog,
    registry: map<string, ListenerId>, started: LogEvent,
    v: Option<T>, behaviour: Behaviour, escaped: Option<Throwable>)
    requires escaped.None? <==> Quiet(registry, AfterEvent, Passed(started), behaviour)
    requires escaped.Some? ==> escaped.value in Escaping(registry, AfterEvent, Passed(started), behaviour)
    requires match escaped
      case None => r == Success(v) && commits == [Committed(log, Passed(started))]
      case Some(x) =>
        if Catchable(x) then FailCommitted(r, commits, [Committed(log, Passed(started))], log, registry, Passed(started), x, behaviour)
        else r == Failure(x) && commits == [Committed(log, Passed(started))]
    ensures TryBehaves(r, commits, log, registry, started, Returns(v), behaviour)
  {
  }

  /** No listener of the registry ever throws anything but a `RuntimeException`. */
  ghost predicate Tame(registry: map<string, ListenerId>, behaviour: Behaviour) {
    forall n, p, e :: n in registry ==> !Escapes(behaviour(registry[n], p, e))
  }

  /** When the supplier returns and no listener throws past the loops, wrap commits PASS and returns the value. */
  lemma WrapReturnsSuppliedValue<T>(
    r: Result<Option<T>>, steps: seq<Step>, log: SelenideLog,
    registry: map<string, ListenerId>, source: string, subject: string,
    v: Option<T>, behaviour: Behaviour)
    requires WrapBehaves(r, steps, log, registry, source, subject, Returns(v), behaviour)
    requires Quiet(registry, BeforeEvent, Started(source, subject), behaviour)
    requires Quiet(registry, AfterEvent, Passed(Started(source, subject)), behaviour)
    ensures r == Success(v)
    ensures steps == [Began(log, Started(source, subject)), Committed(log, LogEvent(source, subject, PASS, None))]
  {
  }

  /**
   * When the supplier throws a `RuntimeException` or an `Error` and no
   * listener throws past the loops, wrap commits FAIL with that same
   * exception and rethrows it.
   */
  lemma WrapRethrowsSame<T>(
    r: Result<Option<T>>, steps: seq<Step>, log: SelenideLog,
    registry: map<string, ListenerId>, source: string, subject: string,
    e: Throwable, behaviour: Behaviour)
    requires WrapBehaves(r, steps, log, registry, source, subject, Raises(e), behaviour)
    requires Catchable(e)
    requires Quiet(registry, BeforeEvent, Started(source, subject), behaviour)
    requires Quiet(registry, AfterEvent, Failed(Started(source, subject), e), behaviour)
    ensures r == Failure(e)
    ensures steps == [Began(log, Started(source, subject)), Committed(log, LogEvent(source, subject, FAIL, Some(e)))]
  {
  }

  /**
   * With listeners that throw at most `RuntimeException`s and a supplier
   * that returns or throws an unchecked exception, wrap logs exactly one
   * begin and then exactly one commit, PASS exactly when it returns.
   */
  lemma WrapOneBeginOneCommit<T>(
    r: Result<Option<T>>, steps: seq<Step>, log: SelenideLog,
    registry: map<string, ListenerId>, source: string, subject: string,
    supplied: Supplied<T>, behaviour: Behaviour)
    requires WrapBehaves(r, steps, log, registry, source, subject, supplied, behaviour)
    requires Tame(registry, behaviour)
    requires supplied.Raises? ==> Catchable(supplied.thrown)
    ensures |steps| == 2
    ensures steps[0] == Began(log, Started(source, subject))
    ensures steps[1].Committed? && steps[1].log == log
    ensures steps[1].event.status == PASS <==> r.Success?
    ensures r.Success? <==> supplied.Returns?
    ensures supplied.Raises? ==> r == Failure(supplied.thrown) && steps[1].event.error == Some(supplied.thrown)
  {
    var started := Started(source, subject);
    assert Quiet(registry, BeforeEvent, started, behaviour);
    assert Quiet(registry, AfterEvent, Passed(started), behaviour);
    if supplied.Raises? {
      assert Quiet(registry, AfterEvent, Failed(started, supplied.thrown), behaviour);
    }
  }

  /**
   * Whatever the listeners do, wrap never turns an exception into a value,
   * never changes a returned value, and throws the supplier's own exception
   * unless a listener's callback threw past the listener loop.
   */
  lemma WrapNeverSwallows<T>(
    r: Result<Option<T>>, steps: seq<Step>, log: SelenideLog,
    registry: map<string, ListenerId>, source: string, subject: string,
    supplied: Supplied<T>, behaviour: Behaviour)
    requires WrapBehaves(r, steps, log, registry, source, subject, supplied, behaviour)
    ensures r.Success? ==> supplied == Returns(r.value)
    ensures supplied.Raises? ==> r.Failure?
    ensures supplied.Raises? ==>
      || r.error == supplied.thrown
      || r.error in Escaping(registry, BeforeEvent, Started(source, subject), behaviour)
      || r.error in Escaping(registry, AfterEvent, Failed(Started(source, subject), supplied.thrown), behaviour)
    ensures 1 <= |steps| <= 3 && steps[0] == Began(log, Started(source, subject))
    ensures forall i :: 1 <= i < |steps| ==> steps[i].Committed? && steps[i].log == log
  {
    var started := Started(source, subject);
    if Quiet(registry, BeforeEvent, started, behaviour) && supplied.Returns?
       && !Quiet(registry, AfterEvent, Passed(started), behaviour) {
      var commits := steps[1..];
      var x :| x in Escaping(registry, AfterEvent, Passed(started), behaviour) &&
        if Catchable(x) then FailCommitted(r, commits, [Committed(log, Passed(started))], log, registry, Passed(started), x, behaviour)
        else r == Failure(x) && commits == [Committed(log, Passed(started))];
    }
  }

  /**
   * A listener whose `afterEvent` throws an `Error` for a passed step makes
   * wrap catch that `Error`, commit the same entry a second time as FAIL and
   * throw the `Error` instead of returning the supplier's value.
   */
  lemma ListenerErrorRecommits(
    r: Result<Option<int>>, steps: seq<Step>, log: SelenideLog, source: string, subject: string)
    requires WrapBehaves(r, steps, log, map["report" := 7], source, subject, Returns(Some(42)),
      (l: ListenerId, p: Phase, e: LogEvent) => if p == AfterEvent && e.status == PASS then Threw(Error(1)) else Returned)
    ensures r == Failure(Error(1))
    ensures steps == [Began(log, Started(source, subject)),
                      Committed(log, LogEvent(source, subject, PASS, None)),
                      Committed(log, LogEvent(source, subject, FAIL, Some(Error(1))))]
  {
    var registry := map["report" := 7];
    var behaviour := (l: ListenerId, p: Phase, e: LogEvent) => if p == AfterEvent && e.status == PASS then Threw(Error(1)) else Returned;
    var started := Started(source, subject);
    assert "report" in registry && Escapes(behaviour(registry["report"], AfterEvent, Passed(started)));
    assert !Quiet(registry, AfterEvent, Passed(started), behaviour);
    assert Escaping(registry, AfterEvent, Passed(started), behaviour) == {Error(1)};
    assert Quiet(registry, AfterEvent, Failed(Passed(started), Error(1)), behaviour);
  }
}
