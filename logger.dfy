/**
 * `SelenideLogger`: the listener registries of all threads, and the step
 * methods that notify the listeners of the calling thread. The thread-local
 * becomes a map keyed by the calling thread, passed to every method as `t`.
 * The ghost fields record what the listeners and a reader of the log see:
 * every listener callback made, and every begun and committed step.
 */
module Logger {
  import opened LogEvents
  import opened ListenerRegistry
  import opened StepNotification
  import opened StepProtocol
  import ReadableSubject

  class SelenideLogger {
    var listeners: Registries
    ghost var notifications: seq<Notification>
    ghost var steps: seq<Step>

    constructor ()
      ensures listeners == map[] && notifications == [] && steps == []
    {
      listeners := map[];
      notifications := [];
      steps := [];
    }

    /** `hasListener(name)`, called on thread `t`. */
    predicate HasListener(t: ThreadId, name: string)
      reads this
      ensures HasListener(t, name) <==> name in ThreadListeners(listeners, t)
    {
      Has(listeners, t, name)
    }

    /** `getListener(name)`, called on thread `t`. */
    function GetListener(t: ThreadId, name: string): (r: Option<ListenerId>)
      reads this
      ensures r.Some? <==> HasListener(t, name)
      ensures r.Some? ==> name in listeners[t] && listeners[t][name] == r.value
    {
      Lookup(listeners, t, name)
    }

    /** `addListener(name, listener)`, called on thread `t`. */
    method AddListener(t: ThreadId, name: string, listener: ListenerId)
      modifies this
      ensures listeners == Added(old(listeners), t, name, listener)
      ensures GetListener(t, name) == Some(listener) && HasListener(t, name)
      ensures notifications == old(notifications) && steps == old(steps)
    {
      var threadListeners := if t in listeners then listeners[t] else map[];
      threadListeners := threadListeners[name := listener];
      listeners := listeners[t := threadListeners];
    }

    /** `removeListener(name)`, called on thread `t`: the listener removed, None for null. */
    method RemoveListener(t: ThreadId, name: string) returns (removed: Option<ListenerId>)
      modifies this
      ensures removed == Lookup(old(listeners), t, name)
      ensures listeners == Removed(old(listeners), t, name)
      ensures !HasListener(t, name)
      ensures notifications == old(notifications) && steps == old(steps)
    {
      if t !in listeners {
        return None;
      }
      var threadListeners := listeners[t];
      removed := if name in threadListeners then Some(threadListeners[name]) else None;
      listeners := listeners[t := threadListeners - {name}];
    }

    /** `removeAllListeners()`, called on thread `t`. */
    method RemoveAllListeners(t: ThreadId)
      modifies this
      ensures listeners == Cleared(old(listeners), t)
      ensures forall n :: !HasListener(t, n)
      ensures notifications == old(notifications) && steps == old(steps)
    {
      listeners := listeners - {t};
    }

    /** `getEventLoggerListeners()`, called on thread `t`: installs an empty map when there is none. */
    method GetEventLoggerListeners(t: ThreadId) returns (registry: map<string, ListenerId>)
      modifies this
      ensures listeners == Installed(old(listeners), t)
      ensures registry == ThreadListeners(old(listeners), t)
      ensures forall n :: HasListener(t, n) == old(HasListener(t, n)) && GetListener(t, n) == old(GetListener(t, n))
      ensures notifications == old(notifications) && steps == old(steps)
    {
      if t !in listeners {
        listeners := listeners[t := map[]];
      }
      registry := listeners[t];
    }

    /**
     * `beginStep(source, subject)`, called on thread `t`: a new entry in
     * progress, and one round of `beforeEvent` over the thread's listeners.
     * `log` is the entry created, whether or not the round threw, and `notes`
     * the callbacks made.
     */
    method BeginStep(t: ThreadId, source: string, subject: string, behaviour: Behaviour)
      returns (r: Result<SelenideLog>, ghost log: SelenideLog, ghost notes: seq<Notification>)
      modifies this
      ensures fresh(log) && log.source == source && log.subject == subject
      ensures log.Snapshot() == Started(source, subject)
      ensures r.Success? ==> r.value == log
      ensures listeners == Installed(old(listeners), t)
      ensures steps == old(steps) + [Began(log, Started(source, subject))]
      ensures notifications == old(notifications) + notes
      ensures Round(notes, ThreadListeners(old(listeners), t), BeforeEvent,
                    log, Started(source, subject), behaviour, if r.Success? then None else Some(r.error))
    {
      var registry := GetEventLoggerListeners(t);
      var entry := new SelenideLog(source, subject);
      log := entry;
      steps := steps + [Began(entry, entry.Snapshot())];
      var called, escaped := NotifyAll(registry, BeforeEvent, entry, entry.Snapshot(), behaviour);
      notes := called;
      notifications := notifications + called;
      r := if escaped.None? then Success(entry) else Failure(escaped.value);
    }

    /** `beginStep(source, methodName, args)`, where `argsText` is what `readableArguments(args)` renders. */
    method BeginStepFor(t: ThreadId, source: string, methodName: string, argsText: string, behaviour: Behaviour)
      returns (r: Result<SelenideLog>, ghost log: SelenideLog, ghost notes: seq<Notification>)
      modifies this
      ensures fresh(log) && log.source == source
      ensures log.subject == ReadableSubject.Subject(methodName, argsText)
      ensures log.Snapshot() == Started(source, log.subject)
      ensures r.Success? ==> r.value == log
      ensures listeners == Installed(old(listeners), t)
      ensures steps == old(steps) + [Began(log, Started(source, log.subject))]
      ensures notifications == old(notifications) + notes
      ensures Round(notes, ThreadListeners(old(listeners), t), BeforeEvent,
                    log, Started(source, log.subject), behaviour, if r.Success? then None else Some(r.error))
    {
      r, log, notes := BeginStep(t, source, ReadableSubject.Subject(methodName, argsText), behaviour);
    }

    /**
     * `commitStep(log, status)`, called on thread `t`: the status is set, then
     * one round of `afterEvent`; `escaped` is what escapes that round.
     */
    method CommitStep(t: ThreadId, log: SelenideLog, status: EventStatus, behaviour: Behaviour)
      returns (escaped: Option<Throwable>, ghost notes: seq<Notification>)
      modifies this, log
      ensures log.status == status && log.error == old(log.error)
      ensures listeners == Installed(old(listeners), t)
      ensures steps == old(steps) + [Committed(log, log.Snapshot())]
      ensures notifications == old(notifications) + notes
      ensures Round(notes, ThreadListeners(old(listeners), t), AfterEvent, log, log.Snapshot(), behaviour, escaped)
    {
      log.status := status;
      var registry := GetEventLoggerListeners(t);
      steps := steps + [Committed(log, log.Snapshot())];
      var called;
      called, escaped := NotifyAll(registry, AfterEvent, log, log.Snapshot(), behaviour);
      notes := called;
      notifications := notifications + called;
    }

    /** `commitStep(log, error)`, called on thread `t`: the error is recorded and the step committed as FAIL. */
    method CommitStepWithError(t: ThreadId, log: SelenideLog, error: Throwable, behaviour: Behaviour)
      returns (escaped: Option<Throwable>, ghost notes: seq<Notification>)
      modifies this, log
      ensures log.status == FAIL && log.error == Some(error)
      ensures listeners == Installed(old(listeners), t)
      ensures steps == old(steps) + [Committed(log, log.Snapshot())]
      ensures notifications == old(notifications) + notes
      ensures Round(notes, ThreadListeners(old(listeners), t), AfterEvent, log, log.Snapshot(), behaviour, escaped)
    {
      log.error := Some(error);
      escaped, notes := CommitStep(t, log, FAIL, behaviour);
    }

    /**
     * `wrap(source, subject, supplier)`, called on thread `t`, where
     * `supplied` is what the supplier does; `logged` are the steps it logs
     * and `notes` the listener callbacks it makes. When no listener callback
     * throws past the listener loops and the step is committed once, the
     * listeners see one complete round of `beforeEvent` and then one of
     * `afterEvent`.
     */
    method Wrap<T>(t: ThreadId, source: string, subject: string, supplied: Supplied<T>, behaviour: Behaviour)
      returns (r: Result<Option<T>>, ghost log: SelenideLog, ghost logged: seq<Step>, ghost notes: seq<Notification>)
      modifies this
      ensures fresh(log)
      ensures listeners == Installed(old(listeners), t)
      ensures steps == old(steps) + logged
      ensures WrapBehaves(r, logged, log, ThreadListeners(old(listeners), t), source, subject, supplied, behaviour)
      ensures log.Snapshot() == logged[|logged| - 1].event
      ensures notifications == old(notifications) + notes
      ensures var registry := ThreadListeners(old(listeners), t);
        |logged| == 2
        && Quiet(registry, BeforeEvent, Started(source, subject), behaviour)
        && Quiet(registry, AfterEvent, log.Snapshot(), behaviour)
        ==>
        && |notes| == 2 * |registry|
        && Round(notes[..|registry|], registry, BeforeEvent, log, Started(source, subject), behaviour, None)
        && Round(notes[|registry|..], registry, AfterEvent, log, log.Snapshot(), behaviour, None)
    {
      ghost var registry := ThreadListeners(listeners, t);
      ghost var started := Started(source, subject);
      var begun;
      ghost var beforeNotes, commits, afterNotes;
      begun, log, beforeNotes := BeginStep(t, source, subject, behaviour);
      logged, notes := [Began(log, started)], beforeNotes;
      if begun.Failure? {
        r := Failure(begun.error);
        BehavesWhenBeginThrows(r, logged, log, registry, source, subject, supplied, behaviour);
        return;
      }
      r, commits, afterNotes := SupplyAndCommit(t, begun.value, supplied, behaviour, started);
      BehavesWhenBegun(r, commits, log, registry, source, subject, supplied, behaviour);
      Extend(old(steps), logged, commits, old(notifications), notes, afterNotes);
      logged, notes := logged + commits, notes + afterNotes;
      if |logged| == 2 && Quiet(registry, AfterEvent, log.Snapshot(), behaviour) {
        TwoRounds(beforeNotes, afterNotes, registry, log, started, log.Snapshot(), behaviour);
      }
    }

    /**
     * The try block of `wrap` and its catch block, on thread `t`, for the
     * entry `log` that `beginStep` returned in state `started`: the supplier
     * does `supplied`, then the step is committed as PASS, or as FAIL with
     * what was caught. `commits` are the steps committed and `notes` the
     * `afterEvent` callbacks made.
     */
    method SupplyAndCommit<T>(t: ThreadId, log: SelenideLog, supplied: Supplied<T>, behaviour: Behaviour, ghost started: LogEvent)
      returns (r: Result<Option<T>>, ghost commits: seq<Step>, ghost notes: seq<Notification>)
      requires t in listeners && log.Snapshot() == started
      modifies this, log
      ensures listeners == old(listeners)
      ensures steps == old(steps) + commits
      ensures notifications == old(notifications) + notes
      ensures TryBehaves(r, commits, log, listeners[t], started, supplied, behaviour)
      ensures log.Snapshot() == if commits == [] then started else commits[|commits| - 1].event
      ensures |commits| == 1 && Quiet(listeners[t], AfterEvent, log.Snapshot(), behaviour) ==>
        Round(notes, listeners[t], AfterEvent, log, log.Snapshot(), behaviour, None)
    {
      ghost var registry := listeners[t];
      match supplied {
        case Returns(v) =>
          var escaped;
          escaped, notes := CommitStep(t, log, PASS, behaviour);
          assert log.Snapshot() == Passed(started);
          commits := [Committed(log, Passed(started))];
          if escaped.None? {
            r := Success(v);
          } else if Catchable(escaped.value) {
            var again;
            ghost var againNotes;
            again, againNotes := CommitStepWithError(t, log, escaped.value, behaviour);
            r := Failure(if again.Some? then again.value else escaped.value);
            assert log.Snapshot() == Failed(Passed(started), escaped.value);
            Extend(old(steps), commits, [Committed(log, log.Snapshot())], old(notifications), notes, againNotes);
            commits, notes := commits + [Committed(log, log.Snapshot())], notes + againNotes;
          } else {
            r := Failure(escaped.value);
          }
          TryWhenReturned(r, commits, log, registry, started, v, behaviour, escaped);
        case Raises(e) =>
          if Catchable(e) {
            var again;
            again, notes := CommitStepWithError(t, log, e, behaviour);
            r := Failure(if again.Some? then again.value else e);
            assert log.Snapshot() == Failed(started, e);
            commits := [Committed(log, log.Snapshot())];
          } else {
            r, commits, notes := Failure(e), [], [];
          }
      }
    }

    /** Appending to what was appended is appending once. */
    static lemma Extend(steps0: seq<Step>, logged: seq<Step>, more: seq<Step>,
                        notes0: seq<Notification>, notes: seq<Notification>, moreNotes: seq<Notification>)
      ensures steps0 + logged + more == steps0 + (logged + more)
      ensures notes0 + notes + moreNotes == notes0 + (notes + moreNotes)
    {
    }

    /** `run(source, subject, runnable)`: `thrown` is what the runnable throws, if anything. */
    method Run(t: ThreadId, source: string, subject: string, thrown: Option<Throwable>, behaviour: Behaviour)
      returns (escaped: Option<Throwable>, ghost wrapped: Result<Option<()>>, ghost log: SelenideLog, ghost logged: seq<Step>, ghost notes: seq<Notification>)
      modifies this
      ensures fresh(log)
      ensures listeners == Installed(old(listeners), t)
      ensures steps == old(steps) + logged && notifications == old(notifications) + notes
      ensures WrapBehaves(wrapped, logged, log, ThreadListeners(old(listeners), t), source, subject, RunnableSupplier(thrown), behaviour)
      ensures log.Snapshot() == logged[|logged| - 1].event
      ensures var registry := ThreadListeners(old(listeners), t);
        |logged| == 2
        && Quiet(registry, BeforeEvent, Started(source, subject), behaviour)
        && Quiet(registry, AfterEvent, log.Snapshot(), behaviour)
        ==>
        && |notes| == 2 * |registry|
        && Round(notes[..|registry|], registry, BeforeEvent, log, Started(source, subject), behaviour, None)
        && Round(notes[|registry|..], registry, AfterEvent, log, log.Snapshot(), behaviour, None)
      ensures escaped == if wrapped.Failure? then Some(wrapped.error) else None
    {
      var w;
      w, log, logged, notes := Wrap(t, source, subject, RunnableSupplier(thrown), behaviour);
      wrapped := w;
      escaped := if w.Failure? then Some(w.error) else None;
    }

    /** `get(source, subject, supplier)`: wrap, then `requireNonNull` of its value. */
    method Get<T>(t: ThreadId, source: string, subject: string, supplied: Supplied<T>, behaviour: Behaviour)
      returns (r: Result<T>, ghost wrapped: Result<Option<T>>, ghost log: SelenideLog, ghost logged: seq<Step>, ghost notes: seq<Notification>)
      modifies this
      ensures fresh(log)
      ensures listeners == Installed(old(listeners), t)
      ensures steps == old(steps) + logged && notifications == old(notifications) + notes
      ensures WrapBehaves(wrapped, logged, log, ThreadListeners(old(listeners), t), source, subject, supplied, behaviour)
      ensures log.Snapshot() == logged[|logged| - 1].event
      ensures var registry := ThreadListeners(old(listeners), t);
        |logged| == 2
        && Quiet(registry, BeforeEvent, Started(source, subject), behaviour)
        && Quiet(registry, AfterEvent, log.Snapshot(), behaviour)
        ==>
        && |notes| == 2 * |registry|
        && Round(notes[..|registry|], registry, BeforeEvent, log, Started(source, subject), behaviour, None)
        && Round(notes[|registry|..], registry, AfterEvent, log, log.Snapshot(), behaviour, None)
      ensures r == RequireNonNull(wrapped)
    {
      var w;
      w, log, logged, notes := Wrap(t, source, subject, supplied, behaviour);
      wrapped := w;
      r := RequireNonNull(w);
    }

    /** `step(source, supplier)`: wrap with an empty subject. */
    method Step<T>(t: ThreadId, source: string, supplied: Supplied<T>, behaviour: Behaviour)
      returns (r: Result<Option<T>>, ghost log: SelenideLog, ghost logged: seq<Step>, ghost notes: seq<Notification>)
      modifies this
      ensures fresh(log)
      ensures listeners == Installed(old(listeners), t)
      ensures steps == old(steps) + logged && notifications == old(notifications) + notes
      ensures WrapBehaves(r, logged, log, ThreadListeners(old(listeners), t), source, "", supplied, behaviour)
      ensures log.Snapshot() == logged[|logged| - 1].event
      ensures var registry := ThreadListeners(old(listeners), t);
        |logged| == 2
        && Quiet(registry, BeforeEvent, Started(source, ""), behaviour)
        && Quiet(registry, AfterEvent, log.Snapshot(), behaviour)
        ==>
        && |notes| == 2 * |registry|
        && Round(notes[..|registry|], registry, BeforeEvent, log, Started(source, ""), behaviour, None)
        && Round(notes[|registry|..], registry, AfterEvent, log, log.Snapshot(), behaviour, None)
    {
      r, log, logged, notes := Wrap(t, source, "", supplied, behaviour);
    }

    /** `step(source, runnable)`: run with an empty subject. */
    method StepRunnable(t: ThreadId, source: string, thrown: Option<Throwable>, behaviour: Behaviour)
      returns (escaped: Option<Throwable>, ghost wrapped: Result<Option<()>>, ghost log: SelenideLog, ghost logged: seq<Step>, ghost notes: seq<Notification>)
      modifies this
      ensures fresh(log)
      ensures listeners == Installed(old(listeners), t)
      ensures steps == old(steps) + logged && notifications == old(notifications) + notes
      ensures WrapBehaves(wrapped, logged, log, ThreadListeners(old(listeners), t), source, "", RunnableSupplier(thrown), behaviour)
      ensures log.Snapshot() == logged[|logged| - 1].event
      ensures var registry := ThreadListeners(old(listeners), t);
        |logged| == 2
        && Quiet(registry, BeforeEvent, Started(source, ""), behaviour)
        && Quiet(registry, AfterEvent, log.Snapshot(), behaviour)
        ==>
        && |notes| == 2 * |registry|
        && Round(notes[..|registry|], registry, BeforeEvent, log, Started(source, ""), behaviour, None)
        && Round(notes[|registry|..], registry, AfterEvent, log, log.Snapshot(), behaviour, None)
      ensures escaped == if wrapped.Failure? then Some(wrapped.error) else None
    {
      var w;
      w, log, logged, notes := Wrap(t, source, "", RunnableSupplier(thrown), behaviour);
      wrapped := w;
      escaped := if w.Failure? then Some(w.error) else None;
    }
  }
}
