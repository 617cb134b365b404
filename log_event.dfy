/**
 * The values that the step-logging bus passes around: throwables, the status
 * of a step, the log entry of a step and the records of what the bus did.
 */
module LogEvents {

  datatype Option<+T> = None | Some(value: T)

  /** The identity of the thread that calls the logger (the key of the thread-local). */
  type ThreadId = nat

  /** The identity of a `LogEventListener` object. */
  type ListenerId = nat

  /**
   * A Java throwable, by the branch of the class hierarchy it belongs to and
   * its identity. `NullPointerException` is the one `requireNonNull` throws.
   */
  datatype Throwable =
    | RuntimeException(id: nat)
    | NullPointerException
    | Error(id: nat)
    | CheckedException(id: nat)

  /** What `catch (RuntimeException e)` catches. */
  predicate IsRuntime(x: Throwable) {
    x.RuntimeException? || x.NullPointerException?
  }

  /** What `catch (RuntimeException | Error e)` catches. */
  predicate Catchable(x: Throwable) {
    IsRuntime(x) || x.Error?
  }

  /** A call that returns a value of type T or throws. */
  datatype Result<+T> = Success(value: T) | Failure(error: Throwable)

  datatype EventStatus = IN_PROGRESS | PASS | FAIL

  /** The state of a log entry as a listener sees it at one moment. */
  datatype LogEvent = LogEvent(source: string, subject: string, status: EventStatus, error: Option<Throwable>)

  /** The log entry of one step; `status` and `error` are set when the step is committed. */
  class SelenideLog {
    const source: string
    const subject: string
    var status: EventStatus
    var error: Option<Throwable>

    constructor (source: string, subject: string)
      ensures this.source == source && this.subject == subject
      ensures status == IN_PROGRESS && error == None
    {
      this.source := source;
      this.subject := subject;
      status := IN_PROGRESS;
      error := None;
    }

    function Snapshot(): LogEvent
      reads this
    {
      LogEvent(source, subject, status, error)
    }
  }

  /** The log event of a step that has just begun. */
  function Started(source: string, subject: string): LogEvent {
    LogEvent(source, subject, IN_PROGRESS, None)
  }

  /** Which callback of a listener is called: `beforeEvent` or `afterEvent`. */
  datatype Phase = BeforeEvent | AfterEvent

  /** How one listener callback ends. */
  datatype Outcome = Returned | Threw(thrown: Throwable)

  /** A callback outcome that the listener loops do not catch. */
  predicate Escapes(o: Outcome) {
    o.Threw? && !IsRuntime(o.thrown)
  }

  /**
   * The code of the registered listeners: how the callback `phase` of listener
   * `l` ends when it is handed a log entry in state `event`.
   */
  type Behaviour = (ListenerId, Phase, LogEvent) -> Outcome

  /** One call of a listener callback: the listener registered under `name`. */
  datatype Notification = Notification(
    name: string, listener: ListenerId, phase: Phase,
    log: SelenideLog, event: LogEvent, outcome: Outcome)

  /** One call of `beginStep` or `commitStep`, with the state of the entry it left. */
  datatype Step = Began(log: SelenideLog, event: LogEvent) | Committed(log: SelenideLog, event: LogEvent)
}
