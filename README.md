# SelenideLogger step-logging bus, in Dafny

This project models `SelenideLogger`, the class through which Selenide logs
its test steps and notifies the `LogEventListener`s registered on the calling
thread. The model has three parts.

- **Per-thread listener registry** (`listener_registry.dfy`, and the registry
  methods of `Logger.SelenideLogger` in `logger.dfy`). The thread-local map of
  listeners becomes a field `listeners: map<ThreadId, map<string, ListenerId>>`.
  Each method receives the calling thread as a parameter `t`. A thread without
  a key is a thread whose thread-local is null. The functions `Added`,
  `Removed`, `Cleared` and `Installed` state the effect of `addListener`,
  `removeListener`, `removeAllListeners` and `getEventLoggerListeners`. Lemmas
  relate them: a second add overwrites, remove undoes add, the lazy install is
  invisible, and other threads are never touched.
- **Step protocol** (`log_event.dfy`, `step_notification.dfy`,
  `step_protocol.dfy` and the step methods of `Logger.SelenideLogger`).
  - A log entry is a `SelenideLog` object whose status and error the step
    methods update in place. It starts IN_PROGRESS and moves to PASS or FAIL.
  - The listener loop of `beginStep` and `commitStep` is the method
    `StepNotification.NotifyAll`. It catches `RuntimeException` and goes on;
    any other throwable (an `Error`, or a checked exception thrown sneakily)
    leaves the loop. The predicate `Round` states exactly what one loop does.
  - What each listener callback does is a function parameter
    `behaviour: (ListenerId, Phase, LogEvent) -> Outcome`.
  - Two ghost fields of the logger record what the outside world sees:
    `notifications`, every callback made, and `steps`, every begun and
    committed step.
  - `StepProtocol.WrapBehaves` states what `wrap` does for every combination of
    supplier outcome and listener outcome. The method
    `Logger.SelenideLogger.Wrap` is proved against it. The lemmas beside it
    derive the promises of `wrap`: one begin, then one commit; PASS and the
    value when the supplier returns; FAIL and the same exception when it throws;
    and never a swallowed exception.
- **Subject formatting** (`readable_subject.dfy`). `readableMethodName` puts a
  space before every upper-case letter `A`–`Z`, then lower-cases the whole
  string. `getReadableSubject` appends the argument text in parentheses. Both
  are functions built from two recursive string rewrites, `SpaceBeforeUpper`
  and `LowerCase`. Their contracts give the length and rule out upper-case
  letters, and lemmas cover position, idempotence and the example
  `shouldHave`.

Behaviour of the code that the model keeps as written:

- If a listener's `afterEvent` throws an `Error` while `wrap` commits PASS,
  `wrap`'s own `catch (RuntimeException | Error e)` catches it. The same
  entry is then committed a second time, as FAIL with that `Error`, and the
  `Error` is thrown instead of the supplier's value. The exception is a
  listener's `afterEvent` that throws past the loop again during that second
  commit: the second `commitStep` runs inside the catch block, so the new
  throwable is thrown instead. `StepProtocol.ListenerErrorRecommits` proves
  the first case on a concrete listener.
- "Exactly one commit" is proved (`StepProtocol.WrapOneBeginOneCommit`) when
  every listener throws at most `RuntimeException`s and the supplier throws no
  checked exception. Otherwise there may be no commit (a checked exception
  from the supplier, or anything but a `RuntimeException` from `beforeEvent`)
  or two (an `Error` from `afterEvent` on PASS).
- A checked exception from the supplier is not caught by `wrap`: no commit is
  logged and the step stays IN_PROGRESS.
- If `beforeEvent` throws anything but a `RuntimeException`, `beginStep` throws, and `wrap` neither
  runs the supplier nor commits.

## Model

| member | source | states |
|---|---|---|
| ListenerRegistry.Has | src/main/java/com/codeborne/selenide/logevents/SelenideLogger.java:173-176 | `hasListener(name)` holds exactly when `name` is among the thread's listeners, of which a thread without a map has none |
| ListenerRegistry.Lookup | src/main/java/com/codeborne/selenide/logevents/SelenideLogger.java:157-160 | `getListener(name)` is non-null exactly when the thread has a map holding `name`, and is then the listener stored under `name` |
| ListenerRegistry.Added | src/main/java/com/codeborne/selenide/logevents/SelenideLogger.java:36-44 | after `addListener(name, l)` the lookup of `name` on `t` gives `l` and `hasListener` holds; every other (thread, name) lookup is unchanged; `t` gains a map; other threads' maps are identical |
| ListenerRegistry.Removed | src/main/java/com/codeborne/selenide/logevents/SelenideLogger.java:150-153 | after `removeListener(name)`, `name` is absent on `t`; every other (thread, name) lookup is unchanged; no thread gains or loses its map |
| ListenerRegistry.Cleared | src/main/java/com/codeborne/selenide/logevents/SelenideLogger.java:162-164 | after `removeAllListeners()` no name is registered on `t` and `t` has no map; other threads' lookups and maps are unchanged |
| ListenerRegistry.Installed | src/main/java/com/codeborne/selenide/logevents/SelenideLogger.java:133-138 | `getEventLoggerListeners` leaves `t` with a map equal to its previous listeners (empty if none); no lookup and no `hasListener` answer changes on any thread |
| ListenerRegistry.InstalledIdempotent | src/main/java/com/codeborne/selenide/logevents/SelenideLogger.java:133-138 | installing twice is installing once, and installing changes no thread's listeners |
| ListenerRegistry.RemoveUndoesAdd | src/main/java/com/codeborne/selenide/logevents/SelenideLogger.java:150-153 | removing a name just added gives every lookup of removing it without the add; when the name was absent, every lookup of before the add |
| ListenerRegistry.AddOverwrites | src/main/java/com/codeborne/selenide/logevents/SelenideLogger.java:42 | adding a listener under a name already taken replaces the earlier one: two adds equal the second add alone |
| ListenerRegistry.ThreadIsolation | src/main/java/com/codeborne/selenide/logevents/SelenideLogger.java:26 | add, remove, remove-all and the lazy install on thread `t` leave the listeners of every other thread unchanged |
| Logger.SelenideLogger.constructor | src/main/java/com/codeborne/selenide/logevents/SelenideLogger.java:26 | initially no thread has a listener map, and no callback or step is recorded |
| Logger.SelenideLogger.HasListener | src/main/java/com/codeborne/selenide/logevents/SelenideLogger.java:173-176 | `hasListener(name)` on thread `t` holds exactly when `name` is among the thread's current listeners |
| Logger.SelenideLogger.GetListener | src/main/java/com/codeborne/selenide/logevents/SelenideLogger.java:157-160 | `getListener(name)` is non-null exactly when `hasListener(name)` holds, and is then the stored listener |
| Logger.SelenideLogger.AddListener | src/main/java/com/codeborne/selenide/logevents/SelenideLogger.java:36-44 | the registries become `Added(old, t, name, listener)`, so `getListener(name)` returns `listener` and `hasListener(name)` holds; no callback or step is recorded |
| Logger.SelenideLogger.RemoveListener | src/main/java/com/codeborne/selenide/logevents/SelenideLogger.java:150-153 | returns the listener stored under `name` before the call, or None when the thread has no map or no such entry; the registries become `Removed(old, t, name)` and `hasListener(name)` is false |
| Logger.SelenideLogger.RemoveAllListeners | src/main/java/com/codeborne/selenide/logevents/SelenideLogger.java:162-164 | the registries become `Cleared(old, t)`: `hasListener(n)` is false for every `n` on `t` |
| Logger.SelenideLogger.GetEventLoggerListeners | src/main/java/com/codeborne/selenide/logevents/SelenideLogger.java:133-138 | returns the thread's listeners before the call and installs an empty map when none exists; `hasListener` and `getListener` answer as before for every name |
| StepNotification.NotifyAll | src/main/java/com/codeborne/selenide/logevents/SelenideLogger.java:62-69 | the listener loop satisfies `Round`: each registered name's listener is called with its own outcome, and no name twice; when no callback throws past the `RuntimeException` catch, every registered listener is called; otherwise the loop stops at a callback whose non-runtime throwable escapes |
| StepNotification.EachNotifiedOnce | src/main/java/com/codeborne/selenide/logevents/SelenideLogger.java:82-89 | a round in which nothing escapes makes as many callbacks as there are listeners, exactly one per registered name, each with that listener's outcome |
| StepNotification.TwoRounds | src/main/java/com/codeborne/selenide/logevents/SelenideLogger.java:121-124 | a complete `beforeEvent` round followed by a complete `afterEvent` round makes `2 * |registry|` callbacks: the first half is the first round, the second half the second |
| LogEvents.SelenideLog.constructor | src/main/java/com/codeborne/selenide/logevents/SelenideLogger.java:61 | a new entry carries the given source and subject, status IN_PROGRESS and no error |
| Logger.SelenideLogger.BeginStep | src/main/java/com/codeborne/selenide/logevents/SelenideLogger.java:58-71 | creates a fresh entry with the given source and subject in progress, logs its begin, installs the thread's map, and runs one `beforeEvent` round over the thread's listeners; returns the entry when the round is quiet, else throws what escaped |
| Logger.SelenideLogger.BeginStepFor | src/main/java/com/codeborne/selenide/logevents/SelenideLogger.java:46-48 | `beginStep` with the subject `Subject(methodName, argsText)`: a fresh entry in progress without error, one `beforeEvent` round over the thread's listeners |
| Logger.SelenideLogger.CommitStep | src/main/java/com/codeborne/selenide/logevents/SelenideLogger.java:78-90 | sets the entry's status and keeps its error, logs the commit with the entry's new state, and runs one `afterEvent` round over the thread's listeners |
| Logger.SelenideLogger.CommitStepWithError | src/main/java/com/codeborne/selenide/logevents/SelenideLogger.java:73-76 | records `error`, sets FAIL, logs the commit and runs one `afterEvent` round |
| Logger.SelenideLogger.Wrap | src/main/java/com/codeborne/selenide/logevents/SelenideLogger.java:120-131 | the result and the steps logged satisfy `WrapBehaves`, and the entry ends in the state of its last logged step; when both rounds are quiet and the step is committed once, the callbacks are one full `beforeEvent` round and then one full `afterEvent` round |
| Logger.SelenideLogger.SupplyAndCommit | src/main/java/com/codeborne/selenide/logevents/SelenideLogger.java:122-130 | the try block and catch block of `wrap` satisfy `TryBehaves`: PASS then the value, or FAIL with what was caught, or no commit for a checked throwable |
| Logger.SelenideLogger.Run | src/main/java/com/codeborne/selenide/logevents/SelenideLogger.java:92-98 | `wrap` of the supplier that runs the runnable and returns null; throws exactly what `wrap` throws; the entry ends in the state of its last logged step, and with quiet rounds and one commit the listeners see one full `beforeEvent` round then one full `afterEvent` round |
| Logger.SelenideLogger.Get | src/main/java/com/codeborne/selenide/logevents/SelenideLogger.java:100-102 | returns `requireNonNull` of what `wrap` returns; the entry ends in the state of its last logged step, and with quiet rounds and one commit the listeners see one full `beforeEvent` round then one full `afterEvent` round |
| Logger.SelenideLogger.Step | src/main/java/com/codeborne/selenide/logevents/SelenideLogger.java:106-108 | `wrap` with an empty subject, with `wrap`'s steps, final entry state and listener rounds |
| Logger.SelenideLogger.StepRunnable | src/main/java/com/codeborne/selenide/logevents/SelenideLogger.java:110-116 | `run` with an empty subject, with its steps, final entry state and listener rounds |
| StepProtocol.RunnableSupplier | src/main/java/com/codeborne/selenide/logevents/SelenideLogger.java:93-97 | the supplier built from a runnable returns null exactly when the runnable returns, and otherwise throws what the runnable threw |
| StepProtocol.RequireNonNull | src/main/java/com/codeborne/selenide/logevents/SelenideLogger.java:101 | a non-null value passes through; null becomes a `NullPointerException`; a throwable propagates unchanged |
| StepProtocol.WrapReturnsSuppliedValue | src/main/java/com/codeborne/selenide/logevents/SelenideLogger.java:122-125 | when the supplier returns and no callback throws past the loops, the steps are one begin then one PASS commit without error, and the supplier's value is returned |
| StepProtocol.WrapRethrowsSame | src/main/java/com/codeborne/selenide/logevents/SelenideLogger.java:127-130 | when the supplier throws a `RuntimeException` or an `Error` and no callback throws past the loops, the steps are one begin then one FAIL commit recording that exception, and the same exception is thrown |
| StepProtocol.WrapOneBeginOneCommit | src/main/java/com/codeborne/selenide/logevents/SelenideLogger.java:120-131 | with listeners that throw at most `RuntimeException`s and an unchecked supplier, exactly one begin then exactly one commit of the same entry; the commit is PASS exactly when `wrap` returns, which is exactly when the supplier returns |
| StepProtocol.WrapNeverSwallows | src/main/java/com/codeborne/selenide/logevents/SelenideLogger.java:120-131 | for any listeners, a returned value is the supplier's own; a throwing supplier always makes `wrap` throw, either that exception or one escaping a listener round; there are one to three steps, the first the begin and the rest commits of the same entry |
| StepProtocol.ListenerErrorRecommits | src/main/java/com/codeborne/selenide/logevents/SelenideLogger.java:124-129 | a listener whose `afterEvent` throws an `Error` on PASS makes `wrap` commit PASS, then commit the same entry as FAIL with that `Error`, then throw it |
| ReadableSubject.Subject | src/main/java/com/codeborne/selenide/logevents/SelenideLogger.java:50-52 | the subject is the readable method name, `(`, the argument text and `)`; its length is the name's length plus its upper-case letters plus the arguments plus 2; the name part has no upper-case letter |
| ReadableSubject.SpaceBeforeUpper | src/main/java/com/codeborne/selenide/logevents/SelenideLogger.java:55 | `replaceAll(" $1")` of `([A-Z])` makes the string one character longer per upper-case letter and keeps the number of upper-case letters |
| ReadableSubject.SpaceBeforeUpperAt | src/main/java/com/codeborne/selenide/logevents/SelenideLogger.java:55 | character `i` of the input lands at `i` plus the number of upper-case letters before it, unchanged; an upper-case letter is preceded there by a space |
| ReadableSubject.LowerCase | src/main/java/com/codeborne/selenide/logevents/SelenideLogger.java:55 | `toLowerCase(ROOT)` keeps the length and lower-cases each character in its place |
| ReadableSubject.ReadableMethodName | src/main/java/com/codeborne/selenide/logevents/SelenideLogger.java:54-56 | the readable name is one character longer than the method name per upper-case letter, and contains no letter `A`–`Z` |
| ReadableSubject.ReadableAt | src/main/java/com/codeborne/selenide/logevents/SelenideLogger.java:55 | character `i` of the method name lands at `i` plus the number of upper-case letters before it: an upper-case letter as a space followed by its lower-case form, any other character unchanged |
| ReadableSubject.ReadableAppend | src/main/java/com/codeborne/selenide/logevents/SelenideLogger.java:55 | the rewrite works character by character: the readable name of a concatenation is the concatenation of the readable names |
| ReadableSubject.ReadableOfLowerIsItself | src/main/java/com/codeborne/selenide/logevents/SelenideLogger.java:55 | a method name without upper-case letters is its own readable name |
| ReadableSubject.ReadableIdempotent | src/main/java/com/codeborne/selenide/logevents/SelenideLogger.java:54-56 | making a readable name readable again changes nothing |
| ReadableSubject.TwoWords | src/main/java/com/codeborne/selenide/logevents/SelenideLogger.java:54-56 | a camel-case name of two lower-case words becomes the two words, lower-cased, separated by one space |
| ReadableSubject.ShouldHave | src/main/java/com/codeborne/selenide/logevents/SelenideLogger.java:54-56 | `shouldHave` becomes `should have` |

## Left out

- `Clear.java` is not part of this model. It only calls into the browser driver.
- The SLF4J `LOG.error` calls in the listener loops (lines 67 and 87) are output only. The model catches the exception and goes on, and does not log.
- `ArgumentsPrinter.readableArguments` is not part of this model. Its text is the parameter `argsText` of `BeginStepFor` and `Subject`.
- `toLowerCase(ROOT)` and the pattern `[A-Z]` are modelled on ASCII letters only. Other characters are kept as they are, so locale and Unicode lower-casing are not covered.
- `ThreadLocal` and real concurrency: the calling thread is an explicit parameter `t` and each call runs on its own, without interleaving.
- `HashMap` iteration order: the listener loop picks its next entry arbitrarily, and the contracts promise no order.
- Listener implementations are a function from (listener, callback, entry state) to an outcome. A listener that changes the entry, registers listeners or starts a nested step is not modelled.
- The supplier is reduced to its outcome (`Supplied`): it returns a value or null, or it throws. Its side effects on the logger (nested steps, listener changes) are not modelled.
- `SelenideLog.java` is not part of this model. The entry's fields other than source, subject, status and error are left out. The entry's status is assumed to start IN_PROGRESS, as in Selenide's `SelenideLog`, and its error to start absent; the constructor's contract states that assumption.
- Logger.SelenideLogger.Wrap: the notifications are described only when both rounds are quiet and the step is committed once. On the other paths, only their step trace and result are stated.
- Logger.SelenideLogger.Run: carries the contract of `Wrap`, so its notifications are described only when both rounds are quiet and the step is committed once.
- Logger.SelenideLogger.Get: carries the contract of `Wrap`, so its notifications are described only when both rounds are quiet and the step is committed once.
- Logger.SelenideLogger.Step: carries the contract of `Wrap` with an empty subject, so its notifications are described only when both rounds are quiet and the step is committed once.
- Logger.SelenideLogger.StepRunnable: carries the contract of `Wrap` for the runnable's supplier, so its notifications are described only when both rounds are quiet and the step is committed once.
- A retry, polling or timeout engine is not present in the modelled source and is not invented here.
