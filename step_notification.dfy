/**
 * One round of listener notification: the loop of `beginStep` and
 * `commitStep` that calls one callback of every listener of the thread,
 * catching the `RuntimeException`s they throw. The loop visits the map's
 * entries in an order nothing promises, so the model picks each next entry
 * arbitrarily.
 */
module StepNotification {
  import opened LogEvents

  /** The names whose listeners the notifications reached. */
  ghost function NotedNames(notes: seq<Notification>): set<string> {
    set i | 0 <= i < |notes| :: notes[i].name
  }

  /** Notifying one more listener adds its name. */
  lemma NotedNamesAppend(notes: seq<Notification>, n: Notification)
    ensures NotedNames(notes + [n]) == NotedNames(notes) + {n.name}
  {
    var longer := notes + [n];
    assert forall i :: 0 <= i < |notes| ==> longer[i] == notes[i];
    assert longer[|notes|] == n;
  }

  /** The positions of the notifications of the listener registered under `name`. */
  ghost function IndicesOf(notes: seq<Notification>, name: string): set<nat> {
    set i: nat | i < |notes| && notes[i].name == name
  }

  /**
   * Every notification calls callback `phase` of a listener registered under
   * its name, hands it the entry `log` in state `event`, ends as that
   * listener's code says, and no name is notified twice.
   */
  ghost predicate WellFormedNotes(
    notes: seq<Notification>, registry: map<string, ListenerId>,
    phase: Phase, log: SelenideLog, event: LogEvent, behaviour: Behaviour)
  {
    && (forall i :: 0 <= i < |notes| ==>
          && notes[i].name in registry
          && notes[i] == Notification(notes[i].name, registry[notes[i].name], phase, log, event,
                                      behaviour(registry[notes[i].name], phase, event)))
    && (forall i, j :: 0 <= i < j < |notes| ==> notes[i].name != notes[j].name)
  }

  /** The throwables that listener callbacks throw and the loop does not catch. */
  ghost function Escaping(registry: map<string, ListenerId>, phase: Phase, event: LogEvent, behaviour: Behaviour): set<Throwable> {
    set n | n in registry && Escapes(behaviour(registry[n], phase, event)) :: behaviour(registry[n], phase, event).thrown
  }

  /** No listener's callback throws anything but a `RuntimeException`. */
  ghost predicate Quiet(registry: map<string, ListenerId>, phase: Phase, event: LogEvent, behaviour: Behaviour) {
    forall n :: n in registry ==> !Escapes(behaviour(registry[n], phase, event))
  }

  /**
   * What one round of the listener loop does: either every registered
   * listener is notified exactly once and nothing escapes, or the loop stops
   * at the first callback that throws something other than a
   * `RuntimeException`, and that throwable escapes.
   */
  ghost predicate Round(
    notes: seq<Notification>, registry: map<string, ListenerId>, phase: Phase,
    log: SelenideLog, event: LogEvent, behaviour: Behaviour, escaped: Option<Throwable>)
  {
    && WellFormedNotes(notes, registry, phase, log, event, behaviour)
    && (escaped.None? <==> Quiet(registry, phase, event, behaviour))
    && (escaped.None? ==> NotedNames(notes) == registry.Keys)
    && (escaped.Some? ==>
          && escaped.value in Escaping(registry, phase, event, behaviour)
          && |notes| > 0
          && notes[|notes| - 1].outcome == Threw(escaped.value))
    && (forall i :: 0 <= i < |notes| - 1 ==> !Escapes(notes[i].outcome))
  }

  /**
   * The listener loop: calls callback `phase` of every listener in `registry`
   * with the entry in state `event`; a `RuntimeException` is caught (and
   * logged) and the loop goes on, anything else leaves the loop.
   */
  method NotifyAll(
    registry: map<string, ListenerId>, phase: Phase, log: SelenideLog,
    event: LogEvent, behaviour: Behaviour)
    returns (notes: seq<Notification>, escaped: Option<Throwable>)
    ensures Round(notes, registry, phase, log, event, behaviour, escaped)
  {
    notes, escaped := [], None;
    var remaining := registry.Keys;
    while remaining != {}
      invariant remaining <= registry.Keys
      invariant WellFormedNotes(notes, registry, phase, log, event, behaviour)
      invariant NotedNames(notes) == registry.Keys - remaining
      invariant forall i :: 0 <= i < |notes| ==> !Escapes(notes[i].outcome)
      decreases remaining
    {
      var name :| name in remaining;
      var listener := registry[name];
      var outcome := behaviour(listener, phase, event);
      ghost var before := notes;
      notes := notes + [Notification(name, listener, phase, log, event, outcome)];
      NotedNamesAppend(before, notes[|notes| - 1]);
      remaining := remaining - {name};
      if outcome.Threw? && !IsRuntime(outcome.thrown) {
        escaped := Some(outcome.thrown);
        assert outcome == behaviour(registry[name], phase, event);
        return;
      }
    }
    forall n | n in registry
      ensures !Escapes(behaviour(registry[n], phase, event))
    {
      assert n in NotedNames(notes);
      var i :| 0 <= i < |notes| && notes[i].name == n;
    }
  }

  /** Names that are pairwise different are as many as the notifications. */
  lemma {:induction false} DistinctNamesCount(notes: seq<Notification>)
    requires forall i, j :: 0 <= i < j < |notes| ==> notes[i].name != notes[j].name
    ensures |NotedNames(notes)| == |notes|
  {
    if notes != [] {
      var init := notes[..|notes| - 1];
      DistinctNamesCount(init);
      assert NotedNames(notes) == NotedNames(init) + {notes[|notes| - 1].name};
      assert notes[|notes| - 1].name !in NotedNames(init);
    }
  }

  /**
   * A round in which nothing escapes calls each registered listener exactly
   * once: as many notifications as listeners, one per name.
   */
  lemma EachNotifiedOnce(
    notes: seq<Notification>, registry: map<string, ListenerId>, phase: Phase,
    log: SelenideLog, event: LogEvent, behaviour: Behaviour)
    requires Round(notes, registry, phase, log, event, behaviour, None)
    ensures |notes| == |registry|
    ensures forall n :: n in registry ==> |IndicesOf(notes, n)| == 1
    ensures forall i :: 0 <= i < |notes| ==> notes[i].listener == registry[notes[i].name] && notes[i].outcome == behaviour(notes[i].listener, phase, event)
  {
    DistinctNamesCount(notes);
    assert |registry.Keys| == |registry|;
    forall n | n in registry
      ensures |IndicesOf(notes, n)| == 1
    {
      assert n in NotedNames(notes);
      var i :| 0 <= i < |notes| && notes[i].name == n;
      assert IndicesOf(notes, n) == {i};
    }
  }
  /**
   * Two complete rounds over the same registry, one after the other: the
   * first `|registry|` notifications are the first round, the rest the second.
   */
  lemma TwoRounds(
    first: seq<Notification>, second: seq<Notification>, registry: map<string, ListenerId>,
    log: SelenideLog, began: LogEvent, committed: LogEvent, behaviour: Behaviour)
    requires Round(first, registry, BeforeEvent, log, began, behaviour, None)
    requires Round(second, registry, AfterEvent, log, committed, behaviour, None)
    ensures |first + second| == 2 * |registry|
    ensures Round((first + second)[..|registry|], registry, BeforeEvent, log, began, behaviour, None)
    ensures Round((first + second)[|registry|..], registry, AfterEvent, log, committed, behaviour, None)
  {
    EachNotifiedOnce(first, registry, BeforeEvent, log, began, behaviour);
    EachNotifiedOnce(second, registry, AfterEvent, log, committed, behaviour);
    assert (first + second)[..|registry|] == first && (first + second)[|registry|..] == second;
  }
}
