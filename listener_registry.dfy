/**
 * The per-thread listener registry as a value: for every thread that has one,
 * the map from listener name to listener. A thread without a key is a thread
 * whose thread-local is still (or again) null.
 */
module ListenerRegistry {
  import opened LogEvents

  type Registries = map<ThreadId, map<string, ListenerId>>

  /** The listeners of thread `t`; a thread without a map has none. */
  function ThreadListeners(s: Registries, t: ThreadId): map<string, ListenerId> {
    if t in s then s[t] else map[]
  }

  /** `hasListener(name)` on thread `t`: `name` is among the thread's listeners, none when the thread has no map. */
  predicate Has(s: Registries, t: ThreadId, name: string)
    ensures Has(s, t, name) <==> name in ThreadListeners(s, t)
  {
    t in s && name in s[t]
  }

  /** `getListener(name)` on thread `t`: None stands for null. */
  function Lookup(s: Registries, t: ThreadId, name: string): (r: Option<ListenerId>)
    ensures r.Some? <==> Has(s, t, name)
    ensures r.Some? ==> name in ThreadListeners(s, t) && ThreadListeners(s, t)[name] == r.value
  {
    if t !in s then None
    else if name in s[t] then Some(s[t][name])
    else None
  }

  /** The registries after `addListener(name, l)` on thread `t`. */
  function Added(s: Registries, t: ThreadId, name: string, l: ListenerId): (r: Registries)
    ensures Lookup(r, t, name) == Some(l) && Has(r, t, name)
    ensures forall u, n :: (u != t || n != name) ==> Lookup(r, u, n) == Lookup(s, u, n)
    ensures r.Keys == s.Keys + {t}
    ensures forall u :: u != t && u in s ==> r[u] == s[u]
  {
    var threadListeners := ThreadListeners(s, t);
    s[t := threadListeners[name := l]]
  }

  /** The registries after `removeListener(name)` on thread `t`. */
  function Removed(s: Registries, t: ThreadId, name: string): (r: Registries)
    ensures !Has(r, t, name) && Lookup(r, t, name) == None
    ensures forall u, n :: (u != t || n != name) ==> Lookup(r, u, n) == Lookup(s, u, n)
    ensures r.Keys == s.Keys
    ensures forall u :: u != t && u in s ==> r[u] == s[u]
  {
    if t in s then s[t := s[t] - {name}] else s
  }

  /** The registries after `removeAllListeners()` on thread `t`. */
  function Cleared(s: Registries, t: ThreadId): (r: Registries)
    ensures forall n :: !Has(r, t, n)
    ensures forall u, n :: u != t ==> Lookup(r, u, n) == Lookup(s, u, n)
    ensures r.Keys == s.Keys - {t}
    ensures forall u :: u != t && u in s ==> r[u] == s[u]
  {
    s - {t}
  }

  /**
   * The registries after `getEventLoggerListeners()` on thread `t`: an empty
   * map is installed when the thread has none.
   */
  function Installed(s: Registries, t: ThreadId): (r: Registries)
    ensures t in r && r[t] == ThreadListeners(s, t)
    ensures forall u, n :: Lookup(r, u, n) == Lookup(s, u, n)
    ensures forall u, n :: Has(r, u, n) <==> Has(s, u, n)
    ensures forall u :: u != t ==> (u in r <==> u in s)
    ensures forall u :: u != t && u in s ==> r[u] == s[u]
  {
    if t in s then s else s[t := map[]]
  }

  /** Installing the empty map changes no thread's listeners, so installing twice is installing once. */
  lemma InstalledIdempotent(s: Registries, t: ThreadId)
    ensures Installed(Installed(s, t), t) == Installed(s, t)
    ensures forall u :: ThreadListeners(Installed(s, t), u) == ThreadListeners(s, u)
  {
  }

  /** Removing what was just added leaves every lookup as it was before the add. */
  lemma RemoveUndoesAdd(s: Registries, t: ThreadId, name: string, l: ListenerId)
    ensures forall u, n :: Lookup(Removed(Added(s, t, name, l), t, name), u, n) == Lookup(Removed(s, t, name), u, n)
    ensures !Has(s, t, name) ==> forall u, n :: Lookup(Removed(Added(s, t, name, l), t, name), u, n) == Lookup(s, u, n)
  {
  }

  /** Registering a name twice keeps only the second listener. */
  lemma AddOverwrites(s: Registries, t: ThreadId, name: string, l1: ListenerId, l2: ListenerId)
    ensures Added(Added(s, t, name, l1), t, name, l2) == Added(s, t, name, l2)
  {
    var twice, once := Added(Added(s, t, name, l1), t, name, l2), Added(s, t, name, l2);
    var m: map<string, ListenerId> := ThreadListeners(s, t);
    assert m[name := l1][name := l2] == m[name := l2];
    assert twice[t] == once[t];
    assert forall u :: u in twice ==> u in once && twice[u] == once[u];
  }

  /** Whatever a thread does to its own registry is invisible from another thread. */
  lemma ThreadIsolation(s: Registries, t: ThreadId, u: ThreadId, name: string, l: ListenerId)
    requires u != t
    ensures ThreadListeners(Added(s, t, name, l), u) == ThreadListeners(s, u)
    ensures ThreadListeners(Removed(s, t, name), u) == ThreadListeners(s, u)
    ensures ThreadListeners(Cleared(s, t), u) == ThreadListeners(s, u)
    ensures ThreadListeners(Installed(s, t), u) == ThreadListeners(s, u)
  {
  }
}
