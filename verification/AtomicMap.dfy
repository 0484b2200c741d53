/** An atomic map from ids to elements. Each call begins, takes effect once, and returns
    what it took effect with. */
module AtomicMap {
  import opened Basics
  import opened PackedIds
  import opened SlotMap

  datatype Call<V> =
    | NoCall
    | Emplacing(value: V)
    | Removing(id: Word, take: bool)
    | Done(outcome: Outcome<V, Word>)

  datatype Spec<V> = Spec(live: map<Word, V>, issued: set<Word>, calls: map<ThreadId, Call<V>>) {
    function CallAt(t: ThreadId): Call<V> {
      if t in calls then calls[t] else NoCall
    }

    function Answer(t: ThreadId, outcome: Outcome<V, Word>): map<ThreadId, Call<V>> {
      calls[t := Done(outcome)]
    }
  }

  datatype Event<V> =
    | Silent
    | Begins(t: ThreadId, call: Call<V>)
    | Returns(t: ThreadId)
    | Issue(t: ThreadId, id: Word)  // an emplace takes effect
    | Refuse(t: ThreadId)           // an emplace finds no slot
    | Remove(t: ThreadId)           // an erase or a move takes effect
    | Miss(t: ThreadId)             // an erase or a move finds its id gone

  /** A call that may have a slot in its hands. */
  predicate Holding<V>(call: Call<V>) {
    call.Emplacing? || (call.Done? && (call.outcome.Erased? || call.outcome.Moved?))
  }

  function Others<V>(s: Spec<V>, t: ThreadId): set<ThreadId> {
    set u | u in s.calls && u != t && Holding(s.calls[u])
  }

  /** What each event does. An id is issued once; a refused emplace means that all
      places are taken by elements and by calls of other threads. */
  ghost predicate Allowed<V>(capacity: nat, s: Spec<V>, e: Event<V>, s': Spec<V>) {
    match e
    case Silent => s' == s
    case Begins(t, call) =>
      s.CallAt(t).NoCall? && (call.Emplacing? || (call.Removing? && call.id in s.issued))
      && s' == s.(calls := s.calls[t := call])
    case Returns(t) => s.CallAt(t).Done? && s' == s.(calls := s.calls[t := NoCall])
    case Issue(t, id) =>
      s.CallAt(t).Emplacing? && id !in s.issued
      && s' == Spec(s.live[id := s.CallAt(t).value], s.issued + {id}, s.Answer(t, Emplaced(id)))
    case Refuse(t) =>
      s.CallAt(t).Emplacing? && capacity <= |s.live| + |Others(s, t)|
      && s' == s.(calls := s.Answer(t, Full))
    case Remove(t) =>
      var call := s.CallAt(t);
      && call.Removing? && call.id in s.live
      && s' == s.(live := s.live - {call.id},
                  calls := s.Answer(t, if call.take then Moved(call.id, s.live[call.id]) else Erased(call.id)))
    case Miss(t) =>
      s.CallAt(t).Removing? && s.CallAt(t).id !in s.live
      && s' == s.(calls := s.Answer(t, Missed))
  }
}
