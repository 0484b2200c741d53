/** An atomic deque, with the calls of one owner and many thieves. Each call begins,
    takes effect once, and returns what it took effect with. */
module AtomicDeque {
  import opened Basics
  import opened WorkQueue

  datatype OwnerCall<E> =
    | NoCall
    | Pushing(value: E)
    | Pushed(ok: bool)
    | Pulling
    | Pulled(result: Option<E>)

  datatype ThiefCall<E> =
    | NoSteal
    | Stealing
    | Stolen(result: Option<E>)

  datatype Spec<E> = Spec(deque: seq<E>, owner: OwnerCall<E>, thieves: map<ThiefId, ThiefCall<E>>) {
    function At(t: ThiefId): ThiefCall<E> {
      if t in thieves then thieves[t] else NoSteal
    }
  }

  datatype Event<E> =
    | Silent
    | OwnerBegins(call: OwnerCall<E>)
    | OwnerEnds
    | ThiefBegins(t: ThiefId)
    | ThiefEnds(t: ThiefId)
    | Append(value: E)              // a push takes effect
    | Refuse                        // a push finds the queue full
    | TakeBack(value: E)            // a pull takes effect
    | PullNothing
    | TakeFront(t: ThiefId, value: E)
    | StealNothing(t: ThiefId)

  /** What each event does. A refused push sees at most one free place below the
      ring's size; a pull that yields nothing sees at most one element. */
  ghost predicate Allowed<E>(capacity: nat, s: Spec<E>, e: Event<E>, s': Spec<E>) {
    match e
    case Silent => s' == s
    case OwnerBegins(call) =>
      s.owner.NoCall? && (call.Pushing? || call.Pulling?) && s' == s.(owner := call)
    case OwnerEnds => (s.owner.Pushed? || s.owner.Pulled?) && s' == s.(owner := NoCall)
    case ThiefBegins(t) =>
      s.At(t).NoSteal? && s' == s.(thieves := s.thieves[t := Stealing])
    case ThiefEnds(t) =>
      s.At(t).Stolen? && s' == s.(thieves := s.thieves[t := NoSteal])
    case Append(v) =>
      s.owner == Pushing(v) && |s.deque| < capacity
      && s' == s.(deque := s.deque + [v], owner := Pushed(true))
    case Refuse =>
      s.owner.Pushing? && |s.deque| >= capacity - 1 && s' == s.(owner := Pushed(false))
    case TakeBack(v) =>
      s.owner == Pulling && s.deque == s'.deque + [v] && s' == s.(deque := s'.deque, owner := Pulled(Some(v)))
    case PullNothing =>
      s.owner == Pulling && |s.deque| <= 1 && s' == s.(owner := Pulled(None))
    case TakeFront(t, v) =>
      s.At(t) == Stealing && s.deque == [v] + s'.deque
      && s' == s.(deque := s'.deque, thieves := s.thieves[t := Stolen(Some(v))])
    case StealNothing(t) =>
      s.At(t) == Stealing && s' == s.(thieves := s.thieves[t := Stolen(None)])
  }
}
