/** The publication queue that serializes every ledger write of one process, and that
    the first failed write closes for good. */
module Publication {
  import opened Standard

  /** The fold that gives a ledger its meaning.  A run's is the reducer of its events;
      nothing here depends on more than that it may refuse an event. */
  datatype Reducer<!State, !Event> = Reducer(initial: State, accepts: (State, Event) -> bool,
    effect: (State, Event) -> State)

  /** A requested write.  Most read the next sequence number when their turn comes; a
      stamped one read it when it was requested. */
  datatype Request<E> = Request(payload: E, stamp: Option<nat>)

  datatype Entry<E> = Entry(sequence: nat, payload: E)

  /** What may go wrong at a turn: the operation throws first, the store loses the
      write, or the store keeps the write and still reports an error. */
  datatype Fault = NoFault | OperationThrows | WriteLost | AcknowledgementLost

  datatype Act<E> = Ask(request: Request<E>) | Turn(fault: Fault)

  /** The in-memory state, the durable entries and the requests still waiting. */
  datatype Journal<S, E> = Journal(state: S, last: nat, entries: seq<Entry<E>>, queue: seq<Request<E>>, poisoned: bool)

  function Opened<S, E>(m: Reducer<S, E>): Journal<S, E> {
    Journal(m.initial, 0, [], [], false)
  }

  function SequenceOf<S, E>(j: Journal<S, E>, r: Request<E>): nat {
    if r.stamp.Some? then r.stamp.value else j.last + 1
  }

  /** The reducer accepts the entry at this point. */
  predicate Admits<S, E>(m: Reducer<S, E>, j: Journal<S, E>, r: Request<E>) {
    SequenceOf(j, r) == j.last + 1 && m.accepts(j.state, r.payload)
  }

  function Acted<S, E>(m: Reducer<S, E>, j: Journal<S, E>, act: Act<E>): (j': Journal<S, E>) {
    match act
    case Ask(r) => j.(queue := j.queue + [r])
    case Turn(fault) =>
      if |j.queue| == 0 then j
      else
        var r, rest := j.queue[0], j.queue[1..];
        if j.poisoned then j.(queue := rest)
        else if fault.OperationThrows? || !Admits(m, j, r) then j.(queue := rest, poisoned := true)
        else
          var entry := Entry(SequenceOf(j, r), r.payload);
          if fault.WriteLost? then j.(queue := rest, poisoned := true)
          else if fault.AcknowledgementLost? then j.(queue := rest, poisoned := true, entries := j.entries + [entry])
          else Journal(m.effect(j.state, r.payload), j.last + 1, j.entries + [entry], rest, false)
  }

  function After<S, E>(m: Reducer<S, E>, acts: seq<Act<E>>): (j: Journal<S, E>) {
    if |acts| == 0 then Opened(m) else Acted(m, After(m, acts[..|acts| - 1]), acts[|acts| - 1])
  }

  /** Everything requested, in order. */
  function Asked<E>(acts: seq<Act<E>>): seq<Request<E>> {
    if |acts| == 0 then []
    else
      var before := Asked(acts[..|acts| - 1]);
      match acts[|acts| - 1] case Ask(r) => before + [r] case Turn(_) => before
  }

  /** The reducer's fold of some entries. */
  function Folded<S, E>(m: Reducer<S, E>, entries: seq<Entry<E>>): (s: Option<S>) {
    if |entries| == 0 then Some(m.initial)
    else match Folded(m, entries[..|entries| - 1])
      case None => None
      case Some(s) =>
        var e := entries[|entries| - 1].payload;
        if m.accepts(s, e) then Some(m.effect(s, e)) else None
  }

  /** The journal agrees with what was asked of it. */
  ghost predicate Faithful<S, E>(m: Reducer<S, E>, j: Journal<S, E>, asked: seq<Request<E>>) {
    // Sequence numbers leave no gap.
    && (forall i | 0 <= i < |j.entries| :: j.entries[i].sequence == i + 1)
    // The durable entries are the first requests, in the order they were made.
    && |j.entries| <= |asked| && (forall i | 0 <= i < |j.entries| :: j.entries[i].payload == asked[i].payload)
    // Memory is the fold of the confirmed entries; at most one more is durable.
    && j.last <= |j.entries| <= j.last + 1 && Folded(m, j.entries[..j.last]) == Some(j.state)
    && Folded(m, j.entries).Some?
    // Until a failure, nothing is lost: what is not durable still waits.
    && (!j.poisoned ==> |j.entries| == j.last && asked[j.last..] == j.queue)
  }

  lemma ActKeepsFaith<S, E>(m: Reducer<S, E>, j: Journal<S, E>, asked: seq<Request<E>>, act: Act<E>)
    requires Faithful(m, j, asked)
    ensures Faithful(m, Acted(m, j, act), if act.Ask? then asked + [act.request] else asked)
  {
    var j' := Acted(m, j, act);
    if act.Ask? {
      assert !j.poisoned ==> (asked + [act.request])[j.last..] == asked[j.last..] + [act.request];
    } else if |j'.entries| > |j.entries| {
      assert asked[j.last] == j.queue[0];
      assert j'.entries[..|j.entries|] == j.entries == j.entries[..j.last];
      assert j'.entries[..j.last] == j.entries;
      assert asked[j.last + 1..] == j.queue[1..];
      assert j'.entries[..j.last + 1] == j'.entries;
    }
  }

  /** Whatever the interleaving of requests, turns and faults, the in-memory state is
      the fold of the confirmed entries, the sequence numbers leave no gap, and the
      entries are a prefix of the requests in the order they were made. */
  lemma {:induction false} JournalIsFaithful<S, E>(m: Reducer<S, E>, acts: seq<Act<E>>)
    ensures Faithful(m, After(m, acts), Asked(acts))
  {
    if |acts| > 0 {
      var before := acts[..|acts| - 1];
      JournalIsFaithful(m, before);
      ActKeepsFaith(m, After(m, before), Asked(before), acts[|acts| - 1]);
    }
  }

  /** After one failed publication nothing further is written, and memory stands still. */
  lemma {:induction false} NothingFollowsAFailure<S, E>(m: Reducer<S, E>, acts: seq<Act<E>>, i: nat)
    requires i <= |acts| && After(m, acts[..i]).poisoned
    ensures After(m, acts).poisoned
    ensures After(m, acts).entries == After(m, acts[..i]).entries
    ensures After(m, acts).state == After(m, acts[..i]).state
  {
    if i == |acts| {
      assert acts[..i] == acts;
    } else {
      var before := acts[..|acts| - 1];
      assert before[..i] == acts[..i];
      NothingFollowsAFailure(m, before, i);
    }
  }

  /** How many of the requests have had their turn, however it went. */
  function Taken<E>(acts: seq<Act<E>>): nat {
    if |acts| == 0 then 0
    else
      var before := acts[..|acts| - 1];
      Taken(before) + if acts[|acts| - 1].Turn? && Taken(before) < |Asked(before)| then 1 else 0
  }

  /** Each turn takes exactly the first waiting request, also after a failure: those that
      still wait are the ones asked last. */
  lemma {:induction false} TurnsTakeInOrder<S, E>(m: Reducer<S, E>, acts: seq<Act<E>>)
    ensures Taken(acts) <= |Asked(acts)| && After(m, acts).queue == Asked(acts)[Taken(acts)..]
  {
    if |acts| > 0 {
      TurnsTakeInOrder(m, acts[..|acts| - 1]);
    }
  }

  // ---------------------------------------------------------------------
  // Sequence numbers read too early
  // ---------------------------------------------------------------------

  /** The journal after its first k waiting requests have had their turns, all well. */
  function Served<S, E>(m: Reducer<S, E>, j: Journal<S, E>, k: nat): (j': Journal<S, E>) {
    if k == 0 then j else Acted(m, Served(m, j, k - 1), Turn(NoFault))
  }

  lemma {:induction false} ServedCounts<S, E>(m: Reducer<S, E>, j: Journal<S, E>, k: nat)
    requires k <= |j.queue| && !Served(m, j, k).poisoned
    ensures Served(m, j, k).last == j.last + k && Served(m, j, k).queue == j.queue[k..]
  {
    if k > 0 {
      ServedCounts(m, j, k - 1);
    }
  }

  /** A request that read the sequence number when it was made survives its turn exactly
      when nothing was waiting then and the reducer accepts its payload; otherwise it
      closes the queue. */
  lemma EarlyStampNeedsEmptyQueue<S, E>(m: Reducer<S, E>, j: Journal<S, E>, e: E)
    requires !j.poisoned
    requires var asked := Acted(m, j, Ask(Request(e, Some(j.last + 1))));
             !Served(m, asked, |j.queue|).poisoned
    ensures var asked := Acted(m, j, Ask(Request(e, Some(j.last + 1))));
            !Served(m, asked, |j.queue| + 1).poisoned <==> j.queue == [] && m.accepts(j.state, e)
  {
    var asked := Acted(m, j, Ask(Request(e, Some(j.last + 1))));
    ServedCounts(m, asked, |j.queue|);
  }

  /** A request that reads the number at its turn is refused only for its payload. */
  lemma LateStampNeedsOnlyThePayload<S, E>(m: Reducer<S, E>, j: Journal<S, E>, e: E)
    requires !j.poisoned
    requires var asked := Acted(m, j, Ask(Request(e, None)));
             !Served(m, asked, |j.queue|).poisoned
    ensures var asked := Acted(m, j, Ask(Request(e, None)));
            !Served(m, asked, |j.queue| + 1).poisoned <==> m.accepts(Served(m, asked, |j.queue|).state, e)
  {
    var asked := Acted(m, j, Ask(Request(e, None)));
    ServedCounts(m, asked, |j.queue|);
  }

  // ---------------------------------------------------------------------
  // The queue as the process holds it
  // ---------------------------------------------------------------------

  class Publisher<!S, !E> {
    const m: Reducer<S, E>
    var state: S
    var last: nat
    var store: seq<Entry<E>>
    var queue: seq<Request<E>>
    var poisoned: bool
    ghost var asked: seq<Request<E>>

    ghost function View(): Journal<S, E>
      reads this
    {
      Journal(state, last, store, queue, poisoned)
    }

    ghost predicate Valid()
      reads this
    {
      Faithful(m, View(), asked)
    }

    constructor (m: Reducer<S, E>)
      ensures Valid() && this.m == m && View() == Opened(m) && asked == []
    {
      this.m := m;
      state := m.initial;
      last, store, queue, poisoned, asked := 0, [], [], false, [];
    }

    method Publish(r: Request<E>)
      requires Valid()
      modifies this
      ensures Valid() && View() == Acted(m, old(View()), Ask(r)) && asked == old(asked) + [r]
    {
      ActKeepsFaith(m, View(), asked, Ask(r));
      queue := queue + [r];
      asked := asked + [r];
    }

    /** The turn of the first waiting request: validate, make durable, apply. */
    method TakeTurn(fault: Fault) returns (published: bool)
      requires Valid() && |queue| > 0
      modifies this
      ensures Valid() && View() == Acted(m, old(View()), Turn(fault)) && asked == old(asked)
      ensures published <==> !poisoned
      ensures published ==> last == old(last) + 1 && store == old(store) + [Entry(last, old(queue)[0].payload)]
      ensures old(poisoned) ==> store == old(store) && state == old(state)
    {
      ActKeepsFaith(m, View(), asked, Turn(fault));
      var r := queue[0];
      var sequence := if r.stamp.Some? then r.stamp.value else last + 1;
      ghost var after := Acted(m, View(), Turn(fault));
      queue := queue[1..];
      if poisoned {
        assert View() == after;
        return false;
      }
      if fault.OperationThrows? || sequence != last + 1 || !m.accepts(state, r.payload) {
        poisoned := true;
        return false;
      }
      var next := m.effect(state, r.payload);
      if !fault.WriteLost? {
        store := store + [Entry(sequence, r.payload)];
      }
      if !fault.NoFault? {
        poisoned := true;
        return false;
      }
      state, last := next, last + 1;
      return true;
    }
  }
}
