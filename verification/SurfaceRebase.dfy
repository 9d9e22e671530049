/** Rebasing one surface of a workflow: prompts, a model route or an agent's skills are
    moved from a candidate projection onto a later state, and nothing else is. */
module SurfaceRebase {
  import opened Standard

  type Id = nat
  type Text = string
  type Route = nat
  type Skill = nat

  /** What the surfaces leave alone. */
  type Other = nat

  /** The hash is taken to be injective, so it is represented by its preimage. */
  datatype Digest = Sha256(text: Text)

  datatype Agent = Agent(prompt: Text, model: Route, skills: seq<Skill>, other: Other)

  datatype Node = AgentNode(id: Id, agent: Agent) | OtherNode(id: Id, other: Other)

  datatype Source = Source(nodes: seq<Node>, other: Other)

  datatype Change = Change(nodeId: Id, before: Digest, after: Digest)

  datatype Error = NotAnAgent | TargetChanged | IdentityMismatch | ControlsChanged

  // ---------------------------------------------------------------------
  // Agents of a source
  // ---------------------------------------------------------------------

  /** The position of the first node with an identifier. */
  function Find(nodes: seq<Node>, id: Id): (i: Option<nat>)
    ensures i.Some? ==> i.value < |nodes| && nodes[i.value].id == id
    ensures i.Some? ==> forall j | 0 <= j < i.value :: nodes[j].id != id
    ensures i.None? ==> forall j | 0 <= j < |nodes| :: nodes[j].id != id
  {
    if |nodes| == 0 then None
    else if nodes[0].id == id then Some(0)
    else match Find(nodes[1..], id) case None => None case Some(i) => Some(i + 1)
  }

  function AgentOf(s: Source, id: Id): Option<Agent> {
    match Find(s.nodes, id)
    case None => None
    case Some(i) => if s.nodes[i].AgentNode? then Some(s.nodes[i].agent) else None
  }

  /** The source with that node's agent replaced. */
  function WithAgent(s: Source, id: Id, agent: Agent): Source
    requires AgentOf(s, id).Some?
  {
    var i := Find(s.nodes, id).value;
    s.(nodes := s.nodes[i := AgentNode(id, agent)])
  }

  /** Same nodes in the same places, agents aside. */
  predicate SameShape(s: Source, t: Source) {
    && s.other == t.other && |s.nodes| == |t.nodes|
    && forall i | 0 <= i < |s.nodes| ::
        && s.nodes[i].id == t.nodes[i].id && (s.nodes[i].AgentNode? <==> t.nodes[i].AgentNode?)
        && (s.nodes[i].OtherNode? ==> s.nodes[i] == t.nodes[i])
  }

  lemma {:induction false} FindByIds(a: seq<Node>, b: seq<Node>, id: Id)
    requires |a| == |b| && forall i | 0 <= i < |a| :: a[i].id == b[i].id
    ensures Find(a, id) == Find(b, id)
  {
    if |a| > 0 {
      FindByIds(a[1..], b[1..], id);
    }
  }

  /** Nodes that no identifier names, because an earlier one has it, are left alone. */
  predicate SameHidden(s: Source, t: Source) {
    |s.nodes| == |t.nodes| && forall i: nat | i < |s.nodes| && Find(s.nodes, s.nodes[i].id) != Some(i) ::
      s.nodes[i] == t.nodes[i]
  }

  /** Replacing one agent changes what that identifier names, and nothing else. */
  lemma WithAgentChangesOne(s: Source, id: Id, agent: Agent)
    requires AgentOf(s, id).Some?
    ensures SameShape(s, WithAgent(s, id, agent)) && SameHidden(s, WithAgent(s, id, agent))
    ensures forall other: Id ::
            AgentOf(WithAgent(s, id, agent), other) == if other == id then Some(agent) else AgentOf(s, other)
  {
    var t := WithAgent(s, id, agent);
    forall other: Id
      ensures AgentOf(t, other) == if other == id then Some(agent) else AgentOf(s, other)
    {
      FindByIds(s.nodes, t.nodes, other);
    }
  }

  /** A source is known by its shape, its named agents and its hidden nodes. */
  lemma SameSource(s: Source, t: Source)
    requires SameShape(s, t) && SameHidden(s, t) && forall id: Id :: AgentOf(s, id) == AgentOf(t, id)
    ensures s == t
  {
    forall i: nat | i < |s.nodes|
      ensures s.nodes[i] == t.nodes[i]
    {
      FindByIds(s.nodes, t.nodes, s.nodes[i].id);
      if s.nodes[i].AgentNode? && Find(s.nodes, s.nodes[i].id) == Some(i) {
        assert AgentOf(s, s.nodes[i].id) == AgentOf(t, s.nodes[i].id);
      }
    }
    assert s.nodes == t.nodes;
  }

  // ---------------------------------------------------------------------
  // Prompts
  // ---------------------------------------------------------------------

  /** One prompt moved from the projection, if its target still is what it was. */
  function MovePrompt(current: Source, projected: Source, change: Change): Result<Source, Error> {
    match (AgentOf(current, change.nodeId), AgentOf(projected, change.nodeId))
    case (Some(before), Some(after)) =>
      if Sha256(before.prompt) != change.before || Sha256(after.prompt) != change.after then Err(TargetChanged)
      else Ok(WithAgent(current, change.nodeId, before.(prompt := after.prompt)))
    case (_, _) => Err(NotAnAgent)
  }

  function MovePrompts(current: Source, projected: Source, changes: seq<Change>): Result<Source, Error> {
    if |changes| == 0 then Ok(current)
    else match MovePrompts(current, projected, changes[..|changes| - 1])
      case Err(error) => Err(error)
      case Ok(moved) => MovePrompt(moved, projected, changes[|changes| - 1])
  }

  lemma {:induction false} MovePromptsFails(current: Source, projected: Source, changes: seq<Change>, i: nat)
    requires i <= |changes| && MovePrompts(current, projected, changes[..i]).Err?
    ensures MovePrompts(current, projected, changes) == MovePrompts(current, projected, changes[..i])
  {
    if i == |changes| {
      assert changes[..i] == changes;
    } else {
      assert changes[..|changes| - 1][..i] == changes[..i];
      MovePromptsFails(current, projected, changes[..|changes| - 1], i);
    }
  }

  /** The source's loop, assigning into its clone of the current state. */
  method RebasePromptChanges(current: Source, projected: Source, changes: seq<Change>) returns (r: Result<Source,
                             Error>)
    ensures r == MovePrompts(current, projected, changes)
  {
    var clone := current;
    for i := 0 to |changes|
      invariant Ok(clone) == MovePrompts(current, projected, changes[..i])
    {
      assert changes[..i + 1][..i] == changes[..i];
      var moved := MovePrompt(clone, projected, changes[i]);
      if moved.Err? {
        MovePromptsFails(current, projected, changes, i + 1);
        return moved;
      }
      clone := moved.value;
    }
    assert changes[..|changes|] == changes;
    r := Ok(clone);
  }

  predicate Named(changes: seq<Change>, id: Id) {
    exists i :: 0 <= i < |changes| && changes[i].nodeId == id
  }

  /** The identity of a candidate names each node once. */
  predicate Distinct(changes: seq<Change>) {
    forall i, j | 0 <= i < j < |changes| :: changes[i].nodeId != changes[j].nodeId
  }

  /** A rebase succeeds exactly when every target is an agent whose prompt still has the
      declared hash and whose projection has the declared new one. */
  predicate Movable(current: Source, projected: Source, change: Change) {
    var before, after := AgentOf(current, change.nodeId), AgentOf(projected, change.nodeId);
    before.Some? && after.Some? && Sha256(before.value.prompt) == change.before
      && Sha256(after.value.prompt) == change.after
  }

  /** The agent an identifier names after the prompts have been moved. */
  function Moved(current: Source, projected: Source, changes: seq<Change>, id: Id): Option<Agent> {
    var before, after := AgentOf(current, id), AgentOf(projected, id);
    if Named(changes, id) && before.Some?
      && after.Some? then Some(before.value.(prompt := after.value.prompt)) else before
  }

  /** This source holds the moved prompts, and differs from the current one in no other way. */
  ghost predicate MovedTo(current: Source, projected: Source, changes: seq<Change>, r: Source) {
    && SameShape(current, r) && SameHidden(current, r)
    && forall id: Id :: AgentOf(r, id) == Moved(current, projected, changes, id)
  }

  lemma NamedSnoc(changes: seq<Change>, last: Change, id: Id)
    ensures Named(changes + [last], id) <==> Named(changes, id) || id == last.nodeId
  {
    var all := changes + [last];
    assert all[|changes|] == last && forall i | 0 <= i < |changes| :: all[i] == changes[i];
    if Named(changes, id) {
      var i :| 0 <= i < |changes| && changes[i].nodeId == id;
      assert all[i].nodeId == id;
    }
  }

  lemma OneMove(current: Source, projected: Source, changes: seq<Change>, r: Source, last: Change)
    requires MovedTo(current, projected, changes, r) && !Named(changes, last.nodeId)
    ensures MovePrompt(r, projected, last).Ok? <==> Movable(current, projected, last)
    ensures MovePrompt(r, projected, last).Ok? ==>
            MovedTo(current, projected, changes + [last], MovePrompt(r, projected, last).value)
  {
    assert AgentOf(r, last.nodeId) == AgentOf(current, last.nodeId);
    if MovePrompt(r, projected, last).Ok? {
      var agent := AgentOf(r, last.nodeId).value.(prompt := AgentOf(projected, last.nodeId).value.prompt);
      var next := MovePrompt(r, projected, last).value;
      WithAgentChangesOne(r, last.nodeId, agent);
      HiddenTogether(current, r, next);
      forall id: Id
        ensures AgentOf(next, id) == Moved(current, projected, changes + [last], id)
      {
        NamedSnoc(changes, last, id);
      }
    }
  }

  lemma HiddenTogether(s: Source, t: Source, u: Source)
    requires SameShape(s, t) && SameHidden(s, t) && SameHidden(t, u)
    ensures SameHidden(s, u)
  {
    forall i: nat | i < |s.nodes| && Find(s.nodes, s.nodes[i].id) != Some(i)
      ensures s.nodes[i] == u.nodes[i]
    {
      FindByIds(s.nodes, t.nodes, s.nodes[i].id);
    }
  }

  /** A rebase succeeds exactly when every change is movable, and then changes the listed
      prompts and nothing else, whatever the current state is. */
  lemma {:induction false} PromptsMoved(current: Source, projected: Source, changes: seq<Change>)
    requires Distinct(changes)
    ensures MovePrompts(current, projected, changes).Ok? <==> forall i | 0 <= i < |changes| ::
            Movable(current, projected, changes[i])
    ensures MovePrompts(current, projected, changes).Ok? ==>
              MovedTo(current, projected, changes, MovePrompts(current, projected, changes).value)
  {
    if |changes| > 0 {
      var before, last := changes[..|changes| - 1], changes[|changes| - 1];
      assert changes == before + [last];
      PromptsMoved(current, projected, before);
      if MovePrompts(current, projected, before).Ok? {
        OneMove(current, projected, before, MovePrompts(current, projected, before).value, last);
      }
    }
  }

  // ---------------------------------------------------------------------
  // The prompt-only check is a rebase in reverse
  // ---------------------------------------------------------------------

  function Swapped(changes: seq<Change>): (r: seq<Change>)
    ensures |r| == |changes|
    ensures forall i | 0 <= i < |changes| :: r[i] == Change(changes[i].nodeId, changes[i].after, changes[i].before)
  {
    seq(|changes|, i requires 0 <= i < |changes| => Change(changes[i].nodeId, changes[i].after, changes[i].before))
  }

  function PromptOnly(baseline: Source, projected: Source, changes: seq<Change>): Result<Source, Error> {
    match MovePrompts(projected, baseline, Swapped(changes))
    case Err(TargetChanged) => Err(IdentityMismatch)
    case Err(error) => Err(error)
    case Ok(normalized) => if normalized == baseline then Ok(normalized) else Err(ControlsChanged)
  }

  /** The source's check: it undoes each listed change in a clone of the projection and
      compares what is left with the baseline. */
  method AssertPromptOnlyChange(baseline: Source, projected: Source, changes: seq<Change>) returns (r: Result<Source,
                                Error>)
    ensures r == PromptOnly(baseline, projected, changes)
  {
    var normalized := projected;
    ghost var swapped := Swapped(changes);
    for i := 0 to |changes|
      invariant Ok(normalized) == MovePrompts(projected, baseline, swapped[..i])
    {
      assert swapped[..i + 1][..i] == swapped[..i];
      var before, after := AgentOf(baseline, changes[i].nodeId), AgentOf(normalized, changes[i].nodeId);
      if before.None? || after.None? {
        MovePromptsFails(projected, baseline, swapped, i + 1);
        return Err(NotAnAgent);
      }
      if Sha256(before.value.prompt) != changes[i].before || Sha256(after.value.prompt) != changes[i].after {
        MovePromptsFails(projected, baseline, swapped, i + 1);
        return Err(IdentityMismatch);
      }
      normalized := WithAgent(normalized, changes[i].nodeId, after.value.(prompt := before.value.prompt));
    }
    assert swapped[..|changes|] == swapped;
    r := if normalized == baseline then Ok(normalized) else Err(ControlsChanged);
  }

  lemma NamedSwapped(changes: seq<Change>, id: Id)
    ensures Named(Swapped(changes), id) <==> Named(changes, id)
  {
    if Named(changes, id) {
      var i :| 0 <= i < |changes| && changes[i].nodeId == id;
      assert Swapped(changes)[i].nodeId == id;
    }
  }

  /** Moving prompts one way and finding the other source is undone by moving them back. */
  lemma MoveBack(a: Source, b: Source, changes: seq<Change>)
    requires Distinct(changes) && MovePrompts(a, b, changes) == Ok(b)
    ensures MovePrompts(b, a, Swapped(changes)) == Ok(a)
  {
    var swapped := Swapped(changes);
    PromptsMoved(a, b, changes);
    PromptsMoved(b, a, swapped);
    forall i | 0 <= i < |swapped|
      ensures Movable(b, a, swapped[i])
    {
      assert Movable(a, b, changes[i]);
    }
    var r := MovePrompts(b, a, swapped).value;
    forall id: Id
      ensures AgentOf(r, id) == AgentOf(a, id)
    {
      NamedSwapped(changes, id);
      assert AgentOf(b, id) == Moved(a, b, changes, id);
    }
    SameHiddenBack(a, b);
    HiddenTogether(a, b, r);
    SameSource(a, r);
  }

  lemma SameHiddenBack(a: Source, b: Source)
    requires SameShape(a, b) && SameHidden(a, b)
    ensures SameHidden(b, a)
  {
    forall i: nat | i < |b.nodes| && Find(b.nodes, b.nodes[i].id) != Some(i)
      ensures b.nodes[i] == a.nodes[i]
    {
      FindByIds(a.nodes, b.nodes, b.nodes[i].id);
    }
  }

  lemma SwappedTwice(changes: seq<Change>)
    ensures Swapped(Swapped(changes)) == changes
    ensures Distinct(changes) ==> Distinct(Swapped(changes))
  {
  }

  /** The prompt-only check passes exactly when rebasing the listed changes onto the
      baseline itself gives the projection. */
  lemma CheckedExactly(baseline: Source, projected: Source, changes: seq<Change>)
    requires Distinct(changes)
    ensures PromptOnly(baseline, projected, changes).Ok? <==> MovePrompts(baseline, projected, changes) == Ok(projected)
  {
    SwappedTwice(changes);
    if PromptOnly(baseline, projected, changes).Ok? {
      MoveBack(projected, baseline, Swapped(changes));
    } else if MovePrompts(baseline, projected, changes) == Ok(projected) {
      MoveBack(baseline, projected, changes);
    }
  }

  // ---------------------------------------------------------------------
  // Model routes
  // ---------------------------------------------------------------------

  function MoveRoute(current: Source, ordinary: Source, id: Id, before: Route, after: Route): Result<Source, Error> {
    match (AgentOf(current, id), AgentOf(ordinary, id))
    case (Some(target), Some(baseline)) =>
      if baseline.model != before || target.model != baseline.model then Err(TargetChanged)
      else Ok(WithAgent(current, id, target.(model := after)))
    case (_, _) => Err(NotAnAgent)
  }

  function RouteOnly(baseline: Source, projected: Source, id: Id, before: Route, after: Route): Result<Source, Error> {
    match (AgentOf(baseline, id), AgentOf(projected, id))
    case (Some(was), Some(now)) =>
      if was.model != before || now.model != after then Err(IdentityMismatch)
      else if WithAgent(projected, id, now.(model := was.model)) != baseline then Err(ControlsChanged)
      else Ok(baseline)
    case (_, _) => Err(NotAnAgent)
  }

  /** Replacing an agent is undone by putting the old one back. */
  lemma PutBack(s: Source, id: Id, agent: Agent)
    requires AgentOf(s, id).Some?
    ensures AgentOf(WithAgent(s, id, agent), id) == Some(agent)
    ensures WithAgent(WithAgent(s, id, agent), id, AgentOf(s, id).value) == s
  {
    var t := WithAgent(s, id, agent);
    FindByIds(s.nodes, t.nodes, id);
    assert WithAgent(t, id, AgentOf(s, id).value).nodes == s.nodes;
  }

  /** The routing-only check passes exactly when moving the route onto the baseline gives
      the projection. */
  lemma RouteCheckedExactly(baseline: Source, projected: Source, id: Id, before: Route, after: Route)
    ensures RouteOnly(baseline, projected, id, before, after).Ok? <==>
            MoveRoute(baseline, baseline, id, before, after) == Ok(projected)
  {
    if AgentOf(baseline, id).Some? {
      PutBack(baseline, id, AgentOf(baseline, id).value.(model := after));
    }
    if AgentOf(baseline, id).Some? && AgentOf(projected, id).Some? {
      PutBack(projected, id, AgentOf(projected, id).value.(model := AgentOf(baseline, id).value.model));
    }
  }

  // ---------------------------------------------------------------------
  // Why a rebase or a check is refused
  // ---------------------------------------------------------------------

  /** The identifier names an agent in both sources. */
  predicate InBoth(s: Source, t: Source, id: Id) {
    AgentOf(s, id).Some? && AgentOf(t, id).Some?
  }

  /** A rebase is refused for its first change that cannot be moved: because its target
      is not an agent on both sides, or else because a prompt is not as declared. */
  lemma {:induction false} FirstRefusal(current: Source, projected: Source, changes: seq<Change>, i: nat)
    requires Distinct(changes) && i < |changes| && !Movable(current, projected, changes[i])
    requires forall j | 0 <= j < i :: Movable(current, projected, changes[j])
    ensures MovePrompts(current, projected, changes) ==
            Err(if InBoth(current, projected, changes[i].nodeId) then TargetChanged else NotAnAgent)
  {
    var before := changes[..i];
    PromptsMoved(current, projected, before);
    var moved := MovePrompts(current, projected, before).value;
    assert changes[..i + 1][..i] == before;
    assert !Named(before, changes[i].nodeId);
    assert AgentOf(moved, changes[i].nodeId) == AgentOf(current, changes[i].nodeId);
    MovePromptsFails(current, projected, changes, i + 1);
  }

  /** The prompt-only check names its first mismatch likewise; and if there is none it is
      refused, because of what else changed, exactly when the rebase would not give the
      projection. */
  lemma FirstMismatch(baseline: Source, projected: Source, changes: seq<Change>, i: nat)
    requires Distinct(changes)
    ensures i < |changes| && !Movable(baseline, projected, changes[i])
            && (forall j | 0 <= j < i :: Movable(baseline, projected, changes[j])) ==>
              PromptOnly(baseline, projected, changes) ==
              Err(if InBoth(baseline, projected, changes[i].nodeId) then IdentityMismatch else NotAnAgent)
    ensures (forall j | 0 <= j < |changes| :: Movable(baseline, projected, changes[j])) ==>
              PromptOnly(baseline, projected, changes) ==
              if MovePrompts(baseline, projected, changes) == Ok(projected) then Ok(baseline) else Err(ControlsChanged)
  {
    var swapped := Swapped(changes);
    SwappedTwice(changes);
    forall j | 0 <= j < |changes|
      ensures Movable(projected, baseline, swapped[j]) <==> Movable(baseline, projected, changes[j])
    {
    }
    if i < |changes| && !Movable(baseline, projected, changes[i])
       && (forall j | 0 <= j < i :: Movable(baseline, projected, changes[j])) {
      FirstRefusal(projected, baseline, swapped, i);
    }
    if forall j | 0 <= j < |changes| :: Movable(baseline, projected, changes[j]) {
      PromptsMoved(projected, baseline, swapped);
      CheckedExactly(baseline, projected, changes);
    }
  }

  /** The routing-only check is refused because the target is not an agent on both sides,
      or else because a route is not as declared, or else because something else changed. */
  lemma RouteRefusals(baseline: Source, projected: Source, id: Id, before: Route, after: Route)
    ensures RouteOnly(baseline, projected, id, before, after) ==
            if !InBoth(baseline, projected, id) then Err(NotAnAgent)
            else if AgentOf(baseline, id).value.model != before || AgentOf(projected, id).value.model != after
            then Err(IdentityMismatch)
            else if MoveRoute(baseline, baseline, id, before, after) == Ok(projected) then Ok(baseline)
            else Err(ControlsChanged)
    ensures MoveRoute(baseline, projected, id, before, after).Err? ==>
            MoveRoute(baseline, projected, id, before, after) ==
            Err(if InBoth(baseline, projected, id) then TargetChanged else NotAnAgent)
  {
    RouteCheckedExactly(baseline, projected, id, before, after);
  }

  // ---------------------------------------------------------------------
  // The two surfaces do not interfere
  // ---------------------------------------------------------------------

  function Then(first: Result<Source, Error>, second: Source --> Result<Source, Error>): Result<Source, Error>
    requires first.Ok? ==> second.requires(first.value)
  {
    match first case Err(error) => Err(error) case Ok(s) => second(s)
  }

  predicate Routable(current: Source, ordinary: Source, id: Id, before: Route) {
    && AgentOf(current, id).Some? && AgentOf(ordinary, id).Some?
    && AgentOf(ordinary, id).value.model == before == AgentOf(current, id).value.model
  }

  function Rerouted(agent: Option<Agent>, applies: bool, after: Route): Option<Agent> {
    if applies && agent.Some? then Some(agent.value.(model := after)) else agent
  }

  lemma RouteMoved(current: Source, ordinary: Source, id: Id, before: Route, after: Route)
    ensures MoveRoute(current, ordinary, id, before, after).Ok? <==> Routable(current, ordinary, id, before)
    ensures MoveRoute(current, ordinary, id, before, after).Ok? ==>
              var r := MoveRoute(current, ordinary, id, before, after).value;
              && SameShape(current, r) && SameHidden(current, r)
              && forall other: Id :: AgentOf(r, other) == Rerouted(AgentOf(current, other), other == id, after)
  {
    if MoveRoute(current, ordinary, id, before, after).Ok? {
      WithAgentChangesOne(current, id, AgentOf(current, id).value.(model := after));
    }
  }

  /** Prompt and model-route rebases commute: either order succeeds exactly when the other
      does, with the same state. */
  lemma RebasesCommute(current: Source, projected: Source, changes: seq<Change>, ordinary: Source, id: Id,
                       before: Route, after: Route)
    requires Distinct(changes)
    ensures var promptsFirst := Then(MovePrompts(current, projected, changes),
            s => MoveRoute(s, ordinary, id, before, after));
            var routeFirst := Then(MoveRoute(current, ordinary, id, before, after),
              s => MovePrompts(s, projected, changes));
            (promptsFirst.Ok? <==> routeFirst.Ok?) && (promptsFirst.Ok? ==> promptsFirst == routeFirst)
  {
    PromptsMoved(current, projected, changes);
    RouteMoved(current, ordinary, id, before, after);
    if MovePrompts(current, projected, changes).Ok? {
      var p := MovePrompts(current, projected, changes).value;
      RouteMoved(p, ordinary, id, before, after);
      assert AgentOf(p, id) == Moved(current, projected, changes, id);
    }
    if MoveRoute(current, ordinary, id, before, after).Ok? {
      var r := MoveRoute(current, ordinary, id, before, after).value;
      PromptsMoved(r, projected, changes);
      forall i | 0 <= i < |changes|
        ensures Movable(r, projected, changes[i]) <==> Movable(current, projected, changes[i])
      {
        assert AgentOf(r, changes[i].nodeId) ==
          Rerouted(AgentOf(current, changes[i].nodeId), changes[i].nodeId == id, after);
      }
    }
    if MovePrompts(current, projected, changes).Ok? && MoveRoute(current, ordinary, id, before, after).Ok? {
      var p := MovePrompts(current, projected, changes).value;
      var r := MoveRoute(current, ordinary, id, before, after).value;
      BothMoved(current, projected, changes, p, MoveRoute(p, ordinary, id, before, after).value, r,
                MovePrompts(r, projected, changes).value, id, after);
    }
  }

  lemma BothMoved(current: Source, projected: Source, changes: seq<Change>, p: Source, pr: Source, r: Source,
                  rp: Source,
                  id: Id, after: Route)
    requires MovedTo(current, projected, changes, p) && MovedTo(r, projected, changes, rp)
    requires SameShape(p, pr) && SameHidden(p, pr) && SameShape(current, r) && SameHidden(current, r)
    requires forall other: Id :: AgentOf(pr, other) == Rerouted(AgentOf(p, other), other == id, after)
    requires forall other: Id :: AgentOf(r, other) == Rerouted(AgentOf(current, other), other == id, after)
    ensures pr == rp
  {
    forall other: Id
      ensures AgentOf(pr, other) == AgentOf(rp, other)
    {
      assert AgentOf(p, other) == Moved(current, projected, changes, other);
      assert AgentOf(rp, other) == Moved(r, projected, changes, other);
    }
    HiddenTogether(current, p, pr);
    HiddenTogether(current, r, rp);
    HiddenAgree(current, pr, rp);
    SameSource(pr, rp);
  }

  lemma HiddenAgree(s: Source, t: Source, u: Source)
    requires SameShape(s, t) && SameHidden(s, t) && SameShape(s, u) && SameHidden(s, u)
    ensures SameShape(t, u) && SameHidden(t, u)
  {
    forall i: nat | i < |t.nodes| && Find(t.nodes, t.nodes[i].id) != Some(i)
      ensures t.nodes[i] == u.nodes[i]
    {
      FindByIds(s.nodes, t.nodes, t.nodes[i].id);
    }
  }
}
