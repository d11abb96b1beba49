/**
 POST /events/ack: a consumer group's cursor, advanced by requests that read it,
 check the horizon and the token's scope, and then update it conditionally, with no lock
 in between.  Each database statement is one step; requests interleave freely, and events
 keep arriving.
 */
module CursorAck {
  import opened Prelude

  type AckId = nat

  datatype Event = Event(warehouse: int, kind: string)

  datatype Token = Token(connector: Option<nat>, warehouses: set<int>, kinds: set<string>)

  predicate Sees(t: Token, e: Event) {
    e.warehouse in t.warehouses && e.kind in t.kinds
  }

  datatype Reply = Acked(cursor: int) | WrongConnector | BeyondHorizon | OutOfScope

  datatype Phase =
    | Loaded(seen: int)     // the group row was read with this cursor
    | InHorizon(seen: int)
    | Approved(seen: int)   // every check passed, or none was needed
    | Answered(reply: Reply)

  datatype Ack = Ack(token: Token, target: int, phase: Phase)

  /** The cursor moved from `from` to `to` on behalf of `token`. */
  datatype Pass = Pass(token: Token, from: int, to: int)

  datatype State = State(
    connector: nat,            // of the group
    log: map<int, Event>,
    cursor: int,
    acks: map<AckId, Ack>,
    passes: seq<Pass>,
    late: set<int>)            // events that arrived at or below a cursor already reached or approved

  datatype Step =
    | Append(id: int, e: Event)
    | Load(a: AckId, token: Token, target: int)
    | CheckHorizon(a: AckId)
    | CheckScope(a: AckId)
    | Update(a: AckId)

  predicate Enabled(s: State, step: Step) {
    match step
    case Append(id, e) => id >= 1 && id !in s.log
    case Load(a, token, target) => a !in s.acks && target >= 0
    case CheckHorizon(a) => a in s.acks && s.acks[a].phase.Loaded?
    case CheckScope(a) => a in s.acks && s.acks[a].phase.InHorizon?
    case Update(a) => a in s.acks && s.acks[a].phase.Approved?
  }

  /** target <= COALESCE(MAX(event_id), 0) */
  predicate WithinHorizon(s: State, target: int) {
    target <= 0 || exists id | id in s.log :: target <= id
  }

  predicate AllSeen(s: State, t: Token, from: int, to: int) {
    forall id | id in s.log && from < id <= to :: Sees(t, s.log[id])
  }

  function Set(s: State, a: AckId, p: Phase): State
    requires a in s.acks
  {
    s.(acks := s.acks[a := s.acks[a].(phase := p)])
  }

  predicate IsLate(s: State, id: int) {
    id <= s.cursor || exists a | a in s.acks :: s.acks[a].phase.Approved? && id <= s.acks[a].target
  }

  function Take(s: State, step: Step): State
    requires Enabled(s, step)
  {
    match step
    case Append(id, e) => s.(log := s.log[id := e], late := if IsLate(s, id) then s.late + {id} else s.late)
    case Load(a, token, target) =>
      var p :=
        if token.connector.Some? && token.connector.value != s.connector then Answered(WrongConnector)
        else if target > s.cursor then Loaded(s.cursor)
        else Approved(s.cursor);                          // a backwards ack needs no checks
      s.(acks := s.acks[a := Ack(token, target, p)])
    case CheckHorizon(a) =>
      Set(s, a, if WithinHorizon(s, s.acks[a].target) then InHorizon(s.acks[a].phase.seen) else Answered(BeyondHorizon))
    case CheckScope(a) =>
      var x := s.acks[a];
      Set(s, a, if AllSeen(s, x.token, x.phase.seen, x.target) then Approved(x.phase.seen) else Answered(OutOfScope))
    case Update(a) =>
      var x := s.acks[a];
      if s.cursor <= x.target then
        Set(s, a, Answered(Acked(x.target))).(cursor := x.target, passes :=
            s.passes + [Pass(x.token, s.cursor, x.target)])
      else Set(s, a, Answered(Acked(s.cursor)))
  }

  predicate Init(s: State) {
    s.cursor == 0 && s.acks == map[] && s.passes == [] && s.late == {} && forall id | id in s.log :: id >= 1
  }

  // ----- Invariant -----

  predicate AckOk(s: State, x: Ack) {
    match x.phase
    case Loaded(seen) => 0 <= seen <= s.cursor
    case InHorizon(seen) => 0 <= seen <= s.cursor && WithinHorizon(s, x.target)
    case Approved(seen) =>
      && 0 <= seen <= s.cursor && WithinHorizon(s, x.target)
      && forall id | id in s.log && seen < id <= x.target :: id in s.late || Sees(x.token, s.log[id])
    case Answered(_) => true
  }

  /** Some pass moved the cursor over `id`, and its token could read the event. */
  predicate Covered(s: State, id: int)
    requires id in s.log
  {
    exists i | 0 <= i < |s.passes| :: s.passes[i].from < id <= s.passes[i].to && Sees(s.passes[i].token, s.log[id])
  }

  /** The passes lie end to end, from zero to the cursor. */
  predicate Chained(h: seq<Pass>, cursor: int) {
    if h == [] then cursor == 0
    else var p := h[|h| - 1]; p.to == cursor && p.from <= p.to && Chained(h[..|h| - 1], p.from)
  }

  predicate Inv(s: State) {
    && s.cursor >= 0 && WithinHorizon(s, s.cursor) && Chained(s.passes, s.cursor)
    && (forall a | a in s.acks :: AckOk(s, s.acks[a]))
    && (forall id | id in s.log :: id >= 1 && (id <= s.cursor ==> id in s.late || Covered(s, id)))
  }

  lemma AppendKeepsInv(s: State, id: int, e: Event)
    requires Inv(s) && Enabled(s, Append(id, e))
    ensures Inv(Take(s, Append(id, e)))
  {
    var s' := Take(s, Append(id, e));
    forall t | WithinHorizon(s, t) ensures WithinHorizon(s', t) {
      if t > 0 { var i :| i in s.log && t <= i; assert i in s'.log; }
    }
    forall a | a in s'.acks ensures AckOk(s', s'.acks[a]) { assert AckOk(s, s.acks[a]); }
    forall i | i in s'.log && i <= s'.cursor ensures i in s'.late || Covered(s', i) {
      if i != id && i !in s.late {
        var k :| 0 <= k < |s.passes| && s.passes[k].from < i <= s.passes[k].to && Sees(s.passes[k].token, s.log[i]);
        assert s'.passes[k] == s.passes[k];
      }
    }
  }

  lemma UpdateKeepsInv(s: State, a: AckId)
    requires Inv(s) && Enabled(s, Update(a))
    ensures Inv(Take(s, Update(a)))
  {
    var s', x := Take(s, Update(a)), s.acks[a];
    assert AckOk(s, x);
    if s.cursor <= x.target {
      var p := Pass(x.token, s.cursor, x.target);
      assert s'.passes[..|s'.passes| - 1] == s.passes;
      forall i | i in s'.log && i <= s'.cursor ensures i in s'.late || Covered(s', i) {
        if i <= s.cursor {
          if i !in s.late {
            var k :| 0 <= k < |s.passes| && s.passes[k].from < i <= s.passes[k].to && Sees(s.passes[k].token, s.log[i]);
            assert s'.passes[k] == s.passes[k];
          }
        } else {
          assert s'.passes[|s.passes|] == p;
        }
      }
    }
    forall b | b in s'.acks ensures AckOk(s', s'.acks[b]) { assert b != a ==> AckOk(s, s.acks[b]); }
  }

  lemma StepKeepsInv(s: State, step: Step)
    requires Inv(s) && Enabled(s, step)
    ensures Inv(Take(s, step)) && s.cursor <= Take(s, step).cursor
  {
    match step
    case Append(id, e) => AppendKeepsInv(s, id, e);
    case Update(a) => UpdateKeepsInv(s, a);
    case Load(a, token, target) => LoadKeepsInv(s, a, token, target);
    case _ => CheckKeepsInv(s, step);
  }

  lemma LoadKeepsInv(s: State, a: AckId, token: Token, target: int)
    requires Inv(s) && Enabled(s, Load(a, token, target))
    ensures Inv(Take(s, Load(a, token, target)))
  {}

  lemma CheckKeepsInv(s: State, step: Step)
    requires Inv(s) && Enabled(s, step) && (step.CheckHorizon? || step.CheckScope?)
    ensures Inv(Take(s, step))
  {}

  // ----- Runs -----

  predicate Legal(s: State, steps: seq<Step>)
    decreases |steps|
  {
    steps == [] || (Enabled(s, steps[0]) && Legal(Take(s, steps[0]), steps[1..]))
  }

  function Run(s: State, steps: seq<Step>): State
    requires Legal(s, steps)
    decreases |steps|
  {
    if steps == [] then s else Run(Take(s, steps[0]), steps[1..])
  }

  lemma {:induction false} RunKeepsInv(s: State, steps: seq<Step>)
    requires Inv(s) && Legal(s, steps)
    ensures Inv(Run(s, steps)) && s.cursor <= Run(s, steps).cursor
    decreases |steps|
  {
    if steps != [] {
      StepKeepsInv(s, steps[0]);
      RunKeepsInv(Take(s, steps[0]), steps[1..]);
    }
  }

  /** However acks interleave: the cursor never decreases, never passes the horizon, and every event it has
      passed was readable by the token that moved it over that event, unless the event arrived late. */
  lemma PassedEventsWereReadable(s0: State, before: seq<Step>, after: seq<Step>)
    requires Init(s0) && Legal(s0, before) && Legal(Run(s0, before), after)
    ensures var m, s := Run(s0, before), Run(Run(s0, before), after);
            && 0 <= m.cursor <= s.cursor
            && WithinHorizon(s, s.cursor)
            && (forall id | id in s.log && id <= s.cursor :: id in s.late || Covered(s, id))
  {
    RunKeepsInv(s0, before);
    RunKeepsInv(Run(s0, before), after);
  }

  /** The same, event by event: unless it arrived late, an event at or below the cursor is of a warehouse and a type
      that the token which moved the cursor over it may see; and some event of the log lies at or past the cursor.
      */
  lemma PassedEventsWereInScope(s0: State, steps: seq<Step>, id: int)
    requires Init(s0) && Legal(s0, steps)
    ensures var s := Run(s0, steps);
            && (id in s.log && id <= s.cursor && id !in s.late ==>
                  exists i | 0 <= i < |s.passes| :: s.passes[i].from < id <= s.passes[i].to
                    && s.log[id].warehouse in s.passes[i].token.warehouses && s.log[id].kind in s.passes[i].token.kinds)
            && (s.cursor == 0 || exists k | k in s.log :: s.cursor <= k)
  {
    RunKeepsInv(s0, steps);
    var s := Run(s0, steps);
    if id in s.log && id <= s.cursor && id !in s.late {
      assert Covered(s, id);
      var i :| 0 <= i < |s.passes| && s.passes[i].from < id <= s.passes[i].to && Sees(s.passes[i].token, s.log[id]);
    }
  }

  lemma {:induction false} PassesBelow(h: seq<Pass>, cursor: int, i: nat)
    requires Chained(h, cursor) && i < |h|
    ensures 0 <= h[i].from <= h[i].to <= cursor
  {
    if i == |h| - 1 {
      if |h| > 1 { PassesBelow(h[..i], h[i].from, i - 1); }
    } else {
      PassesBelow(h[..|h| - 1], h[|h| - 1].from, i);
    }
  }

  /** Each event is passed once: the responsible token is unique. */
  lemma {:induction false} PassIsUnique(h: seq<Pass>, cursor: int, i: nat, j: nat, id: int)
    requires Chained(h, cursor) && i < |h| && j < |h|
    requires h[i].from < id <= h[i].to && h[j].from < id <= h[j].to
    ensures i == j
  {
    var n := |h| - 1;
    if i < n && j < n {
      PassIsUnique(h[..n], h[n].from, i, j, id);
    } else if i < n {
      PassesBelow(h[..n], h[n].from, i);
    } else if j < n {
      PassesBelow(h[..n], h[n].from, j);
    }
  }

  /** Events numbered in commit order. */
  predicate InOrder(s: State, steps: seq<Step>)
    requires Legal(s, steps)
    decreases |steps|
  {
    steps == [] ||
    (&& (steps[0].Append? ==> forall id | id in s.log :: id < steps[0].id)
     && InOrder(Take(s, steps[0]), steps[1..]))
  }

  lemma {:induction false} InOrderHasNoLate(s: State, steps: seq<Step>)
    requires Inv(s) && s.late == {} && Legal(s, steps) && InOrder(s, steps)
    ensures Run(s, steps).late == {}
    decreases |steps|
  {
    if steps != [] {
      StepKeepsInv(s, steps[0]);
      if steps[0].Append? { InOrderIsNotLate(s, steps[0].id); }
      InOrderHasNoLate(Take(s, steps[0]), steps[1..]);
    }
  }

  lemma InOrderIsNotLate(s: State, id: int)
    requires Inv(s) && id >= 1 && forall i | i in s.log :: i < id
    ensures !IsLate(s, id)
  {}

  // ----- Coverage without exception -----

  predicate AllCovered(s: State) {
    forall id | id in s.log && id <= s.cursor :: Covered(s, id)
  }

  /** When ids are handed out in commit order, every passed event was readable, without exception. */
  lemma InOrderLogIsCovered(s0: State, steps: seq<Step>)
    requires Init(s0) && Legal(s0, steps) && InOrder(s0, steps)
    ensures AllCovered(Run(s0, steps))
  {
    RunKeepsInv(s0, steps);
    InOrderHasNoLate(s0, steps);
  }

  /** An arrival at or below the cursor must be in the scope of the token that passed its place; an update must see
      the events it passes that arrived late, after a scope check over their place had been made. */
  predicate Meets(s: State, step: Step)
    requires Enabled(s, step)
  {
    match step
    case Append(id, e) =>
      id > s.cursor || exists k | 0 <= k < |s.passes| ::
          s.passes[k].from < id <= s.passes[k].to && Sees(s.passes[k].token, e)
    case Update(a) =>
      forall id | id in s.late && id in s.log && s.cursor < id <= s.acks[a].target :: Sees(s.acks[a].token, s.log[id])
    case _ => true
  }

  lemma ArrivalKeepsCoverageIff(s: State, id: int, e: Event)
    requires Inv(s) && AllCovered(s) && Enabled(s, Append(id, e))
    ensures AllCovered(Take(s, Append(id, e))) <==> Meets(s, Append(id, e))
  {
    var s' := Take(s, Append(id, e));
    forall i | i in s.log && i <= s.cursor ensures Covered(s', i) {
      assert Covered(s, i);
    }
    if id <= s.cursor { assert s'.log[id] == e; }
  }

  lemma UpdateKeepsCoverageIff(s: State, a: AckId)
    requires Inv(s) && AllCovered(s) && Enabled(s, Update(a))
    ensures AllCovered(Take(s, Update(a))) <==> Meets(s, Update(a))
  {
    var s', x := Take(s, Update(a)), s.acks[a];
    assert AckOk(s, x);
    if s.cursor <= x.target {
      var n := |s.passes|;
      assert s'.passes[n] == Pass(x.token, s.cursor, x.target);
      forall id | id in s.log && id <= s.cursor ensures Covered(s', id) {
        var k :| 0 <= k < n && s.passes[k].from < id <= s.passes[k].to && Sees(s.passes[k].token, s.log[id]);
        assert s'.passes[k] == s.passes[k];
      }
      forall id | id in s.log && s.cursor < id <= x.target ensures Covered(s', id) <==> Sees(x.token, s.log[id]) {
        OnlyLastPass(s, s', id);
      }
    }
  }

  /** No earlier pass reaches past the cursor it ended at. */
  lemma OnlyLastPass(s: State, s': State, id: int)
    requires Chained(s.passes, s.cursor) && id > s.cursor && id in s.log && s'.log == s.log
    requires |s'.passes| == |s.passes| + 1 && s'.passes[..|s.passes|] == s.passes
    ensures Covered(s', id) <==>
            var p := s'.passes[|s.passes|]; p.from < id <= p.to && Sees(p.token, s.log[id])
  {
    forall k | 0 <= k < |s.passes| ensures s'.passes[k].to < id {
      PassesBelow(s.passes, s.cursor, k);
    }
  }

  lemma StepKeepsCoverageIff(s: State, step: Step)
    requires Inv(s) && AllCovered(s) && Enabled(s, step)
    ensures AllCovered(Take(s, step)) <==> Meets(s, step)
  {
    match step
    case Append(id, e) => ArrivalKeepsCoverageIff(s, id, e);
    case Update(a) => UpdateKeepsCoverageIff(s, a);
    case _ =>
      var s' := Take(s, step);
      forall id | id in s'.log && id <= s'.cursor ensures Covered(s', id) { assert Covered(s, id); }
  }

  predicate CoveredThroughout(s: State, steps: seq<Step>)
    requires Legal(s, steps)
    decreases |steps|
  {
    AllCovered(s) && (steps == [] || CoveredThroughout(Take(s, steps[0]), steps[1..]))
  }

  predicate EachMeets(s: State, steps: seq<Step>)
    requires Legal(s, steps)
    decreases |steps|
  {
    steps == [] || (Meets(s, steps[0]) && EachMeets(Take(s, steps[0]), steps[1..]))
  }

  lemma {:induction false} CoveredFromIff(s: State, steps: seq<Step>)
    requires Inv(s) && AllCovered(s) && Legal(s, steps)
    ensures CoveredThroughout(s, steps) <==> EachMeets(s, steps)
    decreases |steps|
  {
    if steps != [] {
      var s' := Take(s, steps[0]);
      StepKeepsInv(s, steps[0]);
      StepKeepsCoverageIff(s, steps[0]);
      if AllCovered(s') { CoveredFromIff(s', steps[1..]); }
    }
  }

  /** Exactly when no token ever acks over an event it could not read: at every point of a run each passed event was
      readable by the token that passed it,
          if and only if every arrival and every update of the run meets its condition. */
  lemma CoveredThroughoutIff(s0: State, steps: seq<Step>)
    requires Init(s0) && Legal(s0, steps)
    ensures CoveredThroughout(s0, steps) <==> EachMeets(s0, steps)
  {
    CoveredFromIff(s0, steps);
  }

  // ----- Whatever the scopes -----

  /** Coverage holds, and no update already approved can break it. */
  predicate Secure(s: State) {
    && AllCovered(s)
    && forall a | a in s.acks && s.acks[a].phase.Approved? :: AllSeen(s, s.acks[a].token, s.cursor, s.acks[a].target)
  }

  lemma NoLateIsSecure(s: State)
    requires Inv(s) && s.late == {}
    ensures Secure(s)
  {
    forall a | a in s.acks && s.acks[a].phase.Approved?
        ensures AllSeen(s, s.acks[a].token, s.cursor, s.acks[a].target) {
      assert AckOk(s, s.acks[a]);
    }
  }

  lemma {:induction false} Unused(ws: set<int>) returns (w: int)
    ensures forall x | x in ws :: x < w
    decreases ws
  {
    w := 0;
    if x :| x in ws {
      var v := Unused(ws - {x});
      w := if x < v then v else x + 1;
      assert forall y | y in ws :: y == x || y in ws - {x};
    }
  }

  /** An arrival is harmless for every event it could be, if and only if it is not late: past the cursor and past every
      approved target. */
  lemma ArrivalIsHarmlessIff(s: State, id: int)
    requires Inv(s) && Secure(s) && id >= 1 && id !in s.log
    ensures (forall e :: Secure(Take(s, Append(id, e)))) <==> !IsLate(s, id)
  {
    if IsLate(s, id) {
      var asked := set a, x | a in s.acks && x in s.acks[a].token.warehouses :: x;
      var passed := set i, x | 0 <= i < |s.passes| && x in s.passes[i].token.warehouses :: x;
      var w := Unused(asked + passed);
      var e := Event(w, "");
      var s' := Take(s, Append(id, e));
      assert s'.log[id] == e && w !in asked && w !in passed;
      assert forall a | a in s.acks :: !Sees(s.acks[a].token, e);
      assert forall i | 0 <= i < |s.passes| :: !Sees(s.passes[i].token, e);
      assert !Secure(s');
    } else {
      forall e ensures Secure(Take(s, Append(id, e))) {
        ArrivalKeepsCoverageIff(s, id, e);
      }
    }
  }

  /** Every arrival of the run would have been harmless with any scope and type. */
  ghost predicate EachHarmless(s: State, steps: seq<Step>)
    requires Legal(s, steps)
    decreases |steps|
  {
    steps == [] ||
    (&& (steps[0].Append? ==> forall e :: Secure(Take(s, Append(steps[0].id, e))))
     && EachHarmless(Take(s, steps[0]), steps[1..]))
  }

  lemma {:induction false} LateGrows(s: State, steps: seq<Step>)
    requires Legal(s, steps)
    ensures s.late <= Run(s, steps).late
    decreases |steps|
  {
    if steps != [] { LateGrows(Take(s, steps[0]), steps[1..]); }
  }

  /** Whatever the scopes, a run is safe if and only if no event of it arrives late. */
  lemma {:induction false} HarmlessIffNoneLate(s: State, steps: seq<Step>)
    requires Inv(s) && s.late == {} && Legal(s, steps)
    ensures EachHarmless(s, steps) <==> Run(s, steps).late == {}
    decreases |steps|
  {
    if steps != [] {
      var s' := Take(s, steps[0]);
      StepKeepsInv(s, steps[0]);
      if steps[0].Append? {
        NoLateIsSecure(s);
        ArrivalIsHarmlessIff(s, steps[0].id);
      }
      LateGrows(s', steps[1..]);
      if s'.late == {} { HarmlessIffNoneLate(s', steps[1..]); }
    }
  }

  lemma Compose(s: State, step: Step, rest: seq<Step>)
    requires Enabled(s, step) && Legal(Take(s, step), rest)
    ensures Legal(s, [step] + rest) && Run(s, [step] + rest) == Run(Take(s, step), rest)
  {}

  /** An ack that is alone, within the horizon and in scope moves the cursor to its target. */
  lemma AckGoesThrough(s: State, a: AckId, t: Token, target: int) returns (d: State)
    requires a !in s.acks && t.connector.None? && 0 <= s.cursor < target && WithinHorizon(s, target)
        && AllSeen(s, t, s.cursor, target)
    ensures d.log == s.log && d.cursor == target && d.passes == s.passes + [Pass(t, s.cursor, target)]
    ensures forall rest | Legal(d, rest) ::
              var all := [Load(a, t, target)] + ([CheckHorizon(a)] + ([CheckScope(a)] + ([Update(a)] + rest)));
              Legal(s, all) && Run(s, all) == Run(d, rest)
  {
    var s1 := Take(s, Load(a, t, target));
    var s2 := Take(s1, CheckHorizon(a));
    var s3 := Take(s2, CheckScope(a));
    d := Take(s3, Update(a));
    forall rest | Legal(d, rest)
      ensures var all := [Load(a, t, target)] + ([CheckHorizon(a)] + ([CheckScope(a)] + ([Update(a)] + rest)));
              Legal(s, all) && Run(s, all) == Run(d, rest)
    {
      Compose(s3, Update(a), rest);
      Compose(s2, CheckScope(a), [Update(a)] + rest);
      Compose(s1, CheckHorizon(a), [CheckScope(a)] + ([Update(a)] + rest));
      Compose(s, Load(a, t, target), [CheckHorizon(a)] + ([CheckScope(a)] + ([Update(a)] + rest)));
    }
  }

  /** A sequence number drawn early and committed late slips under the cursor unseen. */
  lemma LateCommitEscapes()
    ensures exists s0, steps ::
              Init(s0) && Legal(s0, steps) && exists id | id in Run(s0, steps).log ::
                  id <= Run(s0, steps).cursor && !Covered(Run(s0, steps), id)
  {
    var t, e, f := Token(None, {1}, {"ship.confirmed"}), Event(1, "ship.confirmed"), Event(2, "ship.confirmed");
    var s0 := State(7, map[2 := e], 0, map[], [], {});
    assert 2 in s0.log && Init(s0);
    var d := AckGoesThrough(s0, 0, t, 2);
    var rest := [Append(1, f)] + [];
    Compose(d, Append(1, f), []);
    var all := [Load(0, t, 2)] + ([CheckHorizon(0)] + ([CheckScope(0)] + ([Update(0)] + rest)));
    var s := Take(d, Append(1, f));
    assert s.passes == [Pass(t, 0, 2)] && 1 in s.log && s.log[1] == f;
    assert Legal(s0, all) && Run(s0, all) == s && !Covered(s, 1);
  }
}
