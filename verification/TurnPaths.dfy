/** Where runs of the turn machine can and cannot go: which turns can finish, and whose signal a prompt returns on. */
module TurnPaths {
  import opened Trees
  import opened Turns
  import Convergence
  import Diff
  import Walk

  // ---- Continuing a run ----

  ghost predicate Onward(run: seq<State>, labels: seq<Label>, run': seq<State>, labels': seq<Label>) {
    Linked(run', labels') && run <= run' && labels <= labels'
  }

  /** Goroutines parked stay parked, and signals already posted stay counted. */
  ghost predicate Kept(s: State, t: State) {
    && |s.handlers| <= |t.handlers| && s.log.posted <= t.log.posted
    && forall g :: 0 <= g < |s.handlers| && s.handlers[g].Parked? ==> t.handlers[g].Parked?
  }

  lemma Extend(run: seq<State>, labels: seq<Label>, l: Label) returns (run': seq<State>, labels': seq<Label>)
    requires Linked(run, labels) && Enabled(run[|labels|], l)
    ensures Onward(run, labels, run', labels') && labels' == labels + [l]
    ensures run'[|labels'|] == Step(run[|labels|], l)
  {
    run', labels' := run + [Step(run[|labels|], l)], labels + [l];
    forall k | 0 <= k < |labels'| ensures StepsAt(run', labels', k) {
      if k < |labels| { assert StepsAt(run, labels, k); }
    }
  }

  lemma ExtendGated(run: seq<State>, labels: seq<Label>, l: Label) returns (run': seq<State>, labels': seq<Label>)
    requires Linked(run, labels) && Enabled(run[|labels|], l) && Gate(run[|labels|])
    ensures Onward(run, labels, run', labels') && labels' == labels + [l]
    ensures run'[|labels'|] == Step(run[|labels|], l) && Gate(run'[|labels'|])
  {
    GateStep(run[|labels|], l);
    run', labels' := Extend(run, labels, l);
  }

  /** A continuation that keeps the gate and what is already parked or posted. */
  ghost predicate Leg(run: seq<State>, labels: seq<Label>, run': seq<State>, labels': seq<Label>) {
    && Linked(run, labels) && Onward(run, labels, run', labels')
    && Gate(run'[|labels'|]) && Kept(run[|labels|], run'[|labels'|])
  }

  /** Steps that finish what is under way: no new prompt, no edit, no further event, no failure. */
  predicate Plain(l: Label) {
    !l.ClientPrompt? && !l.AgentEdit? && !l.AgentEvent? && !l.SendFails? && !FailLabel(l)
  }

  predicate Plainly(labels: seq<Label>, labels': seq<Label>) {
    forall k :: |labels| <= k < |labels'| ==> Plain(labels'[k])
  }

  lemma LegHere(run: seq<State>, labels: seq<Label>)
    requires Linked(run, labels) && Gate(run[|labels|])
    ensures Leg(run, labels, run, labels) && Plainly(labels, labels)
  {
  }

  lemma LegsJoin(run: seq<State>, labels: seq<Label>, mid: seq<State>, midLabels: seq<Label>,
      end: seq<State>, endLabels: seq<Label>)
    requires Leg(run, labels, mid, midLabels) && Leg(mid, midLabels, end, endLabels)
    ensures Leg(run, labels, end, endLabels)
    ensures Plainly(labels, midLabels) && Plainly(midLabels, endLabels) ==> Plainly(labels, endLabels)
  {
    KeptJoin(run[|labels|], mid[|midLabels|], end[|endLabels|]);
  }

  lemma KeptJoin(s: State, t: State, u: State)
    requires Kept(s, t) && Kept(t, u)
    ensures Kept(s, u)
  {
    forall g | 0 <= g < |s.handlers| && s.handlers[g].Parked? ensures u.handlers[g].Parked? {
      assert t.handlers[g].Parked?;
    }
  }

  /** One step, of any label but a prompt's return. */
  lemma LegOf(run: seq<State>, labels: seq<Label>, l: Label) returns (run': seq<State>, labels': seq<Label>)
    requires Linked(run, labels) && Enabled(run[|labels|], l) && Gate(run[|labels|]) && !l.Return?
    ensures Leg(run, labels, run', labels') && (Plain(l) ==> Plainly(labels, labels'))
    ensures run'[|labels'|] == Step(run[|labels|], l)
  {
    run', labels' := ExtendGated(run, labels, l);
    StepKeeps(run[|labels|], l);
  }

  lemma StepKeeps(s: State, l: Label)
    requires Enabled(s, l) && !l.Return?
    ensures Kept(s, Step(s, l))
  {
  }

  // ---- The legs of a turn ----

  /** How many steps a goroutine still has before Send. */
  function ToGo(h: Handler): nat {
    match h
    case Spawned => 3
    case Snapped(_) => 2
    case Stored => 1
    case _ => 0
  }

  /** A goroutine on its way to Send gets there. */
  lemma ToSend(run: seq<State>, labels: seq<Label>) returns (run': seq<State>, labels': seq<Label>)
    requires Linked(run, labels) && Gate(run[|labels|]) && run[|labels|].log.phase.Preparing?
    ensures Leg(run, labels, run', labels') && Plainly(labels, labels')
    ensures run'[|labels'|].log.phase == Busy && run'[|labels'|].pump == run[|labels|].pump
    decreases ToGo(run[|labels|].handlers[run[|labels|].log.phase.g])
  {
    var s := run[|labels|];
    var g := s.log.phase.g;
    var l := match s.handlers[g]
      case Spawned => TakeSnapshot(g)
      case Snapped(_) => StoreBaseline(g)
      case Stored => Drain(g)
      case _ => Send(g);
    run', labels' := LegOf(run, labels, l);
    if l != Send(g) {
      var mid, midLabels := run', labels';
      run', labels' := ToSend(mid, midLabels);
      LegsJoin(run, labels, mid, midLabels, run', labels');
    }
  }

  /** The agent's result reaches the pump, once that has dealt with what came before. */
  lemma ToClosing(run: seq<State>, labels: seq<Label>) returns (run': seq<State>, labels': seq<Label>)
    requires Linked(run, labels) && Gate(run[|labels|]) && run[|labels|].log.phase == Ended
    requires run[|labels|].pump == Ready || run[|labels|].pump == Signalling
    ensures Leg(run, labels, run', labels') && Plainly(labels, labels')
    ensures run'[|labels'|].log.phase == Closing
    ensures run[|labels|].pump == Ready ==> run'[|labels'|].log.posted == run[|labels|].log.posted
    decreases |run[|labels|].events|, if run[|labels|].pump == Signalling then 1 else 0
  {
    var s := run[|labels|];
    var l := if s.pump == Signalling then PumpSignal else PumpEvent;
    run', labels' := LegOf(run, labels, l);
    if l == PumpSignal || s.events[0] != Result {
      var mid, midLabels := run', labels';
      run', labels' := ToClosing(mid, midLabels);
      LegsJoin(run, labels, mid, midLabels, run', labels');
    }
  }

  /** The pump pushes the changes it has left. */
  lemma PushRest(run: seq<State>, labels: seq<Label>) returns (run': seq<State>, labels': seq<Label>)
    requires Linked(run, labels) && Gate(run[|labels|]) && run[|labels|].pump.Sending?
    ensures Leg(run, labels, run', labels') && Plainly(labels, labels')
    ensures run'[|labels'|].pump.Sending? && run'[|labels'|].pump.rest == []
    ensures run'[|labels'|].log.posted == run[|labels|].log.posted
    decreases |run[|labels|].pump.rest|
  {
    if run[|labels|].pump.rest == [] {
      LegHere(run, labels);
      run', labels' := run, labels;
    } else {
      var mid, midLabels := LegOf(run, labels, PumpSend);
      run', labels' := PushRest(mid, midLabels);
      LegsJoin(run, labels, mid, midLabels, run', labels');
    }
  }

  /** With its changes pushed, the pump moves the baseline and announces the end of the turn. */
  lemma PushedAnnounced(run: seq<State>, labels: seq<Label>) returns (run': seq<State>, labels': seq<Label>)
    requires Linked(run, labels) && Gate(run[|labels|])
    requires run[|labels|].pump == Advanced || (run[|labels|].pump.Sending? && run[|labels|].pump.rest == [])
    ensures Leg(run, labels, run', labels') && Plainly(labels, labels')
    ensures run'[|labels'|].log.phase == Announced && run'[|labels'|].pump == Signalling
    ensures run'[|labels'|].log.posted == run[|labels|].log.posted
  {
    if run[|labels|].pump == Advanced {
      run', labels' := LegOf(run, labels, PumpDone);
    } else {
      var mid, midLabels := LegOf(run, labels, PumpAdvance);
      run', labels' := LegOf(mid, midLabels, PumpDone);
      LegsJoin(run, labels, mid, midLabels, run', labels');
    }
  }

  lemma SendingAnnounced(run: seq<State>, labels: seq<Label>) returns (run': seq<State>, labels': seq<Label>)
    requires Linked(run, labels) && Gate(run[|labels|]) && run[|labels|].pump.Sending?
    ensures Leg(run, labels, run', labels') && Plainly(labels, labels')
    ensures run'[|labels'|].log.phase == Announced && run'[|labels'|].pump == Signalling
    ensures run'[|labels'|].log.posted == run[|labels|].log.posted
  {
    var mid, midLabels := PushRest(run, labels);
    run', labels' := PushedAnnounced(mid, midLabels);
    LegsJoin(run, labels, mid, midLabels, run', labels');
  }

  /** The pump diffs, pushes and announces the end of the turn. */
  lemma ToAnnounced(run: seq<State>, labels: seq<Label>) returns (run': seq<State>, labels': seq<Label>)
    requires Linked(run, labels) && Gate(run[|labels|]) && run[|labels|].log.phase == Closing
    ensures Leg(run, labels, run', labels') && Plainly(labels, labels')
    ensures run'[|labels'|].log.phase == Announced && run'[|labels'|].pump == Signalling
    ensures run'[|labels'|].log.posted == run[|labels|].log.posted
  {
    if run[|labels|].pump == Advanced {
      run', labels' := PushedAnnounced(run, labels);
    } else if run[|labels|].pump.Sending? {
      run', labels' := SendingAnnounced(run, labels);
    } else {
      var mid, midLabels := LegOf(run, labels, PumpSnapshot);
      run', labels' := SendingAnnounced(mid, midLabels);
      LegsJoin(run, labels, mid, midLabels, run', labels');
    }
  }

  /** The client reads to the end of the turn and shows its prompt. */
  lemma ToPrompt(run: seq<State>, labels: seq<Label>) returns (run': seq<State>, labels': seq<Label>)
    requires Linked(run, labels) && Gate(run[|labels|])
    requires run[|labels|].log.phase == Announced || run[|labels|].log.phase == TokenReady
    ensures Leg(run, labels, run', labels') && Plainly(labels, labels')
    ensures run'[|labels'|].repl == AtPrompt && run'[|labels'|].pump == run[|labels|].pump
    decreases |run[|labels|].down|
  {
    var s := run[|labels|];
    if s.log.phase == TokenReady {
      run', labels' := LegOf(run, labels, ClientToken);
    } else {
      DoneLastHead(s.down);
      var mid, midLabels := LegOf(run, labels, ClientRead);
      run', labels' := ToPrompt(mid, midLabels);
      LegsJoin(run, labels, mid, midLabels, run', labels');
    }
  }

  // ---- Which turns can finish ----

  /** No turn is open, or its end is on its way to the client, or nothing has gone wrong with the pump or this turn. */
  predicate Finishable(s: State) {
    || s.log.phase == Quiet || s.log.phase == Announced || s.log.phase == TokenReady
    || (s.pump != Stopped && s.log.phase != NotSent && s.log.phase != Lost && s.log.phase != NotPushed)
  }

  /** From an answered prompt to the announced end of its turn. */
  lemma ResultAnnounced(run: seq<State>, labels: seq<Label>) returns (run': seq<State>, labels': seq<Label>)
    requires Linked(run, labels) && Gate(run[|labels|]) && run[|labels|].log.phase == Busy
    requires run[|labels|].pump == Ready || run[|labels|].pump == Signalling
    ensures Leg(run, labels, run', labels') && Plainly(labels, labels')
    ensures run'[|labels'|].log.phase == Announced && run'[|labels'|].pump == Signalling
    ensures run[|labels|].pump == Ready ==> run'[|labels'|].log.posted == run[|labels|].log.posted
  {
    var a, aLabels := LegOf(run, labels, AgentResult);
    var b, bLabels := ToClosing(a, aLabels);
    LegsJoin(run, labels, a, aLabels, b, bLabels);
    run', labels' := ToAnnounced(b, bLabels);
    LegsJoin(run, labels, b, bLabels, run', labels');
  }

  lemma PumpOfPhase(s: State)
    requires Gate(s)
    ensures s.log.phase != Closing ==> s.pump == Ready || s.pump == Signalling || s.pump == Stopped
  {
  }

  /** An open turn that nothing has gone wrong with can be taken to its announced end. */
  lemma OpenAnnounced(run: seq<State>, labels: seq<Label>) returns (run': seq<State>, labels': seq<Label>)
    requires Linked(run, labels) && Gate(run[|labels|]) && Finishable(run[|labels|])
    requires var ph := run[|labels|].log.phase; ph != Quiet && ph != TokenReady
    ensures Leg(run, labels, run', labels') && Plainly(labels, labels') && run'[|labels'|].log.phase == Announced
    ensures run[|labels|].log.phase != Announced ==> run'[|labels'|].pump == Signalling
    decreases match run[|labels|].log.phase case Flying => 3 case Preparing(_) => 2 case _ => 1
  {
    var s := run[|labels|];
    PumpOfPhase(s);
    if s.log.phase == Announced {
      LegHere(run, labels);
      run', labels' := run, labels;
    } else if s.log.phase == Busy {
      run', labels' := ResultAnnounced(run, labels);
    } else if s.log.phase == Closing {
      run', labels' := ToAnnounced(run, labels);
    } else if s.log.phase == Ended {
      var mid, midLabels := ToClosing(run, labels);
      run', labels' := ToAnnounced(mid, midLabels);
      LegsJoin(run, labels, mid, midLabels, run', labels');
    } else if s.log.phase == Flying {
      var mid, midLabels := LegOf(run, labels, ServerSpawn);
      run', labels' := OpenAnnounced(mid, midLabels);
      LegsJoin(run, labels, mid, midLabels, run', labels');
    } else {
      var mid, midLabels := ToSend(run, labels);
      run', labels' := ResultAnnounced(mid, midLabels);
      LegsJoin(run, labels, mid, midLabels, run', labels');
    }
  }

  /** A turn that can finish does in some continuation: the client gets back to its prompt. */
  lemma Finishes(run: seq<State>, labels: seq<Label>) returns (run': seq<State>, labels': seq<Label>)
    requires Linked(run, labels) && Gate(run[|labels|]) && Finishable(run[|labels|])
    ensures Leg(run, labels, run', labels') && Plainly(labels, labels') && run'[|labels'|].repl == AtPrompt
  {
    var s := run[|labels|];
    if s.log.phase == Quiet {
      LegHere(run, labels);
      run', labels' := run, labels;
    } else if s.log.phase == TokenReady {
      run', labels' := ToPrompt(run, labels);
    } else {
      var mid, midLabels := OpenAnnounced(run, labels);
      run', labels' := ToPrompt(mid, midLabels);
      LegsJoin(run, labels, mid, midLabels, run', labels');
    }
  }

  lemma StuckStays(s: State, l: Label)
    requires Gate(s) && Enabled(s, l) && !Finishable(s)
    ensures !Finishable(Step(s, l))
  {
  }

  lemma {:induction false} StuckFrom(run: seq<State>, labels: seq<Label>, j: nat, k: nat)
    requires IsRun(run, labels) && j <= k <= |labels| && !Finishable(run[j])
    ensures !Finishable(run[k])
    decreases k - j
  {
    if j < k {
      StuckFrom(run, labels, j, k - 1);
      StuckNext(run, labels, k - 1);
    }
  }

  lemma StuckNext(run: seq<State>, labels: seq<Label>, k: nat)
    requires IsRun(run, labels) && k < |labels| && !Finishable(run[k])
    ensures !Finishable(run[k + 1])
  {
    Convergence.RunInv(run, labels, k);
    assert StepsAt(run, labels, k);
    StuckStays(run[k], labels[k]);
  }

  ghost predicate BackAtPrompt(run: seq<State>, labels: seq<Label>, run': seq<State>, labels': seq<Label>) {
    Onward(run, labels, run', labels') && run'[|labels'|].repl == AtPrompt
  }

  /**
   A run can be continued until the client is back at its prompt if and only if no turn is open, or the
   open turn's end has been sent, or else the pump has not stopped, the agent has taken the prompt, and no
   change nor the turn's end has failed to be sent.
   */
  lemma TurnCanFinish(run: seq<State>, labels: seq<Label>)
    requires IsRun(run, labels)
    ensures Finishable(run[|labels|]) <==>
      exists run': seq<State>, labels': seq<Label> :: BackAtPrompt(run, labels, run', labels')
  {
    Convergence.RunInv(run, labels, |labels|);
    if Finishable(run[|labels|]) {
      var run', labels' := Finishes(run, labels);
      assert BackAtPrompt(run, labels, run', labels');
    } else {
      forall run': seq<State>, labels': seq<Label> | Onward(run, labels, run', labels')
        ensures !BackAtPrompt(run, labels, run', labels')
      {
        NeverBack(run, labels, run', labels');
      }
    }
  }

  lemma NeverBack(run: seq<State>, labels: seq<Label>, run': seq<State>, labels': seq<Label>)
    requires IsRun(run, labels) && !Finishable(run[|labels|]) && Onward(run, labels, run', labels')
    ensures run'[|labels'|].repl != AtPrompt
  {
    assert run'[0] == run[0] && run'[|labels|] == run[|labels|];
    StuckFrom(run', labels', |labels|, |labels'|);
    Convergence.RunInv(run', labels', |labels'|);
  }

  // ---- Whose signal a prompt returns on ----

  /** In no continuation does prompt g return before the signal of its own turn, the (g+1)-th, has been posted. */
  ghost predicate NeverEarly(run: seq<State>, labels: seq<Label>, g: nat) {
    forall run': seq<State>, labels': seq<Label>, k: nat ::
      Onward(run, labels, run', labels') && |labels| <= k < |labels'| && labels'[k] == Return(g) ==>
        run'[k].log.posted > g
  }

  /** While g of the signals have been posted, the slot is empty. */
  predicate Awaits(s: State, g: nat) {
    s.log.posted >= g && (s.log.posted == g ==> !s.signal)
  }

  lemma AwaitsStep(s: State, l: Label, g: nat)
    requires Awaits(s, g) && Enabled(s, l)
    ensures Awaits(Step(s, l), g)
  {
  }

  lemma {:induction false} AwaitsFrom(run: seq<State>, labels: seq<Label>, j: nat, k: nat, g: nat)
    requires Linked(run, labels) && j <= k <= |labels| && Awaits(run[j], g)
    ensures Awaits(run[k], g)
    decreases k - j
  {
    if j < k {
      AwaitsFrom(run, labels, j, k - 1, g);
      assert StepsAt(run, labels, k - 1);
      AwaitsStep(run[k - 1], labels[k - 1], g);
    }
  }

  /** When prompt g drains the slot, all signals of turns before it are posted but for one the pump may hold. */
  lemma PostedAtDrain(s: State, g: nat)
    requires Convergence.Inv(s) && Enabled(s, Drain(g))
    ensures s.log.phase == Preparing(g) && |s.handlers| == g + 1
    ensures s.pump == Ready || s.pump == Signalling || s.pump == Stopped
    ensures s.log.posted == if s.pump == Signalling then g - 1 else g
  {
    assert BeforeSend(s.handlers[g]);
  }

  ghost predicate JustDrained(run: seq<State>, labels: seq<Label>, g: nat) {
    IsRun(run, labels) && labels != [] && labels[|labels| - 1] == Drain(g)
  }

  /** The state before a drain that ends a run. */
  function AtDrain(run: seq<State>): State
    requires |run| >= 2
  {
    run[|run| - 2]
  }

  lemma AfterDrain(run: seq<State>, labels: seq<Label>, g: nat)
    requires JustDrained(run, labels, g)
    ensures var (s, t) := (AtDrain(run), run[|labels|]);
      && (s.pump == Ready || s.pump == Signalling || s.pump == Stopped) && |s.handlers| == g + 1
      && t == s.(signal := false, handlers := s.handlers[g := Turns.Drained], log := t.log)
      && Gate(t) && t.log.phase == Preparing(g)
      && t.log.posted == if s.pump == Signalling then g - 1 else g
  {
    var n := |labels| - 1;
    Convergence.RunInv(run, labels, n);
    assert StepsAt(run, labels, n);
    PostedAtDrain(run[n], g);
    GateStep(run[n], Drain(g));
  }

  lemma NotEarly(run: seq<State>, labels: seq<Label>, g: nat)
    requires JustDrained(run, labels, g) && AtDrain(run).pump != Signalling
    ensures NeverEarly(run, labels, g)
  {
    AfterDrain(run, labels, g);
    forall run': seq<State>, labels': seq<Label>, k: nat
      | Onward(run, labels, run', labels') && |labels| <= k < |labels'| && labels'[k] == Return(g)
      ensures run'[k].log.posted > g
    {
      assert run'[|labels|] == run[|labels|];
      AwaitsFrom(run', labels', |labels|, k, g);
      assert StepsAt(run', labels', k);
    }
  }

  /** With the pump still to post the signal of the turn before, prompt g can return on that one at once. */
  lemma CanBeEarly(run: seq<State>, labels: seq<Label>, g: nat)
    requires JustDrained(run, labels, g) && AtDrain(run).pump == Signalling
    ensures !NeverEarly(run, labels, g)
  {
    AfterDrain(run, labels, g);
    var run', labels' := Extend(run, labels, Send(g));
    run', labels' := Extend(run', labels', PumpSignal);
    var k := |labels'|;
    assert run'[k].log.posted == g;
    run', labels' := Extend(run', labels', Return(g));
    assert labels'[k] == Return(g) && run'[k].log.posted == g;
  }

  /**
   HandlePrompt waits for its own turn if and only if, when it drains the slot, the pump is not between
   announcing the turn before and posting that turn's signal.
   */
  lemma ReturnsAfterOwnTurn(run: seq<State>, labels: seq<Label>, g: nat)
    requires JustDrained(run, labels, g)
    ensures NeverEarly(run, labels, g) <==> AtDrain(run).pump != Signalling
  {
    if AtDrain(run).pump == Signalling {
      CanBeEarly(run, labels, g);
    } else {
      NotEarly(run, labels, g);
    }
  }

  // ---- Whose else, and when else ----

  /** From a drain to the posting of the turn's own signal, the (g+1)-th. */
  lemma ToOwnSignal(run: seq<State>, labels: seq<Label>, g: nat) returns (run': seq<State>, labels': seq<Label>)
    requires JustDrained(run, labels, g) && AtDrain(run).pump != Stopped
    ensures Leg(run, labels, run', labels') && run'[|labels'|].log.phase == Announced
    ensures var t := run'[|labels'|];
      t.log.posted == g + 1 && t.signal && t.pump == Ready && g < |t.handlers| && t.handlers[g].Parked?
  {
    AfterDrain(run, labels, g);
    var a, aLabels := LegOf(run, labels, Send(g));
    if a[|aLabels|].pump == Signalling {
      var a', aLabels' := LegOf(a, aLabels, PumpSignal);
      LegsJoin(run, labels, a, aLabels, a', aLabels');
      a, aLabels := a', aLabels';
    }
    var b, bLabels := ResultAnnounced(a, aLabels);
    LegsJoin(run, labels, a, aLabels, b, bLabels);
    run', labels' := LegOf(b, bLabels, PumpSignal);
    LegsJoin(run, labels, b, bLabels, run', labels');
  }

  /** An earlier prompt's goroutine returns when the (g+1)-th signal is the last posted. */
  ghost predicate Takes(run: seq<State>, labels: seq<Label>, g: nat, h: nat,
      run': seq<State>, labels': seq<Label>, k: nat)
  {
    && Onward(run, labels, run', labels') && |labels| <= k < |labels'|
    && labels'[k] == Return(h) && run'[k].log.posted == g + 1
  }

  lemma ParkedTakes(run: seq<State>, labels: seq<Label>, g: nat, h: nat)
    returns (run': seq<State>, labels': seq<Label>, k: nat)
    requires JustDrained(run, labels, g) && AtDrain(run).pump != Stopped
    requires h < |AtDrain(run).handlers| && h != g && AtDrain(run).handlers[h].Parked?
    ensures Takes(run, labels, g, h, run', labels', k)
  {
    AfterDrain(run, labels, g);
    assert run[|labels|].handlers[h].Parked?;
    var mid, midLabels := ToOwnSignal(run, labels, g);
    k := |midLabels|;
    run', labels' := Extend(mid, midLabels, Return(h));
  }

  /** No more signals, or a goroutine past waiting for one. */
  predicate Idle(s: State, g: nat, h: nat) {
    || Silent(s, g)
    || (h < |s.handlers| && (s.handlers[h].Returned? || s.handlers[h].Refused?))
  }

  lemma IdleStep(s: State, l: Label, g: nat, h: nat)
    requires Idle(s, g, h) && Enabled(s, l)
    ensures Idle(Step(s, l), g, h)
  {
  }

  lemma {:induction false} IdleFrom(run: seq<State>, labels: seq<Label>, j: nat, k: nat, g: nat, h: nat)
    requires Linked(run, labels) && j <= k <= |labels| && Idle(run[j], g, h)
    ensures Idle(run[k], g, h)
    decreases k - j
  {
    if j < k {
      IdleFrom(run, labels, j, k - 1, g, h);
      assert StepsAt(run, labels, k - 1);
      IdleStep(run[k - 1], labels[k - 1], g, h);
    }
  }

  lemma IdleNeverTakes(run: seq<State>, labels: seq<Label>, g: nat, h: nat,
      run': seq<State>, labels': seq<Label>, k: nat)
    requires Linked(run, labels) && Idle(run[|labels|], g, h)
    ensures !Takes(run, labels, g, h, run', labels', k)
  {
    if Onward(run, labels, run', labels') && |labels| <= k < |labels'| {
      assert run'[|labels|] == run[|labels|];
      IdleFrom(run', labels', |labels|, k, g, h);
      assert StepsAt(run', labels', k);
    }
  }

  lemma NotParkedIdle(run: seq<State>, labels: seq<Label>, g: nat, h: nat)
    requires JustDrained(run, labels, g) && h < g
    ensures h < |AtDrain(run).handlers|
    ensures !AtDrain(run).handlers[h].Parked? || AtDrain(run).pump == Stopped ==> Idle(run[|labels|], g, h)
  {
    AfterDrain(run, labels, g);
    assert !BeforeSend(run[|labels|].handlers[h]);
  }

  /**
   An earlier prompt can return on prompt g's signal if and only if it is still parked when g drains the
   slot, and the pump lives.
   */
  lemma EarlierTakesSignal(run: seq<State>, labels: seq<Label>, g: nat, h: nat)
    requires JustDrained(run, labels, g) && h < g
    ensures h < |AtDrain(run).handlers|
    ensures AtDrain(run).handlers[h].Parked? && AtDrain(run).pump != Stopped <==>
      exists run': seq<State>, labels': seq<Label>, k: nat :: Takes(run, labels, g, h, run', labels', k)
  {
    NotParkedIdle(run, labels, g, h);
    if AtDrain(run).handlers[h].Parked? && AtDrain(run).pump != Stopped {
      var run', labels', k := ParkedTakes(run, labels, g, h);
    } else {
      forall run': seq<State>, labels': seq<Label>, k: nat ensures !Takes(run, labels, g, h, run', labels', k) {
        IdleNeverTakes(run, labels, g, h, run', labels', k);
      }
    }
  }

  /** The client's next prompt goes all the way to its signal. */
  lemma ToNextSignal(run: seq<State>, labels: seq<Label>) returns (run': seq<State>, labels': seq<Label>)
    requires Linked(run, labels) && Gate(run[|labels|]) && run[|labels|].log.phase == Announced
    requires run[|labels|].pump == Ready
    ensures Leg(run, labels, run', labels')
    ensures run'[|labels'|].signal && run'[|labels'|].log.posted > run[|labels|].log.posted
  {
    var b, bLabels := ToPrompt(run, labels);
    var c, cLabels := LegOf(b, bLabels, ClientPrompt);
    LegsJoin(run, labels, b, bLabels, c, cLabels);
    var d, dLabels := OpenAnnounced(c, cLabels);
    LegsJoin(run, labels, c, cLabels, d, dLabels);
    run', labels' := LegOf(d, dLabels, PumpSignal);
    LegsJoin(run, labels, d, dLabels, run', labels');
  }

  /** Prompt g returns only on a later turn's signal. */
  ghost predicate ReturnsLate(run: seq<State>, labels: seq<Label>, g: nat,
      run': seq<State>, labels': seq<Label>, k: nat)
  {
    && Onward(run, labels, run', labels') && |labels| <= k < |labels'|
    && labels'[k] == Return(g) && run'[k].log.posted > g + 1
  }

  lemma BuildLate(run: seq<State>, labels: seq<Label>, g: nat)
    returns (run': seq<State>, labels': seq<Label>, k: nat)
    requires JustDrained(run, labels, g) && AtDrain(run).pump != Stopped
    ensures ReturnsLate(run, labels, g, run', labels', k)
  {
    var a, aLabels := ToOwnSignal(run, labels, g);
    var b, bLabels := ToNextSignal(a, aLabels);
    k := |bLabels|;
    assert b[k].handlers[g].Parked?;
    run', labels' := Extend(b, bLabels, Return(g));
  }

  /** With the pump stopped no signal comes any more. */
  predicate Silent(s: State, g: nat) {
    s.pump == Stopped && s.log.posted <= g
  }

  lemma SilentStep(s: State, l: Label, g: nat)
    requires Silent(s, g) && Enabled(s, l)
    ensures Silent(Step(s, l), g)
  {
  }

  lemma {:induction false} SilentFrom(run: seq<State>, labels: seq<Label>, j: nat, k: nat, g: nat)
    requires Linked(run, labels) && j <= k <= |labels| && Silent(run[j], g)
    ensures Silent(run[k], g)
    decreases k - j
  {
    if j < k {
      SilentFrom(run, labels, j, k - 1, g);
      assert StepsAt(run, labels, k - 1);
      SilentStep(run[k - 1], labels[k - 1], g);
    }
  }

  lemma SilentNeverLate(run: seq<State>, labels: seq<Label>, g: nat,
      run': seq<State>, labels': seq<Label>, k: nat)
    requires Linked(run, labels) && Silent(run[|labels|], g)
    ensures !ReturnsLate(run, labels, g, run', labels', k)
  {
    if Onward(run, labels, run', labels') && |labels| <= k < |labels'| {
      assert run'[|labels|] == run[|labels|];
      SilentFrom(run', labels', |labels|, k, g);
    }
  }

  /**
   A prompt that drains the slot can return only on a later turn's signal, its own having been drained by the
   next prompt, if and only if the pump lives.
   */
  lemma CanBeLate(run: seq<State>, labels: seq<Label>, g: nat)
    requires JustDrained(run, labels, g)
    ensures AtDrain(run).pump != Stopped <==>
      exists run': seq<State>, labels': seq<Label>, k: nat :: ReturnsLate(run, labels, g, run', labels', k)
  {
    if AtDrain(run).pump != Stopped {
      var run', labels', k := BuildLate(run, labels, g);
    } else {
      AfterDrain(run, labels, g);
      forall run': seq<State>, labels': seq<Label>, k: nat ensures !ReturnsLate(run, labels, g, run', labels', k) {
        SilentNeverLate(run, labels, g, run', labels', k);
      }
    }
  }

  // ---- The race is real ----

  /** A prompt up to its Send. */
  lemma Prompted(run: seq<State>, labels: seq<Label>) returns (run': seq<State>, labels': seq<Label>)
    requires Linked(run, labels) && run[|labels|].repl == AtPrompt
    ensures Onward(run, labels, run', labels')
    ensures var (s, s') := (run[|labels|], run'[|labels'|]);
      s' == s.(repl := Waiting, handlers := s.handlers + [Parked], preTurn := Walk.SnapshotOf(s.ws), signal := false,
               outstanding := s.outstanding + 1, log := s'.log)
  {
    var s := run[|labels|];
    var g := |s.handlers|;
    run', labels' := Extend(run, labels, ClientPrompt);
    run', labels' := Extend(run', labels', ServerSpawn);
    run', labels' := Extend(run', labels', TakeSnapshot(g));
    run', labels' := Extend(run', labels', StoreBaseline(g));
    run', labels' := Extend(run', labels', Drain(g));
    assert run'[|labels'|].handlers == s.handlers + [Drained];
    run', labels' := Extend(run', labels', Send(g));
    assert run'[|labels'|].handlers == s.handlers + [Parked];
  }

  /** The agent answers without having changed anything, and the pump diffs. */
  lemma Diffed(run: seq<State>, labels: seq<Label>) returns (run': seq<State>, labels': seq<Label>)
    requires Linked(run, labels)
    requires var s := run[|labels|];
      s.outstanding == 1 && s.events == [] && s.down == [] && s.pump == Ready && s.preTurn == Walk.SnapshotOf(s.ws)
    ensures Onward(run, labels, run', labels')
    ensures var (s, s') := (run[|labels|], run'[|labels'|]);
      s' == s.(outstanding := 0, down := [Stream], pump := Sending(s.preTurn, []), log := s'.log)
  {
    NoChanges(run[|labels|].ws);
    run', labels' := Extend(run, labels, AgentResult);
    run', labels' := Extend(run', labels', PumpEvent);
    run', labels' := Extend(run', labels', PumpSnapshot);
  }

  /** The pump stops short of posting the signal. */
  lemma Answered(run: seq<State>, labels: seq<Label>) returns (run': seq<State>, labels': seq<Label>)
    requires Linked(run, labels)
    requires var s := run[|labels|];
      s.outstanding == 1 && s.events == [] && s.down == [] && s.pump == Ready && s.preTurn == Walk.SnapshotOf(s.ws)
    ensures Onward(run, labels, run', labels')
    ensures var (s, s') := (run[|labels|], run'[|labels'|]);
      s' == s.(outstanding := 0, down := [Stream, TurnDone], pump := Signalling, log := s'.log)
  {
    run', labels' := Diffed(run, labels);
    run', labels' := Extend(run', labels', PumpAdvance);
    run', labels' := Extend(run', labels', PumpDone);
    assert run'[|labels'|].down == [Stream, TurnDone];
  }

  lemma NoChanges(w: Tree)
    ensures Diff.Changes(Walk.SnapshotOf(w), Walk.SnapshotOf(w)) == []
  {
    Walk.SnapshotIsManifest(w);
    Walk.ManifestIndex(w, Walk.UNLIMITED, Walk.SnapshotOf(w));
    Diff.DiffMinimal(Walk.SnapshotOf(w), Walk.SnapshotOf(w), "");
  }

  /** The client reads to the end of the turn and shows its prompt again. */
  lemma Reprompted(run: seq<State>, labels: seq<Label>) returns (run': seq<State>, labels': seq<Label>)
    requires Linked(run, labels) && run[|labels|].down == [Stream, TurnDone] && run[|labels|].repl == Waiting
    requires !run[|labels|].token
    ensures Onward(run, labels, run', labels')
    ensures var (s, s') := (run[|labels|], run'[|labels'|]); s' == s.(repl := AtPrompt, down := [], log := s'.log)
  {
    run', labels' := Extend(run, labels, ClientRead);
    assert run'[|labels'|].down == [TurnDone];
    run', labels' := Extend(run', labels', ClientRead);
    run', labels' := Extend(run', labels', ClientToken);
  }

  /**
   From every start there is a run in which the second prompt's HandlePrompt returns, on the first turn's
   signal, while the agent is still working on it. So a HandlePrompt does not in general return at the
   end of its own turn.
   */
  lemma SignalRace(s: State) returns (run: seq<State>, labels: seq<Label>)
    requires Initial(s)
    ensures IsRun(run, labels) && run[0] == s
    ensures run[|labels|].handlers == [Parked, Returned] && run[|labels|].outstanding == 1
  {
    run, labels := [s], [];
    run, labels := Prompted(run, labels);
    run, labels := Answered(run, labels);
    run, labels := Reprompted(run, labels);
    run, labels := Prompted(run, labels);
    run, labels := Extend(run, labels, PumpSignal);
    run, labels := Extend(run, labels, Return(1));
  }
}
