/** What holds of every reachable state of the turn machine besides convergence. */
module TurnSafety {
  import opened Domain
  import opened Turns
  import Convergence
  import Handshake
  import Walk

  /**
   Baseline safety: whatever prompts' goroutines are still parked, the j-th diff is taken against the
   snapshot at the j-th Send, and that is the snapshot the diff before ended at (at first, the workspace
   as the handshake left it). So no diff is taken twice and none is skipped.
   */
  lemma BaselineSafe(run: seq<State>, labels: seq<Label>, k: nat, j: nat)
    requires IsRun(run, labels) && k <= |labels| && j < |run[k].log.taken|
    ensures var log := run[k].log;
      && j < |log.sentAt| && log.taken[j].0 == log.sentAt[j]
      && log.sentAt[j] == if j == 0 then Walk.SnapshotOf(run[0].ws) else log.taken[j - 1].1
  {
    Convergence.RunInv(run, labels, k);
    Convergence.RunNoted(run, labels, k);
    assert ChainAt(run[k].log, j);
  }

  /** When finishTurn takes its diff, exactly one Send is undiffed, and `preTurn` is the snapshot at that Send. */
  lemma DiffOfOwnTurn(run: seq<State>, labels: seq<Label>, k: nat)
    requires IsRun(run, labels) && k <= |labels| && run[k].pump == Finishing
    ensures var (s, log) := (run[k], run[k].log);
      |log.sentAt| == |log.taken| + 1 && s.preTurn == log.sentAt[|log.taken|]
  {
    Convergence.RunInv(run, labels, k);
  }

  /**
   Completion signals are conserved: each turn finished has its signal in one place, at most one of them in
   the channel, so prompts that return by a signal never outnumber the diffs taken.
   */
  lemma SignalsConserved(run: seq<State>, labels: seq<Label>, k: nat)
    requires IsRun(run, labels) && k <= |labels|
    ensures var (s, log) := (run[k], run[k].log);
      && log.posted == log.dropped + log.drained + ReturnedCount(s.handlers) + (if s.signal then 1 else 0)
      && log.posted <= |log.taken| <= log.posted + 1
      && ReturnedCount(s.handlers) <= |log.taken|
  {
    Convergence.RunInv(run, labels, k);
  }

  /**
   Turn gating: at most one prompt is anywhere from the client's link to the end of its turn, its goroutine
   before Send included; and everything of a turn is applied before the next prompt can be sent.
   */
  lemma TurnsGated(run: seq<State>, labels: seq<Label>, k: nat)
    requires IsRun(run, labels) && k <= |labels|
    ensures var s := run[k];
      && s.log.prompts == s.log.tokens + (if s.repl == AtPrompt then 0 else 1)
      && s.up + s.outstanding + Results(s.events) + (if InTurn(s.pump) then 1 else 0) <= 1
      && (s.repl == AtPrompt ==>
            && Convergence.Pending(s) == [] && !InTurn(s.pump) && s.outstanding == 0 && Results(s.events) == 0
            && forall g :: 0 <= g < |s.handlers| ==> !BeforeSend(s.handlers[g]))
    ensures var s := run[k];
      forall g :: 0 <= g < |s.handlers| && BeforeSend(s.handlers[g]) ==>
        && s.up + s.outstanding + Results(s.events) + (if InTurn(s.pump) then 1 else 0) == 0
        && forall h :: 0 <= h < |s.handlers| && h != g ==> !BeforeSend(s.handlers[h])
  {
    Convergence.RunInv(run, labels, k);
    if run[k].repl == AtPrompt { Convergence.SettledMirrors(run[k]); }
  }

  lemma StoppedHandler(s: State, l: Label)
    requires s.pump == Stopped && Enabled(s, l) && HandlerLabel(l)
    ensures var t := Step(s, l); t.pump == Stopped && t.log.posted == s.log.posted && t.down == s.down
  {
  }

  lemma StoppedOther(s: State, l: Label)
    requires s.pump == Stopped && Enabled(s, l) && !HandlerLabel(l)
    ensures var t := Step(s, l); t.pump == Stopped && t.log.posted == s.log.posted && |t.down| <= |s.down|
    ensures !PumpLabel(l) && !FailLabel(l)
  {
  }

  lemma StoppedStep(s: State, l: Label)
    requires s.pump == Stopped && Enabled(s, l)
    ensures var t := Step(s, l); t.pump == Stopped && t.log.posted == s.log.posted && |t.down| <= |s.down|
    ensures !PumpLabel(l) && !FailLabel(l)
  {
    if HandlerLabel(l) {
      StoppedHandler(s, l);
    } else {
      StoppedOther(s, l);
    }
  }

  lemma {:induction false} StoppedFrom(run: seq<State>, labels: seq<Label>, j: nat, k: nat)
    requires Linked(run, labels) && j <= k <= |labels| && run[j].pump == Stopped
    ensures run[k].pump == Stopped && run[k].log.posted == run[j].log.posted && |run[k].down| <= |run[j].down|
    ensures forall i :: j <= i < k ==> !PumpLabel(labels[i]) && !FailLabel(labels[i])
    decreases k - j
  {
    if j < k {
      StoppedFrom(run, labels, j, k - 1);
      assert StepsAt(run, labels, k - 1);
      StoppedStep(run[k - 1], labels[k - 1]);
    }
  }

  /** An event that cannot be forwarded ends the pump: it takes no further step, sends nothing and signals nothing. */
  lemma FailedForwardEndsPump(run: seq<State>, labels: seq<Label>, j: nat, k: nat)
    requires Linked(run, labels) && j < k <= |labels| && labels[j].EventFails?
    ensures run[k].log.posted == run[j].log.posted && |run[k].down| <= |run[j].down|
    ensures forall i :: j < i < k ==> !PumpLabel(labels[i]) && !FailLabel(labels[i])
  {
    assert StepsAt(run, labels, j);
    StoppedFrom(run, labels, j + 1, k);
  }

  /** A session whose handshake has finished is one whose turns may begin. */
  lemma HandshakeOpens(run: seq<Handshake.State>, labels: seq<Handshake.Label>, k: nat, i: nat, preTurn: Manifest)
    requires Handshake.IsRun(run, labels) && k < |run| && i < |run[k].sessions| && run[k].sessions[i].ws.Some?
    ensures var x := run[k].sessions[i]; Initial(Opened(x.tree, x.ws.value, preTurn))
  {
    var x := run[k].sessions[i];
    Handshake.RunInv(run, labels, k);
    assert Handshake.SessionInv(x, run[k].store, run[k].umask);
    FaithfulStarts(x, run[k].umask);
  }

  lemma FaithfulStarts(x: Handshake.Session, umask: Mode)
    requires Handshake.Honest(x) && x.ws.Some? && Handshake.Faithful(x.ws.value, x.manifest, umask)
    ensures Starts(x.tree, x.ws.value)
  {
    var opts :| Walk.ManifestOf(x.tree, opts, x.manifest);
    Walk.ManifestIndex(x.tree, opts, x.manifest);
  }
}
