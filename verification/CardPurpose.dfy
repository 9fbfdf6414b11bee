/** When a reset card may be spent at all: only when due, only for the reserved card, never in a rehearsal. */
module CardPurpose {
  import opened CardSchedule

  /** The run's own task is valid, switched on, due for at most fifteen minutes, and its card confirmed. */
  predicate Due(x: Executor) {
    && ValidSchedule(x.task) && x.task.enabled
    && x.task.runAt <= x.now <= x.task.runAt + GRACE && x.now < x.task.creditExpiresAt
    && x.faults.account.Usable?
    && x.faults.credits.Some? && x.task.creditExpiresAt in x.faults.credits.value.0 && x.faults.credits.value.1 >= 1
  }

  predicate Begun(x: Executor) {
    ValidSchedule(x.task) && (x.task.enabled ==> x.task.runAt <= x.now)
  }

  /** What a run has checked by the time it is at its place. */
  predicate CheckedAtPc(x: Executor) {
    && (x.pc.Find? || x.pc.Reread? || x.pc.Claim? || x.pc.Owns() ==> Begun(x))
    && (x.pc.Reread? || x.pc.Claim? || x.pc.Owns() ==> x.task.enabled)
    && (x.pc.Spend? ==> Due(x))
  }

  lemma {:induction false} StepChecks(s: Shared, run: nat, x: Executor)
    requires CheckedAtPc(x)
    ensures CheckedAtPc(x.(pc := Step(s, run, x).1))
  {
  }

  ghost predicate RunsChecked(runs: map<nat, Executor>) {
    forall run | run in runs :: CheckedAtPc(runs[run])
  }

  /** The run behind a POST has that task and found it due. */
  ghost predicate PostDue(runs: map<nat, Executor>, e: Entry) {
    e.PostedBy? ==> e.run in runs && runs[e.run].task.id == e.id && Due(runs[e.run])
  }

  ghost predicate PostsDue(w: World) {
    forall k | 0 <= k < |w.shared.log| :: PostDue(w.runs, w.shared.log[k])
  }

  /** A step appends at most two entries, and a POST only from a run about to spend. */
  lemma {:induction false} StepAppends(s: Shared, run: nat, x: Executor)
    ensures var t := Step(s, run, x).0;
            && s.log <= t.log
            && forall k | |s.log| <= k < |t.log| && t.log[k].PostedBy? ::
                 x.pc.Spend? && t.log[k].run == run && t.log[k].id == x.task.id
  {
  }

  lemma {:induction false} GoKeepsDue(w: World, run: nat)
    requires RunsChecked(w.runs) && PostsDue(w) && run in w.runs
    ensures RunsChecked(Moved(w, run).runs) && PostsDue(Moved(w, run))
  {
    var x := w.runs[run];
    StepChecks(w.shared, run, x);
    StepAppends(w.shared, run, x);
    var v := Moved(w, run);
    forall k | 0 <= k < |v.shared.log| ensures PostDue(v.runs, v.shared.log[k]) {
      if k < |w.shared.log| {
        assert v.shared.log[k] == w.shared.log[k] && PostDue(w.runs, w.shared.log[k]);
      }
    }
  }

  lemma {:induction false} ActKeepsDue(w: World, a: Action)
    requires RunsChecked(w.runs) && PostsDue(w)
    ensures RunsChecked(Act(w, a).runs) && PostsDue(Act(w, a))
  {
    if a.Go? {
      if a.run in w.runs {
        GoKeepsDue(w, a.run);
      }
    } else {
      var v := Act(w, a);
      assert v.shared.log == w.shared.log;
      forall k | 0 <= k < |v.shared.log| ensures PostDue(v.runs, v.shared.log[k]) {
        assert PostDue(w.runs, w.shared.log[k]);
      }
    }
  }

  lemma {:induction false} RunKeepsDue(config: PluginConfig, trace: seq<Action>)
    ensures RunsChecked(Run(Fresh(config), trace).runs) && PostsDue(Run(Fresh(config), trace))
  {
    if trace != [] {
      RunKeepsDue(config, trace[..|trace| - 1]);
      ActKeepsDue(Run(Fresh(config), trace[..|trace| - 1]), trace[|trace| - 1]);
    }
  }

  /**
   Whatever interleaves, a POST is issued only by a run whose own valid task was switched on and due for
   at most fifteen minutes, on a usable account that still listed the reserved card as unspent.
   */
  lemma {:induction false} PostsAreDue(config: PluginConfig, trace: seq<Action>, k: nat)
    requires var log := Run(Fresh(config), trace).shared.log; k < |log| && log[k].PostedBy?
    ensures var w := Run(Fresh(config), trace);
            var e := w.shared.log[k];
            e.run in w.runs && w.runs[e.run].task.id == e.id && Due(w.runs[e.run])
  {
    RunKeepsDue(config, trace);
    assert PostDue(Run(Fresh(config), trace).runs, Run(Fresh(config), trace).shared.log[k]);
  }

  // ----- rehearsals -----

  /** Nothing a run has read or remembers says otherwise than rehearsal, so it is not about to spend. */
  predicate Rehearses(x: Executor) {
    match x.pc
    case Claim(dry) => dry
    case CloseRead(dry) => dry
    case ClosePut(dry, read) => dry && read.dryRun
    case Check(dry) => dry
    case SyncPut(_, _, read) => read.dryRun
    case Spend => false
    case _ => true
  }

  ghost predicate AllRehearse(w: World) {
    && w.shared.config.dryRun
    && (forall run | run in w.runs :: Rehearses(w.runs[run]))
    && forall k | 0 <= k < |w.shared.log| :: !w.shared.log[k].PostedBy?
  }

  lemma {:induction false} StepRehearses(s: Shared, run: nat, x: Executor)
    requires s.config.dryRun && Rehearses(x)
    ensures var (t, pc) := Step(s, run, x);
            t.config.dryRun && Rehearses(x.(pc := pc))
  {
  }

  lemma {:induction false} ActRehearses(w: World, a: Action)
    requires AllRehearse(w) && (a.Save? ==> a.config.dryRun)
    ensures AllRehearse(Act(w, a))
  {
    if a.Go? && a.run in w.runs {
      StepRehearses(w.shared, a.run, w.runs[a.run]);
      StepAppends(w.shared, a.run, w.runs[a.run]);
    }
  }

  /** As long as every saved configuration is a rehearsal, no card is ever spent. */
  lemma {:induction false} RehearsalsNeverPost(config: PluginConfig, trace: seq<Action>)
    requires config.dryRun && forall k | 0 <= k < |trace| && trace[k].Save? :: trace[k].config.dryRun
    ensures AllRehearse(Run(Fresh(config), trace))
  {
    if trace != [] {
      var n := |trace| - 1;
      RehearsalsNeverPost(config, trace[..n]);
      assert trace[n].Save? ==> trace[n].config.dryRun;
      ActRehearses(Run(Fresh(config), trace[..n]), trace[n]);
    }
  }
}
