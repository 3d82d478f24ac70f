/** How many dialogs a surface can have open, over all the queues that were installed for it. */
module DialogSurfaces {
  import opened Wrappers
  import opened Dialogs

  /** The open dialogs of a surface: a queue that was installed for it, and the job whose dialog it is. */
  ghost function OpenDialogs(c: Controller, s: Surface): set<(nat, nat)>
    requires |c.homes| == |c.queues|
  {
    set i: nat, job | i < |c.queues| && c.homes[i] == s && job in c.queues[i].running :: (i, job)
  }

  /** A surface is installed again, or dropped, only while its queue has no dialog open. */
  predicate Gentle(c: Controller, e: Step) {
    (e.Installs? || e.Drops?) && e.s in c.surfaces && c.surfaces[e.s] < |c.queues| ==> c.queues[c.surfaces[e.s]].running == {}
  }

  ghost predicate LeadsGently(c: Controller, steps: seq<Step>, d: Controller)
    decreases |steps|
  {
    if steps == [] then c == d
    else Indexed(c) && Gentle(c, steps[0]) && LeadsGently(StepOf(c, steps[0]), steps[1..], d)
  }

  // ---- the newest queue of each surface ----

  /** The queue a surface uses is the newest that was installed for it. */
  ghost predicate Newest(c: Controller) {
    forall s, j :: s in c.surfaces && c.surfaces[s] < j < |c.homes| ==> c.homes[j] != s
  }

  lemma StepKeepsNewest(c: Controller, e: Step)
    requires ControllerInv(c) && Newest(c)
    ensures Newest(StepOf(c, e))
  {
  }

  // ---- gentle runs ----

  /** Older queues have no dialog open, and no queue has one of a surface that has no queue now. */
  ghost predicate Tidy(c: Controller) {
    && (forall i, j :: 0 <= i < j < |c.queues| && j < |c.homes| && c.homes[i] == c.homes[j] ==> c.queues[i].running == {})
    && (!c.disposed ==>
          forall i :: 0 <= i < |c.queues| && i < |c.homes| && c.homes[i] !in c.surfaces ==> c.queues[i].running == {})
  }

  lemma IdleStaysIdle(q: Queue, job: nat, ok: bool)
    ensures q.running == {} ==> Complete(q, job, ok).running == {}
    ensures Dispose(q).running == q.running
  {
  }

  lemma OlderIsIdle(c: Controller, i: nat, j: nat)
    requires Tidy(c) && |c.homes| == |c.queues|
    ensures i < j < |c.queues| && c.homes[i] == c.homes[j] ==> c.queues[i].running == {}
  {
  }

  lemma CloseKeepsTidy(c: Controller, i: nat, job: nat, ok: bool)
    requires ControllerInv(c) && Tidy(c)
    ensures Tidy(Close(c, i, job, ok))
  {
    if i < |c.queues| { IdleStaysIdle(c.queues[i], job, ok); }
  }

  lemma AskKeepsTidy(c: Controller, s: Surface)
    requires ControllerInv(c) && Newest(c) && Tidy(c)
    ensures Tidy(Ask(c, s))
  {
  }

  lemma DropKeepsTidy(c: Controller, s: Surface)
    requires ControllerInv(c) && Newest(c) && Tidy(c) && Gentle(c, Drops(s))
    ensures Tidy(DisposeSurface(c, s))
  {
    var d := DisposeSurface(c, s);
    if s in c.surfaces {
      var k := c.surfaces[s];
      IdleStaysIdle(c.queues[k], 0, false);
      forall i | 0 <= i < |d.queues| && d.homes[i] !in d.surfaces && !d.disposed ensures d.queues[i].running == {} {
        OlderIsIdle(c, i, k);
      }
    }
  }

  lemma InstallKeepsTidy(c: Controller, s: Surface)
    requires ControllerInv(c) && Newest(c) && Tidy(c) && Gentle(c, Installs(s))
    ensures Tidy(Install(c, s))
  {
    if !c.disposed {
      DropKeepsTidy(c, s);
      var d, r := DisposeSurface(c, s), Install(c, s);
      assert forall i :: 0 <= i < |d.queues| && d.homes[i] == s ==> d.queues[i].running == {};
      forall i, j | 0 <= i < j < |r.queues| && r.homes[i] == r.homes[j] ensures r.queues[i].running == {} {
        assert r.queues[i] == d.queues[i] && r.homes[i] == d.homes[i];
        if j < |d.queues| { assert d.homes[i] == d.homes[j]; }
      }
    }
  }

  lemma DropAllKeepsTidy(c: Controller)
    requires ControllerInv(c) && Tidy(c)
    ensures Tidy(DisposeAll(c))
  {
  }

  lemma StepKeepsTidy(c: Controller, e: Step)
    requires ControllerInv(c) && Newest(c) && Tidy(c) && Gentle(c, e)
    ensures Tidy(StepOf(c, e))
  {
    match e
    case Installs(s) => InstallKeepsTidy(c, s);
    case Asks(s) => AskKeepsTidy(c, s);
    case Closes(i, job, ok) => CloseKeepsTidy(c, i, job, ok);
    case Drops(s) => DropKeepsTidy(c, s);
    case DropsAll => DropAllKeepsTidy(c);
  }

  lemma {:induction false} GentleRunsAreTidy(c: Controller, steps: seq<Step>, d: Controller)
    requires ControllerInv(c) && Newest(c) && Tidy(c) && LeadsGently(c, steps, d)
    ensures ControllerInv(d) && Tidy(d)
    decreases |steps|
  {
    if steps != [] {
      StepKeeps(c, steps[0]);
      StepKeepsNewest(c, steps[0]);
      StepKeepsTidy(c, steps[0]);
      GentleRunsAreTidy(StepOf(c, steps[0]), steps[1..], d);
    }
  }

  /**
   In every run in which a surface is installed again or dropped only while its queue has no dialog open, a surface has
   at most one dialog open.
   */
  lemma OneDialogPerSurface(maxQueue: nat, steps: seq<Step>, c: Controller, s: Surface)
    requires LeadsGently(Made(maxQueue), steps, c)
    ensures |c.homes| == |c.queues| && forall x, y :: x in OpenDialogs(c, s) && y in OpenDialogs(c, s) ==> x == y
  {
    GentleRunsAreTidy(Made(maxQueue), steps, c);
    forall x, y | x in OpenDialogs(c, s) && y in OpenDialogs(c, s) ensures x == y {
      OlderIsIdle(c, x.0, y.0);
      OlderIsIdle(c, y.0, x.0);
      assert Inv(c.queues[x.0], c.maxQueue);
    }
  }

  // ---- an install in between ----

  lemma OneMoreDialog(c: Controller, d: Controller, s: Surface)
    requires |c.homes| == |c.queues| && |d.homes| == |d.queues| == |c.queues| + 1
    requires forall k :: 0 <= k < |c.queues| ==> d.queues[k].running == c.queues[k].running && d.homes[k] == c.homes[k]
    requires d.homes[|c.queues|] == s && d.queues[|c.queues|].running == {0}
    ensures OpenDialogs(d, s) == OpenDialogs(c, s) + {(|c.queues|, 0)}
    ensures |OpenDialogs(d, s)| == |OpenDialogs(c, s)| + 1
  {
    assert (|c.queues|, 0) !in OpenDialogs(c, s);
  }

  /** An install and a request leave the dialogs of all earlier queues as they are. */
  lemma EarlierDialogsStay(c: Controller, s: Surface)
    requires ControllerInv(c) && !c.disposed && c.maxQueue >= 1 && Indexed(Install(c, s))
    ensures var n, d := |c.queues|, Ask(Install(c, s), s);
            && |d.homes| == |d.queues| == n + 1 && d.homes[n] == s && d.queues[n].running == {0}
            && forall k :: 0 <= k < n ==> d.queues[k].running == c.queues[k].running && d.homes[k] == c.homes[k]
  {
    var n, i := |c.queues|, Install(c, s);
    assert i.surfaces[s] == n && i.queues[n] == EMPTY && i.maxQueue == c.maxQueue;
    assert Enqueue(EMPTY, c.maxQueue).running == {0};
    if s in c.surfaces { IdleStaysIdle(c.queues[c.surfaces[s]], 0, false); }
  }

  /**
   In whatever state a surface is installed anew and then asked, exactly one more dialog is open than before: the
   dialogs of its earlier queues stay open, so two are open if and only if one was open before the install.
   */
  lemma InstallAddsOneDialog(maxQueue: nat, steps: seq<Step>, c: Controller, s: Surface)
    requires Leads(Made(maxQueue), steps, c) && maxQueue >= 1 && !c.disposed
    ensures Indexed(c) && Indexed(Install(c, s))
    ensures var d := Ask(Install(c, s), s);
            && |d.homes| == |d.queues|
            && OpenDialogs(d, s) == OpenDialogs(c, s) + {(|c.queues|, 0)}
            && |OpenDialogs(d, s)| == |OpenDialogs(c, s)| + 1
  {
    MadeHolds(maxQueue);
    LeadsKeeps(Made(maxQueue), steps, c);
    InstallKeeps(c, s);
    LeadsKeepsLimit(Made(maxQueue), steps, c);
    EarlierDialogsStay(c, s);
    OneMoreDialog(c, Ask(Install(c, s), s), s);
  }

  lemma LeadsBefore(c: Controller, e: Step, rest: seq<Step>, d: Controller)
    requires Indexed(c) && Leads(StepOf(c, e), rest, d)
    ensures Leads(c, [e] + rest, d)
  {
    assert ([e] + rest)[1..] == rest;
  }

  /** From a new controller: a surface that is installed and asked twice has two dialogs open. */
  lemma TwoDialogsOfOneSurface(maxQueue: nat, s: Surface) returns (c: Controller)
    requires maxQueue >= 1
    ensures Leads(Made(maxQueue), [Installs(s), Asks(s), Installs(s), Asks(s)], c)
    ensures |c.homes| == |c.queues| && |OpenDialogs(c, s)| == 2
  {
    var c0 := Made(maxQueue);
    InstallAddsOneDialog(maxQueue, [], c0, s);
    var c1 := Ask(Install(c0, s), s);
    LeadsBefore(Install(c0, s), Asks(s), [], c1);
    LeadsBefore(c0, Installs(s), [Asks(s)] + [], c1);
    InstallAddsOneDialog(maxQueue, [Installs(s)] + ([Asks(s)] + []), c1, s);
    c := Ask(Install(c1, s), s);
    LeadsBefore(Install(c1, s), Asks(s), [], c);
    LeadsBefore(c1, Installs(s), [Asks(s)] + [], c);
    var last := [Installs(s)] + ([Asks(s)] + []);
    LeadsBefore(Install(c0, s), Asks(s), last, c);
    LeadsBefore(c0, Installs(s), [Asks(s)] + last, c);
    assert [Installs(s)] + ([Asks(s)] + last) == [Installs(s), Asks(s), Installs(s), Asks(s)];
    assert OpenDialogs(c0, s) == {};
  }

  lemma MadeHolds(maxQueue: nat)
    ensures ControllerInv(Made(maxQueue))
  {
  }

  lemma {:induction false} LeadsKeepsLimit(c: Controller, steps: seq<Step>, d: Controller)
    requires Leads(c, steps, d)
    ensures d.maxQueue == c.maxQueue
    decreases |steps|
  {
    if steps != [] { LeadsKeepsLimit(StepOf(c, steps[0]), steps[1..], d); }
  }
}
