/** What a value does to the kernel that has effects of its own while it is rendered. */
module LazyResults {
  import opened Protocol
  import opened Session
  import opened Kernel
  import opened Refinement
  import opened Progress
  import opened Runs
  import Histories

  /** How many effects come before the first print or display. */
  function Leading(lazy: seq<Effect>): (n: nat)
    ensures n <= |lazy|
    ensures forall i :: 0 <= i < n ==> lazy[i].EnableExternal?
    ensures n < |lazy| ==> !lazy[n].EnableExternal?
  {
    if lazy != [] && lazy[0].EnableExternal? then 1 + Leading(lazy[1..]) else 0
  }

  /** The first print or display of the lazy part is a display, or is a print. */
  predicate DisplaysFirst(lazy: seq<Effect>) {
    Leading(lazy) < |lazy| && lazy[Leading(lazy)].Display?
  }

  predicate PrintsFirst(lazy: seq<Effect>) {
    Leading(lazy) < |lazy| && lazy[Leading(lazy)].Print?
  }

  lemma HarmlessIff(lazy: seq<Effect>)
    ensures Harmless(lazy) <==> Leading(lazy) == |lazy|
    ensures Harmless(lazy) <==> !DisplaysFirst(lazy) && !PrintsFirst(lazy)
  {
  }

  /** One step of any task: the shell takes the next leading effect, any other task leaves it where it is. */
  lemma RenderingStep(s: State, step: Step)
    requires Enabled(s, step) && s.shell.pc.Rendering? && (step.ShellDo? ==> Leading(s.shell.pc.lazy) > 0)
    ensures Apply(s, step).shell.pc ==
            if step.ShellDo? then s.shell.pc.(lazy := s.shell.pc.lazy[1..]) else s.shell.pc
  {
    if !step.ShellDo? {
      OthersLeaveShell(s, step);
    }
  }

  lemma LeadingOfRest(lazy: seq<Effect>, k: nat)
    requires k <= Leading(lazy)
    ensures Leading(lazy[k..]) == Leading(lazy) - k
  {
  }

  /** The last step of a stretch, when the steps before it took `k` of the leading effects. */
  lemma LastRendering(states: seq<State>, steps: seq<Step>, pc: ShellPc, k: nat)
    requires IsStretch(states, steps) && steps != [] && pc.Rendering? && k <= |pc.lazy|
    requires states[|steps| - 1].shell.pc == pc.(lazy := pc.lazy[k..])
    requires var last := steps[|steps| - 1]; k + (if last.ShellDo? then 1 else 0) <= Leading(pc.lazy)
    ensures var last := steps[|steps| - 1];
            states[|steps|].shell.pc == pc.(lazy := pc.lazy[if last.ShellDo? then k + 1 else k..])
  {
    var n := |steps| - 1;
    LeadingOfRest(pc.lazy, k);
    RenderingStep(states[n], steps[n]);
    if steps[n].ShellDo? {
      assert pc.lazy[k..][1..] == pc.lazy[k + 1..];
    }
  }

  /** In every interleaving, the shell works off the leading effects one after another. */
  lemma {:induction false} RenderingRuns(states: seq<State>, steps: seq<Step>)
    requires IsStretch(states, steps) && states[0].shell.pc.Rendering?
    requires ShellSteps(steps) <= Leading(states[0].shell.pc.lazy)
    ensures var pc := states[0].shell.pc; states[|steps|].shell.pc == pc.(lazy := pc.lazy[ShellSteps(steps)..])
  {
    var pc := states[0].shell.pc;
    if steps != [] {
      var n := |steps| - 1;
      Shorter(states, steps);
      RenderingRuns(states[..n + 1], steps[..n]);
      LastRendering(states, steps, pc, ShellSteps(steps[..n]));
    } else {
      assert pc.lazy[0..] == pc.lazy;
    }
  }

  /** Where the leading effects are worked off. */
  predicate AtFirstUse(pc: ShellPc, lazy: seq<Effect>) {
    pc.Rendering? && pc.lazy == lazy[Leading(lazy)..]
  }

  lemma FirstUseDecides(t: State, lazy: seq<Effect>)
    requires AtFirstUse(t.shell.pc, lazy)
    ensures Hangs(t.shell.pc) <==> DisplaysFirst(lazy)
    ensures AtPrint(t.shell.pc) <==> PrintsFirst(lazy)
    ensures ShellEnabled(t, Show) <==> Harmless(lazy)
  {
    HarmlessIff(lazy);
  }

  /** A shell that comes to a print can do nothing but abort, with its text not yet rendered. */
  lemma PrintAborts(t: State, step: ShellStep)
    requires AtPrint(t.shell.pc) && ShellEnabled(t, step)
    ensures step == Crash && ShellApply(t, step).crashed && ShellApply(t, step).shell.pc == t.shell.pc
  {
  }

  /** What decides about a rendering once its leading effects are worked off, in every interleaving: it hangs exactly
      if a display comes first, it can only abort before its text exactly if a print does (`PrintAborts`), and else
      it comes to its text. */
  lemma RenderingOutcome(states: seq<State>, steps: seq<Step>)
    requires IsStretch(states, steps) && states[0].shell.pc.Rendering?
    requires ShellSteps(steps) == Leading(states[0].shell.pc.lazy)
    ensures var lazy, t := states[0].shell.pc.lazy, states[|steps|];
            && (Hangs(t.shell.pc) <==> DisplaysFirst(lazy))
            && (AtPrint(t.shell.pc) <==> PrintsFirst(lazy))
            && (ShellEnabled(t, Show) <==> Harmless(lazy))
  {
    RenderingRuns(states, steps);
    FirstUseDecides(states[|steps|], states[0].shell.pc.lazy);
  }

  /** A value that prints or displays while it is rendered never comes to its text: in no interleaving does the
      shell leave the rendering. */
  lemma {:induction false} HarmfulNeverShows(states: seq<State>, steps: seq<Step>)
    requires IsStretch(states, steps) && states[0].shell.pc.Rendering? && !Harmless(states[0].shell.pc.lazy)
    ensures states[|steps|].shell.pc.Rendering? && !Harmless(states[|steps|].shell.pc.lazy)
  {
    if steps != [] {
      var n := |steps| - 1;
      Shorter(states, steps);
      HarmfulNeverShows(states[..n + 1], steps[..n]);
      HarmStays(states[n], steps[n]);
    }
  }

  lemma HarmStays(s: State, step: Step)
    requires Enabled(s, step) && s.shell.pc.Rendering? && !Harmless(s.shell.pc.lazy)
    ensures Apply(s, step).shell.pc.Rendering? && !Harmless(Apply(s, step).shell.pc.lazy)
  {
    var lazy := s.shell.pc.lazy;
    if step.ShellDo? {
      var i :| 0 <= i < |lazy| && !lazy[i].EnableExternal?;
      assert step.shell.Unfold? ==> i > 0 && lazy[1..][i - 1] == lazy[i];
    } else {
      OthersLeaveShell(s, step);
    }
  }

  /** A shell whose value waits for the filter's lock waits for good: nothing is accepted, replied or ended any
      more, and neither a restart nor an interrupt changes that. */
  lemma {:induction false} HungForGood(states: seq<State>, steps: seq<Step>)
    requires IsStretch(states, steps) && Hangs(states[0].shell.pc)
    ensures states[|steps|].shell == states[0].shell
    ensures var s, t := states[0].log, states[|steps|].log;
            t.accepted == s.accepted && t.replies == s.replies && t.completed == s.completed
  {
    if steps != [] {
      var n := |steps| - 1;
      Shorter(states, steps);
      HungForGood(states[..n + 1], steps[..n]);
      HungStays(states[n], steps[n]);
    }
  }

  lemma HungStays(s: State, step: Step)
    requires Enabled(s, step) && Hangs(s.shell.pc)
    ensures var t := Apply(s, step);
            t.shell == s.shell && t.log.accepted == s.log.accepted && t.log.replies == s.log.replies &&
            t.log.completed == s.log.completed
  {
  }

  // ----- runs that hang and that abort -----

  /** The kernel is started, and its first cell gives a value with this lazy part. */
  lemma FirstValue(initial: seq<Decl>, session: string, clock: string, m: Request, lazy: seq<Effect>)
      returns (s: State)
    requires m.header.msgType == "execute_request" && m.content.Execute?
    ensures Reachable(s) && !s.crashed && s.log.executes == [m] && s.log.effects == []
    ensures s.shell.pc.Rendering? && s.shell.pc.m == m && s.shell.pc.lazy == lazy
  {
    var cell := Histories.FirstCell(initial, session, clock, m);
    var running := Follow(cell, ShellDo(Merge([])));
    s := Follow(running, ShellDo(Render("1", lazy)));
  }

  /** A first cell whose result displays while it is collected hangs the shell. */
  lemma LazyDisplayHangs(initial: seq<Decl>, session: string, clock: string, m: Request) returns (s: State)
    requires m.header.msgType == "execute_request" && m.content.Execute?
    ensures Reachable(s) && !s.crashed && Hangs(s.shell.pc) && s.shell.pc.lazy == [Display("text/csv")]
    ensures forall a :: !ShellEnabled(s, a)
  {
    s := FirstValue(initial, session, clock, m, [Display("text/csv")]);
    ShellStepsUnless(s);
  }

  /** A first cell whose result prints while it is collected aborts the process. */
  lemma LazyPrintAborts(initial: seq<Decl>, session: string, clock: string, m: Request)
      returns (s: State, t: State)
    requires m.header.msgType == "execute_request" && m.content.Execute?
    ensures Reachable(s) && !s.crashed && s.shell.pc.Rendering? && s.shell.pc.lazy == [Print("1", None)]
    ensures Reachable(t) && t == Apply(s, ShellDo(Crash)) && t.crashed
    ensures forall a :: ShellEnabled(s, a) ==> a == Crash
  {
    s := FirstValue(initial, session, clock, m, [Print("1", None)]);
    t := Follow(s, ShellDo(Crash));
  }
}
