/** What the pause latch guarantees: the checks sit at the start of a poll cycle, of a tick flush and of a
    repoll, so what is emitted under the latch belongs to a cycle admitted before it was set. */
module PauseSafety {
  import opened Runtime

  /** The latch itself, modbus_adapter/pause.py: both methods are one lock region. */
  class PauseState {
    var paused: bool

    constructor (paused: bool)
      ensures this.paused == paused
    {
      this.paused := paused;
    }

    /** A thread that checks the latch now is admitted exactly if the answer is no. */
    method IsPaused() returns (r: bool)
      ensures forall c: Config, s: State, i: nat :: s.paused == paused && Enabled(s, Check(i)) ==> (Step(c, s, Check(i)).threads[i].admitted <==> !r)
    {
      return paused;
    }

    /** The step of a pause or resume command; the result says whether it changed anything. */
    method Set(on: bool) returns (changed: bool)
      modifies this
      ensures forall c: Config, s: State :: s.paused == old(paused) ==>
        Step(c, s, SetPause(on)) == s.(paused := paused) && (changed <==> Step(c, s, SetPause(on)) != s)
      ensures paused == on
    {
      changed := paused != on;
      paused := on;
    }
  }

  /** The latch is set in each of these states. */
  ghost predicate Latched(states: seq<State>, p: nat, q: nat) {
    q < |states| && forall n :: p <= n <= q ==> states[n].paused
  }

  /** Offers, flushes and facade calls. */
  predicate Emits(a: Action) { a.Offer? || a.Swap? || a.Send? }

  /** Only stop works without passing the pause check. */
  ghost predicate WorkersAdmitted(s: State) {
    forall t :: t in s.threads ==> t.stage != Idle && t.role != Stopper ==> t.admitted
  }

  lemma StepFrame(c: Config, s: State, a: Action)
    requires Enabled(s, a)
    ensures a.SetPause? ==> Step(c, s, a).threads == s.threads
    ensures !a.SetPause? ==> Step(c, s, a).threads == s.threads[a.i := NextThread(c, s, s.threads[a.i], a)]
    ensures !a.SetPause? ==> Step(c, s, a).paused == s.paused
  {
  }

  lemma ThreadFrame(c: Config, s: State, a: Action)
    requires Enabled(s, a) && !a.SetPause?
    ensures NextThread(c, s, s.threads[a.i], a).role == s.threads[a.i].role
    ensures !a.Check? && !a.End? ==> NextThread(c, s, s.threads[a.i], a).admitted == s.threads[a.i].admitted
    ensures a.Check? ==> NextThread(c, s, s.threads[a.i], a).admitted == !s.paused
    ensures a.End? ==> !NextThread(c, s, s.threads[a.i], a).admitted
    ensures !(a.Check? && !s.paused) && s.threads[a.i].swapped ==> NextThread(c, s, s.threads[a.i], a).swapped
    ensures a.Swap? ==> NextThread(c, s, s.threads[a.i], a).swapped
  {
  }

  lemma StepAdmits(c: Config, s: State, a: Action)
    requires Enabled(s, a) && WorkersAdmitted(s)
    ensures WorkersAdmitted(Step(c, s, a))
  {
    StepFrame(c, s, a);
    if !a.SetPause? {
      ThreadFrame(c, s, a);
      assert s.threads[a.i] in s.threads;
    }
  }

  lemma {:induction false} RunsAdmit(c: Config, states: seq<State>, acts: seq<Action>, q: nat)
    requires Run(c, states, acts) && q <= |acts|
    ensures WorkersAdmitted(states[q])
  {
    if q > 0 {
      RunsAdmit(c, states, acts, q - 1);
      StepAdmits(c, states[q - 1], acts[q - 1]);
    }
  }

  /** The cycle thread i is in at position q began with the passing check at g. */
  ghost predicate CycleSince(states: seq<State>, acts: seq<Action>, i: nat, g: nat, q: nat) {
    && g < q < |states| && q <= |acts| && acts[g] == Check(i) && !states[g].paused
    && (forall n :: g < n <= q ==> i < |states[n].threads| && states[n].threads[i].admitted)
    && (forall n :: g < n < q ==> acts[n] != End(i) && acts[n] != Check(i))
  }

  lemma NoneAdmitted(s: State)
    requires Init(s)
    ensures forall i :: 0 <= i < |s.threads| ==> !s.threads[i].admitted
  {
    forall i | 0 <= i < |s.threads| ensures !s.threads[i].admitted { assert s.threads[i] in s.threads; }
  }

  lemma {:induction false} AdmittedByCheck(c: Config, states: seq<State>, acts: seq<Action>, i: nat, q: nat) returns (g: nat)
    requires Run(c, states, acts) && q <= |acts| && i < |states[q].threads| && states[q].threads[i].admitted
    ensures CycleSince(states, acts, i, g, q)
  {
    NoneAdmitted(states[0]);
    if q > 0 {
      var s, a := states[q - 1], acts[q - 1];
      StepFrame(c, s, a);
      if !a.SetPause? { ThreadFrame(c, s, a); }
      if s.threads[i].admitted {
        g := AdmittedByCheck(c, states, acts, i, q - 1);
        assert a != Check(i) && a != End(i);
      } else {
        g := q - 1;
      }
    }
  }

  /** Pause safety: whatever a poll group, a repoll or the tick emits while the latch is set belongs to a
      cycle whose check passed before the latch was set and which has not ended since. */
  lemma PausedEmission(c: Config, states: seq<State>, acts: seq<Action>, p: nat, q: nat) returns (g: nat)
    requires Run(c, states, acts) && p <= q < |acts| && Latched(states, p, q) && Emits(acts[q])
    requires states[q].threads[acts[q].i].role != Stopper
    ensures g < p && CycleSince(states, acts, acts[q].i, g, q)
  {
    RunsAdmit(c, states, acts, q);
    assert states[q].threads[acts[q].i] in states[q].threads;
    g := AdmittedByCheck(c, states, acts, acts[q].i, q);
  }

  /** All of it is one cycle per thread: two emissions under one pause share their check. */
  lemma OneCyclePerPause(c: Config, states: seq<State>, acts: seq<Action>, p: nat, m: nat, q: nat) returns (g: nat)
    requires Run(c, states, acts) && p <= m < q < |acts| && Latched(states, p, q)
    requires Emits(acts[m]) && Emits(acts[q]) && acts[m].i == acts[q].i
    requires states[q].threads[acts[q].i].role != Stopper
    ensures g < p && CycleSince(states, acts, acts[q].i, g, m) && CycleSince(states, acts, acts[q].i, g, q)
  {
    g := PausedEmission(c, states, acts, p, q);
  }

  lemma {:induction false} SwappedStays(c: Config, states: seq<State>, acts: seq<Action>, i: nat, m: nat, q: nat)
    requires Run(c, states, acts) && m < q < |acts| && Latched(states, m, q) && acts[m] == Swap(i)
    ensures i < |states[q].threads| && states[q].threads[i].swapped
  {
    var s, a := states[q - 1], acts[q - 1];
    StepFrame(c, s, a);
    if !a.SetPause? { ThreadFrame(c, s, a); }
    if m < q - 1 { SwappedStays(c, states, acts, i, m, q - 1); }
  }

  /** The tick flushes at most once under a pause. */
  lemma OneFlushPerPause(c: Config, states: seq<State>, acts: seq<Action>, i: nat, m: nat, q: nat)
    requires Run(c, states, acts) && m < q < |acts| && Latched(states, m, q) && acts[m] == Swap(i)
    requires i < |states[q].threads| && states[q].threads[i].role != Stopper
    ensures acts[q] != Swap(i)
  {
    SwappedStays(c, states, acts, i, m, q);
  }

  /** No cycle is open and the device is not being stopped. */
  ghost predicate Drained(s: State) { forall t :: t in s.threads ==> !t.admitted && t.role != Stopper }

  /** Once the admitted cycles have ended, nothing at all changes until resume: no offer, no flush, no
      publication, no decoded value, no cache entry. */
  lemma {:induction false} DrainedPauseFreezes(c: Config, states: seq<State>, acts: seq<Action>, r: nat, q: nat)
    requires Run(c, states, acts) && r <= q <= |acts| && Latched(states, r, q) && Drained(states[r])
    ensures states[q] == states[r]
  {
    if r < q {
      DrainedPauseFreezes(c, states, acts, r, q - 1);
      RunsAdmit(c, states, acts, q - 1);
      assert states[q] == Step(c, states[q - 1], acts[q - 1]) by { assert states[q - 1 + 1] == states[q]; }
      DrainedStep(c, states[q - 1], acts[q - 1]);
    }
  }

  lemma DrainedStep(c: Config, s: State, a: Action)
    requires Enabled(s, a) && s.paused && Drained(s) && WorkersAdmitted(s)
    requires Step(c, s, a).paused
    ensures Step(c, s, a) == s
  {
    if !a.SetPause? {
      assert s.threads[a.i] in s.threads;
      assert a == Check(a.i);
      assert NextThread(c, s, s.threads[a.i], a) == s.threads[a.i];
      assert s.threads[a.i := s.threads[a.i]] == s.threads;
    }
  }
}
