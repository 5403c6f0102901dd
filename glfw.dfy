// The process-wide GLFW reference count that every render backend shares: the first
// successful acquire initialises the library, the last release terminates it.

module GlfwUtils {

  /**
   * The counter together with how many times the library was successfully initialised
   * and how many times it was terminated.
   */
  datatype GlfwState = GlfwState(refCount: nat, inits: nat, terminates: nat)

  /** Program start: no references, the library never touched. */
  const START := GlfwState(0, 0, 0)

  /** The library is up exactly while someone holds a reference. */
  predicate Balanced(s: GlfwState)
  {
    s.inits == s.terminates + (if s.refCount > 0 then 1 else 0)
  }

  /**
   * InitializeGLFW: the new state and the returned flag. enabled is the build switch for
   * GLFW support; initOk is what glfwInit reports, consulted only when the count is 0.
   */
  function Acquire(enabled: bool, s: GlfwState, initOk: bool): (GlfwState, bool)
  {
    if !enabled then (s, false)
    else if s.refCount == 0 && !initOk then (s, false)
    else if s.refCount == 0 then (GlfwState(1, s.inits + 1, s.terminates), true)
    else (s.(refCount := s.refCount + 1), true)
  }

  /** TerminateGLFW: a release at count 0 does nothing, so the count never goes below 0. */
  function Release(enabled: bool, s: GlfwState): GlfwState
  {
    if !enabled || s.refCount == 0 then s
    else if s.refCount == 1 then GlfwState(0, s.inits, s.terminates + 1)
    else s.(refCount := s.refCount - 1)
  }

  /**
   * An acquire either fails and changes nothing, or adds exactly one reference; the
   * library is initialised by it iff the count was 0, and a disabled build always fails.
   */
  lemma AcquireCases(enabled: bool, s: GlfwState, initOk: bool)
    ensures var (t, ok) := Acquire(enabled, s, initOk);
      && (ok <==> enabled && (s.refCount > 0 || initOk))
      && (!ok ==> t == s)
      && (ok ==> t.refCount == s.refCount + 1 && t.terminates == s.terminates)
      && (ok ==> (t.inits == s.inits + 1 <==> s.refCount == 0))
      && (ok ==> (t.inits == s.inits <==> s.refCount > 0))
  {
  }

  /**
   * A release removes exactly one reference when there is one and terminates the library
   * iff that was the last one; it does nothing at count 0 or in a disabled build.
   */
  lemma ReleaseCases(enabled: bool, s: GlfwState)
    ensures var t := Release(enabled, s);
      && (!enabled || s.refCount == 0 ==> t == s)
      && (enabled && s.refCount > 0 ==>
            t.refCount == s.refCount - 1 && t.inits == s.inits
            && (t.terminates == s.terminates + 1 <==> s.refCount == 1)
            && (t.terminates == s.terminates <==> s.refCount > 1))
  {
  }

  /** Both operations keep the library up exactly while the count is positive. */
  lemma AcquireReleaseBalanced(enabled: bool, s: GlfwState, initOk: bool)
    requires Balanced(s)
    ensures Balanced(Acquire(enabled, s, initOk).0)
    ensures Balanced(Release(enabled, s))
  {
  }

  /** A successful acquire followed by a release restores the count. */
  lemma AcquireThenRelease(enabled: bool, s: GlfwState, initOk: bool)
    requires Acquire(enabled, s, initOk).1
    ensures Release(enabled, Acquire(enabled, s, initOk).0).refCount == s.refCount
  {
  }

  /** k acquires in a row, each with glfwInit succeeding. */
  function AcquireN(enabled: bool, s: GlfwState, k: nat): GlfwState
    decreases k
  {
    if k == 0 then s else AcquireN(enabled, Acquire(enabled, s, true).0, k - 1)
  }

  /** k releases in a row. */
  function ReleaseN(enabled: bool, s: GlfwState, k: nat): GlfwState
    decreases k
  {
    if k == 0 then s else ReleaseN(enabled, Release(enabled, s), k - 1)
  }

  /** k acquires add k references and initialise the library once if the count was 0. */
  lemma {:induction false} AcquireNState(s: GlfwState, k: nat)
    decreases k
    ensures AcquireN(true, s, k)
            == GlfwState(s.refCount + k, s.inits + (if s.refCount == 0 && k > 0 then 1 else 0), s.terminates)
  {
    if k > 0 {
      AcquireNState(Acquire(true, s, true).0, k - 1);
    }
  }

  /** k releases of k of the references terminate the library once iff none is left. */
  lemma {:induction false} ReleaseNState(s: GlfwState, k: nat)
    requires k <= s.refCount
    decreases k
    ensures ReleaseN(true, s, k)
            == GlfwState(s.refCount - k, s.inits, s.terminates + (if k == s.refCount && k > 0 then 1 else 0))
  {
    if k > 0 {
      ReleaseNState(Release(true, s), k - 1);
    }
  }

  /**
   * From program start, k >= 1 successful initialisations followed by k terminations
   * bring the count back to 0 with exactly one library init and one terminate.
   */
  lemma PairedUseFromStart(k: nat)
    requires k > 0
    ensures ReleaseN(true, AcquireN(true, START, k), k) == GlfwState(0, 1, 1)
  {
    AcquireNState(START, k);
    ReleaseNState(AcquireN(true, START, k), k);
  }

  /** With GLFW compiled out, no sequence of calls changes the state. */
  lemma {:induction false} DisabledIsInert(s: GlfwState, k: nat)
    ensures AcquireN(false, s, k) == s && ReleaseN(false, s, k) == s
  {
    if k > 0 {
      DisabledIsInert(s, k - 1);
    }
  }

  /** The global counter; one object stands for the process-wide state. */
  class Glfw {
    /** Whether the library was built with GLFW support. */
    const enabled: bool
    var refCount: int
    ghost var inits: nat
    ghost var terminates: nat

    ghost predicate Valid()
      reads this
    {
      refCount >= 0
    }

    ghost function State(): GlfwState
      reads this
      requires Valid()
    {
      GlfwState(refCount, inits, terminates)
    }

    constructor (enabled: bool)
      ensures this.enabled == enabled && Valid() && State() == START
    {
      this.enabled := enabled;
      refCount := 0;
      inits, terminates := 0, 0;
    }

    /** InitializeGLFW; initOk is glfwInit's answer should it be called. */
    method Initialize(initOk: bool) returns (ok: bool)
      requires Valid()
      modifies this
      ensures Valid() && (State(), ok) == Acquire(enabled, old(State()), initOk)
    {
      if !enabled {
        return false;
      }
      if refCount == 0 {
        if !initOk {
          return false;
        }
        inits := inits + 1;
      }
      refCount := refCount + 1;
      return true;
    }

    /** TerminateGLFW. */
    method Terminate()
      requires Valid()
      modifies this
      ensures Valid() && State() == Release(enabled, old(State()))
    {
      if !enabled {
        return;
      }
      if refCount > 0 {
        refCount := refCount - 1;
        if refCount == 0 {
          terminates := terminates + 1;
        }
      }
    }
  }
}
