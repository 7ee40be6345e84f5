/** The `ChuffedSolver` resource of the native extension (c_src/chuffed_solver.cpp:34-37):
    an engine pointer that is never set and an `initialized` flag that is never raised.
    Handles are placeholders for future stateful sessions. */
module Handles {

  class SolverHandle {
    /** The engine instance; always null in this version of the bridge. */
    var solver: object?
    var initialized: bool

    /** The initialisation `create_solver_nif` performs on a freshly allocated resource. */
    constructor ()
      ensures solver == null && !initialized
    {
      solver := null;
      initialized := false;
    }
  }

  /** The resource destructor the host runs when it collects a handle. It accepts a null
      object and only lowers `initialized`, so running it again on the same handle changes
      nothing. */
  method Destructor(h: SolverHandle?)
    modifies h
    ensures h != null ==> !h.initialized && h.solver == old(h.solver)
    ensures h != null && !old(h.initialized) ==> unchanged(h)
  {
    if h != null && h.initialized {
      h.initialized := false;
    }
  }

}
