/**
 * The initialised-flag state machine shared by the configuration table and
 * the logger: acquiring succeeds only when not initialised, releasing only
 * when initialised; a failed call returns -1 and changes nothing.
 */
module Lifecycle {

  datatype Op = Acquire | Release

  /** One call: its return code and the flag afterwards. */
  function Apply(op: Op, initialized: bool): (r: (int, bool))
    ensures r.0 == 0 <==> (op == Acquire <==> !initialized)
    ensures r.0 == 0 || r.0 == -1
    ensures r.0 == 0 ==> r.1 == (op == Acquire)
    ensures r.0 == -1 ==> r.1 == initialized
  {
    match op
    case Acquire => if initialized then (-1, initialized) else (0, true)
    case Release => if !initialized then (-1, initialized) else (0, false)
  }

  /** The flag after a sequence of calls. */
  function Final(ops: seq<Op>, initialized: bool): bool {
    if |ops| == 0 then initialized
    else Apply(ops[|ops| - 1], Final(ops[..|ops| - 1], initialized)).1
  }

  /** How many calls of kind `op` in the sequence succeed. */
  function Wins(ops: seq<Op>, initialized: bool, op: Op): (n: nat)
    ensures n <= |ops|
  {
    if |ops| == 0 then 0
    else
      var last := ops[|ops| - 1];
      var before := Final(ops[..|ops| - 1], initialized);
      Wins(ops[..|ops| - 1], initialized, op) + (if last == op && Apply(last, before).0 == 0 then 1 else 0)
  }

  function Bit(b: bool): int {
    if b then 1 else 0
  }

  /**
   * Successful acquires and releases alternate: their difference is the
   * change of the flag, so it is always 0 or 1 from the uninitialised state.
   */
  lemma {:induction false} Balance(ops: seq<Op>, initialized: bool)
    ensures Wins(ops, initialized, Acquire) - Wins(ops, initialized, Release) == Bit(Final(ops, initialized)) - Bit(initialized)
  {
    if |ops| > 0 {
      Balance(ops[..|ops| - 1], initialized);
    }
  }

  /** Calls of a kind never succeed in a sequence without them. */
  lemma {:induction false} NoWinsWithout(ops: seq<Op>, initialized: bool, op: Op)
    requires forall j | 0 <= j < |ops| :: ops[j] != op
    ensures Wins(ops, initialized, op) == 0
  {
    if |ops| > 0 {
      var init := ops[..|ops| - 1];
      assert forall j | 0 <= j < |init| :: init[j] == ops[j];
      NoWinsWithout(init, initialized, op);
    }
  }

  /** Between two releases, at most one acquire succeeds. */
  lemma {:induction false} AtMostOneAcquire(ops: seq<Op>, initialized: bool)
    requires forall j | 0 <= j < |ops| :: ops[j] != Release
    ensures Wins(ops, initialized, Acquire) <= 1
  {
    Balance(ops, initialized);
    NoWinsWithout(ops, initialized, Release);
  }

  /** Acquiring and then releasing returns to the uninitialised state, with both calls succeeding. */
  lemma {:induction false} AcquireRelease()
    ensures Apply(Acquire, false) == (0, true)
    ensures Apply(Release, Apply(Acquire, false).1) == (0, false)
  {
  }
}

/** `create_config_table` and `destroy_config_table` with their flag `is_config_initialized`. */
module ConfigTable {
  import Lifecycle

  /** `create_config_table`: -1 when already initialised, else 0 and initialised. */
  function Create(initialized: bool): (r: (int, bool))
    ensures r == Lifecycle.Apply(Lifecycle.Acquire, initialized)
  {
    if initialized then (-1, initialized) else (0, true)
  }

  /** `destroy_config_table`: -1 when not initialised, else 0 and uninitialised. */
  function Destroy(initialized: bool): (r: (int, bool))
    ensures r == Lifecycle.Apply(Lifecycle.Release, initialized)
  {
    if !initialized then (-1, initialized) else (0, false)
  }

  /** Create then destroy, from the initial state, succeed and return to it. */
  lemma {:induction false} CreateThenDestroy()
    ensures Create(false) == (0, true)
    ensures Destroy(Create(false).1) == (0, false)
  {
    Lifecycle.AcquireRelease();
  }

  /** A second create without a destroy in between fails and leaves the table initialised. */
  lemma {:induction false} DoubleCreate(initialized: bool)
    ensures Create(Create(initialized).1) == (-1, true)
  {
  }
}

/** `init_logger` and `fini_logger` with their flag `is_logger_initialized`. */
module Logger {
  import opened Wrappers
  import Lifecycle

  /**
   * `init_logger`: -1 when already initialised, else 0 and initialised. The
   * path and the file size limit are accepted and not used.
   */
  function Init(initialized: bool, path: Option<string>, fileSizeLimit: int): (r: (int, bool))
    ensures r == Lifecycle.Apply(Lifecycle.Acquire, initialized)
  {
    if initialized then (-1, initialized) else (0, true)
  }

  /** `fini_logger`: -1 when not initialised, else 0 and uninitialised. */
  function Fini(initialized: bool): (r: (int, bool))
    ensures r == Lifecycle.Apply(Lifecycle.Release, initialized)
  {
    if !initialized then (-1, initialized) else (0, false)
  }

  /** The logger is a singleton: a second init without a fini returns -1, whatever the arguments. */
  lemma {:induction false} DoubleInit(initialized: bool, p1: Option<string>, l1: int, p2: Option<string>, l2: int)
    ensures Init(Init(initialized, p1, l1).1, p2, l2) == (-1, true)
  {
  }

  /** After a successful init, fini succeeds and init succeeds again. */
  lemma {:induction false} FiniThenInit(p1: Option<string>, l1: int, p2: Option<string>, l2: int)
    ensures Fini(Init(false, p1, l1).1) == (0, false)
    ensures Init(Fini(Init(false, p1, l1).1).1, p2, l2) == (0, true)
  {
  }
}
