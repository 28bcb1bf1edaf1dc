/** The launch limits and the numeric budgets derived from them (dmn/config.py, dmn/runtime.py). */
module Headroom {
  import opened Wrappers

  datatype Config = Config(nCtx: int, turnoverReserve: int, preparationTokens: int, workingMemoryTokens: int)

  /** The range checks a configuration passes before anything runs. */
  predicate ValidConfig(c: Config) {
    && c.nCtx >= 2048
    && 256 <= c.turnoverReserve <= c.nCtx / 2
    && 1 <= c.preparationTokens <= c.turnoverReserve / 2
    && 0 <= c.workingMemoryTokens <= c.nCtx
  }

  function EventBudget(c: Config): int {
    Max(128, Min(512, c.turnoverReserve / 2))
  }

  function Grace(c: Config): int {
    Min(Min(128, c.turnoverReserve / 8), Max(0, c.turnoverReserve - 2 * EventBudget(c) - 32))
  }

  /** Lengths that ordinary generation can leave: soft boundary, action grace, one bounded result. */
  predicate Ordinary(c: Config, length: int) {
    length <= c.nCtx - c.turnoverReserve + Grace(c) + EventBudget(c)
  }

  /** The hard guard every insertion made during preparation is checked against. */
  predicate BelowGuard(c: Config, length: int, inserted: int) {
    length + inserted <= c.nCtx - 32
  }

  predicate AboveSoftLimit(c: Config, length: int, required: int) {
    length + required > c.nCtx - c.turnoverReserve
  }

  /** A sampled token and the largest result it can cause stay below the hard guard. */
  lemma TokenAndResultFit(c: Config, length: int)
    requires ValidConfig(c) && length + 1 <= c.nCtx - c.turnoverReserve + Grace(c)
    ensures BelowGuard(c, length + 1, EventBudget(c))
    ensures Ordinary(c, length + 1) && Ordinary(c, length + 1 + EventBudget(c))
  {
  }

  /**
   The notice that opens a retirement always fits after ordinary generation exactly when the
   reserve holds two budgets and the guard.  The default reserve of 1024 is below that bound.
   */
  lemma NoticeFitsExactly(c: Config)
    requires ValidConfig(c)
    ensures (forall length, notice :: Ordinary(c, length) && 0 <= notice <= EventBudget(c) ==> BelowGuard(c, length, notice))
       <==> c.turnoverReserve >= 2 * EventBudget(c) + 32
    ensures c.turnoverReserve >= 2 * EventBudget(c) + 32 <==> c.turnoverReserve >= 1056
  {
    var worst := c.nCtx - c.turnoverReserve + Grace(c) + EventBudget(c);
    if c.turnoverReserve < 2 * EventBudget(c) + 32 {
      assert Ordinary(c, worst) && !BelowGuard(c, worst, EventBudget(c));
    }
  }

  lemma DefaultReserveIsTooSmall()
    ensures var c := Config(8192, 1024, 128, 0);
      && ValidConfig(c) && EventBudget(c) == 512 && Grace(c) == 0
      && Ordinary(c, 7680) && !BelowGuard(c, 7680, EventBudget(c))
  {
  }
}
