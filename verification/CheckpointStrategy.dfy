/** When to lay a checkpoint, and when to thin the ones there are. */
module CheckpointStrategies {
  import opened Arithmetic

  const MAX_U64 := 0xFFFF_FFFF_FFFF_FFFF

  datatype Context = Context(pos: nat, lastCheckpoint: nat, count: nat, totalBytes: nat)

  /** One checkpoint an interval, a hard cap on checkpoint bytes, or some other
      strategy, which may answer as it likes. */
  datatype Plan = AnyPlan | FixedInterval(every: nat) | ThinningBudget(budget: nat, least: nat)

  /** That the strategy was asked at a position, and whether it said that a
      checkpoint is due. */
  datatype Answer = Answer(pos: nat, due: bool)

  /** The least interval doubled so many times, as far as 64 bits go. */
  function IntervalAfter(least: nat, doublings: nat): nat {
    Min(Pow2(doublings) * least, MAX_U64)
  }

  function SaturatingDouble(n: nat): nat {
    if 2 * n > MAX_U64 then MAX_U64 else 2 * n
  }

  /** Times the root of two, the interval is still less than the mean distance
      between the checkpoints there are. */
  predicate Narrow(interval: nat, ctx: Context)
    requires ctx.count >= 2
  {
    var span := interval * (ctx.count - 1);
    2 * span * span < ctx.lastCheckpoint * ctx.lastCheckpoint
  }

  /** No spacing of 64-bit offsets is wider than the widest interval. */
  lemma WideEnough(ctx: Context)
    requires ctx.count >= 2 && ctx.lastCheckpoint <= MAX_U64
    ensures !Narrow(MAX_U64, ctx)
  {
    var last, span := ctx.lastCheckpoint, MAX_U64 * (ctx.count - 1);
    assert last <= span;
    assert last * last <= span * last <= span * span <= 2 * span * span;
  }

  lemma IntervalPositive(least: nat, k: nat)
    requires least >= 1
    ensures 1 <= IntervalAfter(least, k) <= MAX_U64
  {
  }

  class Strategy {
    const plan: Plan
    var interval: nat
    var started: bool
    ghost var doublings: nat
    ghost var answers: seq<Answer>

    ghost predicate Valid()
      reads this
    {
      plan.ThinningBudget? ==> plan.least >= 1 && interval == IntervalAfter(plan.least, doublings)
    }

    constructor Thinning(budget: nat, minInterval: nat)
      requires minInterval <= MAX_U64
      ensures Valid() && !started && doublings == 0
      ensures plan == ThinningBudget(budget, if minInterval > 1 then minInterval else 1)
    {
      var least := if minInterval > 1 then minInterval else 1;
      plan, interval, started, doublings, answers := ThinningBudget(budget, least), least, false, 0, [];
    }

    constructor Every(interval: nat)
      ensures Valid() && plan == FixedInterval(interval)
    {
      plan, this.interval, started, doublings, answers := FixedInterval(interval), interval, false, 0, [];
    }

    constructor Other()
      ensures Valid() && plan == AnyPlan
    {
      plan, interval, started, doublings, answers := AnyPlan, 0, false, 0, [];
    }

    method Double()
      requires Valid()
      modifies this`interval, this`doublings
      ensures Valid() && doublings == old(doublings) + 1 && interval == SaturatingDouble(old(interval))
    {
      interval := SaturatingDouble(interval);
      doublings := doublings + 1;
    }

    /** On an index with spacing of its own, the interval first doubles until
        it is no longer narrower than that spacing by the root of two. */
    method Start(ctx: Context)
      requires Valid()
      modifies this`interval, this`doublings, this`started
      ensures Valid() && started && doublings >= old(doublings)
      ensures old(started) || ctx.count < 2 ==> interval == old(interval) && doublings == old(doublings)
      ensures plan.ThinningBudget? && !old(started) && ctx.count >= 2 ==>
                && (ctx.lastCheckpoint <= MAX_U64 ==> !Narrow(interval, ctx))
                && forall k :: old(doublings) <= k < doublings ==> Narrow(IntervalAfter(plan.least, k), ctx)
    {
      hide Narrow;
      var was := started;
      started := true;
      if was || ctx.count < 2 || !plan.ThinningBudget? {
        return;
      }
      IntervalPositive(plan.least, doublings);
      while interval < MAX_U64 && Narrow(interval, ctx)
        invariant Valid() && started && doublings >= old(doublings) && 1 <= interval <= MAX_U64
        invariant forall k :: old(doublings) <= k < doublings ==> Narrow(IntervalAfter(plan.least, k), ctx)
        decreases MAX_U64 - interval
      {
        Double();
      }
      if ctx.lastCheckpoint <= MAX_U64 {
        WideEnough(ctx);
      }
    }

    method ShouldCheckpoint(ctx: Context) returns (due: bool)
      requires Valid() && ctx.lastCheckpoint <= ctx.pos
      modifies this`interval, this`doublings, this`started, this`answers
      ensures Valid() && started && doublings >= old(doublings)
      ensures old(started) || ctx.count < 2 ==> doublings == old(doublings)
      ensures plan.ThinningBudget? ==> (due <==> ctx.pos - ctx.lastCheckpoint >= interval)
      ensures plan.FixedInterval? ==> (due <==> ctx.pos - ctx.lastCheckpoint >= plan.every)
      ensures answers == old(answers) + [Answer(ctx.pos, due)]
    {
      Start(ctx);
      match plan {
        case AnyPlan => due := *;
        case FixedInterval(every) => due := ctx.pos - ctx.lastCheckpoint >= every;
        case ThinningBudget(_, _) => due := ctx.pos - ctx.lastCheckpoint >= interval;
      }
      answers := answers + [Answer(ctx.pos, due)];
    }

    method ShouldThin(ctx: Context) returns (thin: bool)
      requires Valid()
      modifies this`interval, this`doublings, this`started
      ensures Valid() && started && doublings >= old(doublings)
      ensures old(started) ==> doublings == old(doublings) + if thin && plan.ThinningBudget? then 1 else 0
      ensures plan.ThinningBudget? ==> (thin <==> ctx.totalBytes > plan.budget)
      ensures plan.FixedInterval? ==> !thin
    {
      Start(ctx);
      if plan.AnyPlan? {
        thin := *;
        return;
      }
      if plan.FixedInterval? {
        return false;
      }
      if ctx.totalBytes <= plan.budget {
        return false;
      }
      Double();
      return true;
    }
  }
}
