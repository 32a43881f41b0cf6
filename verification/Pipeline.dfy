/** Middleware chains: every stage of a run shares one index into the chain, captured by the
    `next` it may call, once, often or not at all. */
module Pipeline {

  /** What a stage does with its context and with `next`. */
  datatype Stage<!S> =
    | Return
    | Act(change: S -> S, rest: Stage<S>)
    | CallNext(rest: Stage<S>)
    | Branch(test: S -> bool, yes: Stage<S>, no: Stage<S>)

  /** A run in progress: the context, the shared index, and the stages started so far. */
  datatype Progress<!S> = Progress(ctx: S, idx: nat, started: seq<nat>)

  /** The `next` that every stage is given. */
  function Proceed<S>(stages: seq<Stage<S>>, r: Progress<S>): (z: Progress<S>)
    requires r.idx <= |stages|
    ensures r.idx <= z.idx <= |stages|
    decreases |stages| - r.idx, 0
  {
    if r.idx < |stages|
    then Exec(stages, stages[r.idx], Progress(r.ctx, r.idx + 1, r.started + [r.idx]))
    else r
  }

  function Exec<S>(stages: seq<Stage<S>>, s: Stage<S>, r: Progress<S>): (z: Progress<S>)
    requires r.idx <= |stages|
    ensures r.idx <= z.idx <= |stages|
    decreases |stages| - r.idx, 1, s
  {
    match s
    case Return => r
    case Act(change, rest) => Exec(stages, rest, r.(ctx := change(r.ctx)))
    case CallNext(rest) => Exec(stages, rest, Proceed(stages, r))
    case Branch(test, yes, no) => if test(r.ctx) then Exec(stages, yes, r) else Exec(stages, no, r)
  }

  function RunChain<S>(stages: seq<Stage<S>>, ctx: S): Progress<S> {
    Proceed(stages, Progress(ctx, 0, []))
  }

  function Upto(n: nat): seq<nat> {
    seq(n, i => i)
  }

  // ---- Which stages run -------------------------------------------------------------

  lemma {:induction false} NextStartsInOrder<S>(stages: seq<Stage<S>>, r: Progress<S>)
    requires r.idx <= |stages| && r.started == Upto(r.idx)
    ensures Proceed(stages, r).started == Upto(Proceed(stages, r).idx)
    decreases |stages| - r.idx, 0
  {
    if r.idx < |stages| {
      ExecStartsInOrder(stages, stages[r.idx], Progress(r.ctx, r.idx + 1, r.started + [r.idx]));
    }
  }

  lemma {:induction false} ExecStartsInOrder<S>(stages: seq<Stage<S>>, s: Stage<S>, r: Progress<S>)
    requires r.idx <= |stages| && r.started == Upto(r.idx)
    ensures Exec(stages, s, r).started == Upto(Exec(stages, s, r).idx)
    decreases |stages| - r.idx, 1, s
  {
    match s {
      case Return =>
      case Act(change, rest) => ExecStartsInOrder(stages, rest, r.(ctx := change(r.ctx)));
      case CallNext(rest) =>
        NextStartsInOrder(stages, r);
        ExecStartsInOrder(stages, rest, Proceed(stages, r));
      case Branch(test, yes, no) => ExecStartsInOrder(stages, if test(r.ctx) then yes else no, r);
    }
  }

  /** However often stages call next, each stage is started at most once, and those started are
      the first ones, in order. */
  lemma StartedIsPrefix<S>(stages: seq<Stage<S>>, ctx: S)
    ensures var z := RunChain(stages, ctx); z.idx <= |stages| && z.started == Upto(z.idx)
  {
    NextStartsInOrder(stages, Progress(ctx, 0, []));
  }

  // ---- A chain in front of something ------------------------------------------------

  /** A run of a front part that ends in something that only matters by its effect: the context,
      the index into the front part, and how often its end was reached. */
  datatype Front<!S> = Front(ctx: S, idx: nat, arrivals: nat)

  function NextFront<S>(front: seq<Stage<S>>, effect: S -> S, r: Front<S>): (z: Front<S>)
    requires r.idx <= |front|
    ensures r.idx <= z.idx <= |front| && r.arrivals <= z.arrivals
    decreases |front| - r.idx, 0
  {
    if r.idx < |front|
    then ExecFront(front, effect, front[r.idx], r.(idx := r.idx + 1))
    else Front(effect(r.ctx), r.idx, r.arrivals + 1)
  }

  function ExecFront<S>(front: seq<Stage<S>>, effect: S -> S, s: Stage<S>, r: Front<S>): (z: Front<S>)
    requires r.idx <= |front|
    ensures r.idx <= z.idx <= |front| && r.arrivals <= z.arrivals
    decreases |front| - r.idx, 1, s
  {
    match s
    case Return => r
    case Act(change, rest) => ExecFront(front, effect, rest, r.(ctx := change(r.ctx)))
    case CallNext(rest) => ExecFront(front, effect, rest, NextFront(front, effect, r))
    case Branch(test, yes, no) => if test(r.ctx) then ExecFront(front, effect, yes, r) else ExecFront(front, effect, no, r)
  }

  /** How often a run of the front part calls next past its last stage, when what lies behind
      has the given effect. */
  function Arrivals<S>(front: seq<Stage<S>>, effect: S -> S, ctx: S): nat {
    NextFront(front, effect, Front(ctx, 0, 0)).arrivals
  }

  /** The second chain behind the first has run as it would alone, or not at all. */
  ghost predicate Alike<S(!new)>(front: seq<Stage<S>>, r: Progress<S>, f: Front<S>) {
    && r.ctx == f.ctx
    && f.idx <= |front|
    && (f.arrivals == 0 ==> r.idx == f.idx)
    && (f.arrivals > 0 ==> f.idx == |front| <= r.idx)
  }

  lemma {:induction false} Shift<S>(front: seq<Stage<S>>, back: seq<Stage<S>>, s: Stage<S>, r: Progress<S>, q: Progress<S>)
    requires q.idx <= |back| && r.idx == |front| + q.idx && r.ctx == q.ctx
    ensures Exec(front + back, s, r).ctx == Exec(back, s, q).ctx
    ensures Exec(front + back, s, r).idx == |front| + Exec(back, s, q).idx
    decreases |back| - q.idx, 1, s
  {
    match s {
      case Return =>
      case Act(change, rest) => Shift(front, back, rest, r.(ctx := change(r.ctx)), q.(ctx := change(q.ctx)));
      case CallNext(rest) =>
        ShiftNext(front, back, r, q);
        Shift(front, back, rest, Proceed(front + back, r), Proceed(back, q));
      case Branch(test, yes, no) => Shift(front, back, if test(r.ctx) then yes else no, r, q);
    }
  }

  lemma {:induction false} ShiftNext<S>(front: seq<Stage<S>>, back: seq<Stage<S>>, r: Progress<S>, q: Progress<S>)
    requires q.idx <= |back| && r.idx == |front| + q.idx && r.ctx == q.ctx
    ensures Proceed(front + back, r).ctx == Proceed(back, q).ctx
    ensures Proceed(front + back, r).idx == |front| + Proceed(back, q).idx
    decreases |back| - q.idx, 0
  {
    if q.idx < |back| {
      assert (front + back)[r.idx] == back[q.idx];
      Shift(front, back, back[q.idx], Progress(r.ctx, r.idx + 1, r.started + [r.idx]), Progress(q.ctx, q.idx + 1, q.started + [q.idx]));
    }
  }

  ghost predicate HasEffect<S(!new)>(back: seq<Stage<S>>, effect: S -> S) {
    forall c :: RunChain(back, c).ctx == effect(c)
  }

  lemma {:induction false} ExecIsFront<S(!new)>(front: seq<Stage<S>>, back: seq<Stage<S>>, effect: S -> S, s: Stage<S>, r: Progress<S>, f: Front<S>)
    requires HasEffect(back, effect) && r.idx <= |front + back| && Alike(front, r, f)
    requires ExecFront(front, effect, s, f).arrivals <= 1
    ensures Alike(front, Exec(front + back, s, r), ExecFront(front, effect, s, f))
    decreases |front| - f.idx, 1, s
  {
    match s {
      case Return =>
      case Act(change, rest) => ExecIsFront(front, back, effect, rest, r.(ctx := change(r.ctx)), f.(ctx := change(f.ctx)));
      case CallNext(rest) =>
        NextIsFront(front, back, effect, r, f);
        ExecIsFront(front, back, effect, rest, Proceed(front + back, r), NextFront(front, effect, f));
      case Branch(test, yes, no) => ExecIsFront(front, back, effect, if test(r.ctx) then yes else no, r, f);
    }
  }

  lemma {:induction false} NextIsFront<S(!new)>(front: seq<Stage<S>>, back: seq<Stage<S>>, effect: S -> S, r: Progress<S>, f: Front<S>)
    requires HasEffect(back, effect) && r.idx <= |front + back| && Alike(front, r, f)
    requires NextFront(front, effect, f).arrivals <= 1
    ensures Alike(front, Proceed(front + back, r), NextFront(front, effect, f))
    decreases |front| - f.idx, 0
  {
    if f.idx < |front| {
      assert (front + back)[r.idx] == front[f.idx];
      ExecIsFront(front, back, effect, front[f.idx], Progress(r.ctx, r.idx + 1, r.started + [r.idx]), f.(idx := f.idx + 1));
    } else {
      assert f.arrivals == 0;
      ShiftNext(front, back, r, Progress(r.ctx, 0, []));
    }
  }

  /** A chain behind another counts only by its effect, as long as its start is reached at most once. */
  lemma BehindIsEffect<S(!new)>(front: seq<Stage<S>>, back: seq<Stage<S>>, effect: S -> S, ctx: S)
    requires HasEffect(back, effect) && Arrivals(front, effect, ctx) <= 1
    ensures RunChain(front + back, ctx).ctx == NextFront(front, effect, Front(ctx, 0, 0)).ctx
  {
    NextIsFront(front, back, effect, Progress(ctx, 0, []), Front(ctx, 0, 0));
  }

  // ---- Append and nesting -----------------------------------------------------------

  /** A stage that runs a whole chain and then returns. */
  function Wrap<S>(chain: seq<Stage<S>>): Stage<S> {
    Act(c => RunChain(chain, c).ctx, Return)
  }

  function Effect<S>(chain: seq<Stage<S>>): S -> S {
    c => RunChain(chain, c).ctx
  }

  /** Appending a chain is the same as nesting it in a last stage of its own, whenever the
      front part does not come to its end more than once. */
  lemma AppendIsNesting<S(!new)>(front: seq<Stage<S>>, back: seq<Stage<S>>, ctx: S)
    requires Arrivals(front, Effect(back), ctx) <= 1
    ensures RunChain(front + back, ctx).ctx == RunChain(front + [Wrap(back)], ctx).ctx
  {
    WrapHasEffect(back);
    hide RunChain, HasEffect, Wrap;
    BehindIsEffect(front, back, Effect(back), ctx);
    BehindIsEffect(front, [Wrap(back)], Effect(back), ctx);
  }

  lemma WrapHasEffect<S(!new)>(chain: seq<Stage<S>>)
    ensures HasEffect(chain, Effect(chain)) && HasEffect([Wrap(chain)], Effect(chain))
  {
    WrapHasEffectOf(chain, Effect(chain));
  }

  lemma WrapRuns<S>(chain: seq<Stage<S>>, ctx: S)
    ensures RunChain([Wrap(chain)], ctx).ctx == RunChain(chain, ctx).ctx
  {
    var change := Wrap(chain).change;
    RunsPlain([Wrap(chain)], change, Progress(ctx, 1, [0]));
    assert Progress(ctx, 0, []).started + [0] == [0];
    assert change(ctx) == RunChain(chain, ctx).ctx;
  }

  /** Wrapping a chain up does not change its effect. */
  lemma WrapHasEffectOf<S(!new)>(chain: seq<Stage<S>>, effect: S -> S)
    requires HasEffect(chain, effect)
    ensures HasEffect([Wrap(chain)], effect)
  {
    hide RunChain, Wrap;
    forall c ensures RunChain([Wrap(chain)], c).ctx == effect(c) {
      WrapRuns(chain, c);
    }
  }

  lemma RunsPlain<S>(stages: seq<Stage<S>>, change: S -> S, r: Progress<S>)
    requires r.idx <= |stages|
    ensures Exec(stages, Return, r) == r
    ensures Exec(stages, Act(change, Return), r) == r.(ctx := change(r.ctx))
  {
    assert Exec(stages, Act(change, Return), r) == Exec(stages, Return, r.(ctx := change(r.ctx)));
  }

  lemma ExecTwice<S>(stages: seq<Stage<S>>, r: Progress<S>)
    requires r.idx <= |stages|
    ensures Exec(stages, CallNext(CallNext(Return)), r) == Proceed(stages, Proceed(stages, r))
  {
    assert Exec(stages, CallNext(CallNext(Return)), r) == Exec(stages, CallNext(Return), Proceed(stages, r));
    assert Exec(stages, CallNext(Return), Proceed(stages, r)) == Exec(stages, Return, Proceed(stages, Proceed(stages, r)));
  }

  lemma TwiceStartsTwo<S>(change: S -> S, ctx: S)
    ensures RunChain([CallNext(CallNext(Return)), Return, Act(change, Return)], ctx).ctx == change(ctx)
  {
    var all := [CallNext(CallNext(Return)), Return, Act(change, Return)];
    var start := Progress(ctx, 1, [] + [0]);
    var second := Progress(ctx, 2, start.started + [1]);
    RunsPlain(all, change, second);
    RunsPlain(all, change, Progress(ctx, 3, second.started + [2]));
    ExecTwice(all, start);
  }

  lemma TwiceStartsOne<S>(change: S -> S, ctx: S)
    ensures RunChain([CallNext(CallNext(Return)), Act(change, Return)], ctx).ctx == change(ctx)
  {
    var all := [CallNext(CallNext(Return)), Act(change, Return)];
    var start := Progress(ctx, 1, [] + [0]);
    RunsPlain(all, change, Progress(ctx, 2, start.started + [1]));
    ExecTwice(all, start);
  }

  /** A front part that calls next twice is enough to tell the two apart. */
  lemma TwiceIsNotNested(ctx: int)
    ensures var front := [CallNext(CallNext(Return))];
      var back := [Return, Act((c: int) => c + 1, Return)];
      RunChain(front + back, ctx).ctx == ctx + 1 && RunChain(front + [Wrap(back)], ctx).ctx == ctx
  {
    var bump := (c: int) => c + 1;
    var front, back := [CallNext(CallNext(Return))], [Return, Act(bump, Return)];
    assert front + back == [CallNext(CallNext(Return)), Return, Act(bump, Return)];
    assert front + [Wrap(back)] == [CallNext(CallNext(Return)), Wrap(back)];
    TwiceStartsTwo(bump, ctx);
    TwiceStartsOne(Wrap(back).change, ctx);
    RunsPlain(back, bump, Progress(ctx, 1, [] + [0]));
  }

  // ---- Exactly when appending is nesting --------------------------------------------

  /** A context with a counter that the front part neither reads nor writes. */
  datatype Counted<!S> = Counted(ctx: S, count: nat)

  function Lift<S>(s: Stage<S>): Stage<Counted<S>> {
    match s
    case Return => Return
    case Act(change, rest) => Act((c: Counted<S>) => c.(ctx := change(c.ctx)), Lift(rest))
    case CallNext(rest) => CallNext(Lift(rest))
    case Branch(test, yes, no) => Branch((c: Counted<S>) => test(c.ctx), Lift(yes), Lift(no))
  }

  function LiftAll<S>(stages: seq<Stage<S>>): seq<Stage<Counted<S>>> {
    seq(|stages|, i requires 0 <= i < |stages| => Lift(stages[i]))
  }

  function LiftEffect<S>(effect: S -> S): Counted<S> -> Counted<S> {
    (c: Counted<S>) => c.(ctx := effect(c.ctx))
  }

  function Bump<S>(): Counted<S> -> Counted<S> {
    (c: Counted<S>) => c.(count := c.count + 1)
  }

  /** A chain with the given effect whose second stage, which the first never calls, counts. */
  function Telltale<S>(effect: S -> S): seq<Stage<Counted<S>>> {
    [Act(LiftEffect(effect), Return), Act(Bump(), Return)]
  }

  lemma TelltaleHasEffect<S(!new)>(effect: S -> S)
    ensures HasEffect(Telltale(effect), LiftEffect(effect))
  {
    var back := Telltale(effect);
    forall c ensures RunChain(back, c).ctx == LiftEffect(effect)(c) {
      RunsPlain(back, LiftEffect(effect), Progress(c, 1, [0]));
      assert Progress(c, 0, []).started + [0] == [0];
    }
  }

  function LiftFront<S>(f: Front<S>, count: nat): Front<Counted<S>> {
    Front(Counted(f.ctx, count), f.idx, f.arrivals)
  }

  lemma {:induction false} LiftedExecFront<S>(front: seq<Stage<S>>, effect: S -> S, s: Stage<S>, f: Front<S>, count: nat)
    requires f.idx <= |front|
    ensures ExecFront(LiftAll(front), LiftEffect(effect), Lift(s), LiftFront(f, count)) == LiftFront(ExecFront(front, effect, s, f), count)
    decreases |front| - f.idx, 1, s
  {
    match s {
      case Return =>
      case Act(change, rest) => LiftedExecFront(front, effect, rest, f.(ctx := change(f.ctx)), count);
      case CallNext(rest) =>
        LiftedNextFront(front, effect, f, count);
        LiftedExecFront(front, effect, rest, NextFront(front, effect, f), count);
      case Branch(test, yes, no) => LiftedExecFront(front, effect, if test(f.ctx) then yes else no, f, count);
    }
  }

  lemma {:induction false} LiftedNextFront<S>(front: seq<Stage<S>>, effect: S -> S, f: Front<S>, count: nat)
    requires f.idx <= |front|
    ensures NextFront(LiftAll(front), LiftEffect(effect), LiftFront(f, count)) == LiftFront(NextFront(front, effect, f), count)
    decreases |front| - f.idx, 0
  {
    if f.idx < |front| {
      LiftedExecFront(front, effect, front[f.idx], f.(idx := f.idx + 1), count);
    }
  }

  ghost predicate KeepsCount<S(!new)>(s: Stage<Counted<S>>) {
    match s
    case Return => true
    case Act(change, rest) => (forall c :: change(c).count == c.count) && KeepsCount(rest)
    case CallNext(rest) => KeepsCount(rest)
    case Branch(_, yes, no) => KeepsCount(yes) && KeepsCount(no)
  }

  lemma {:induction false} LiftKeepsCount<S(!new)>(s: Stage<S>)
    ensures KeepsCount(Lift(s))
  {
    match s {
      case Return =>
      case Act(_, rest) => LiftKeepsCount(rest);
      case CallNext(rest) => LiftKeepsCount(rest);
      case Branch(_, yes, no) =>
        LiftKeepsCount(yes);
        LiftKeepsCount(no);
    }
  }

  lemma {:induction false} ExecKeepsCount<S(!new)>(stages: seq<Stage<Counted<S>>>, s: Stage<Counted<S>>, r: Progress<Counted<S>>)
    requires r.idx <= |stages| && KeepsCount(s) && forall i :: 0 <= i < |stages| ==> KeepsCount(stages[i])
    ensures Exec(stages, s, r).ctx.count == r.ctx.count
    decreases |stages| - r.idx, 1, s
  {
    match s {
      case Return =>
      case Act(change, rest) => ExecKeepsCount(stages, rest, r.(ctx := change(r.ctx)));
      case CallNext(rest) =>
        ProceedKeepsCount(stages, r);
        ExecKeepsCount(stages, rest, Proceed(stages, r));
      case Branch(test, yes, no) => ExecKeepsCount(stages, if test(r.ctx) then yes else no, r);
    }
  }

  lemma {:induction false} ProceedKeepsCount<S(!new)>(stages: seq<Stage<Counted<S>>>, r: Progress<Counted<S>>)
    requires r.idx <= |stages| && forall i :: 0 <= i < |stages| ==> KeepsCount(stages[i])
    ensures Proceed(stages, r).ctx.count == r.ctx.count
    decreases |stages| - r.idx, 0
  {
    if r.idx < |stages| {
      ExecKeepsCount(stages, stages[r.idx], Progress(r.ctx, r.idx + 1, r.started + [r.idx]));
    }
  }

  /** Nested, the second stage of the telltale never runs. */
  lemma NestedNeverCounts<S(!new)>(front: seq<Stage<S>>, effect: S -> S, ctx: S)
    ensures RunChain(LiftAll(front) + [Wrap(Telltale(effect))], Counted(ctx, 0)).ctx.count == 0
  {
    var wrapped := Wrap(Telltale(effect));
    TelltaleHasEffect(effect);
    assert KeepsCount(wrapped);
    forall i | 0 <= i < |front| ensures KeepsCount(LiftAll(front)[i]) {
      LiftKeepsCount(front[i]);
    }
    ProceedKeepsCount(LiftAll(front) + [wrapped], Progress(Counted(ctx, 0), 0, []));
  }

  /** How far a run with the telltale appended has come, against its arrivals. */
  ghost predicate Ahead<S(!new)>(front: seq<Stage<S>>, r: Progress<Counted<S>>, f: Front<S>) {
    && f.idx <= |front|
    && (f.arrivals == 0 ==> r.idx == f.idx && r.ctx == Counted(f.ctx, 0))
    && (f.arrivals == 1 ==> f.idx == |front| && r.idx == |front| + 1 && r.ctx == Counted(f.ctx, 0))
    && (f.arrivals >= 2 ==> f.idx == |front| && r.idx == |front| + 2 && r.ctx.count == 1)
  }

  lemma {:induction false} ExecCounts<S(!new)>(front: seq<Stage<S>>, effect: S -> S, s: Stage<S>, r: Progress<Counted<S>>, f: Front<S>)
    requires r.idx <= |front| + 2 && Ahead(front, r, f)
    ensures Ahead(front, Exec(LiftAll(front) + Telltale(effect), Lift(s), r), ExecFront(front, effect, s, f))
    decreases |front| - f.idx, 1, s
  {
    var all := LiftAll(front) + Telltale(effect);
    if f.arrivals < 2 {
      match s {
        case Return =>
        case Act(change, rest) => ExecCounts(front, effect, rest, r.(ctx := r.ctx.(ctx := change(r.ctx.ctx))), f.(ctx := change(f.ctx)));
        case CallNext(rest) =>
          ProceedCounts(front, effect, r, f);
          ExecCounts(front, effect, rest, Proceed(all, r), NextFront(front, effect, f));
        case Branch(test, yes, no) => ExecCounts(front, effect, if test(f.ctx) then yes else no, r, f);
      }
    } else {
      LiftKeepsCount(s);
      SpentExec(all, Lift(s), r);
    }
  }

  /** Past the end of the chain nothing is started, and lifted stages do not count. */
  lemma {:induction false} SpentExec<S(!new)>(stages: seq<Stage<Counted<S>>>, s: Stage<Counted<S>>, r: Progress<Counted<S>>)
    requires r.idx == |stages| && KeepsCount(s)
    ensures Exec(stages, s, r).idx == |stages| && Exec(stages, s, r).ctx.count == r.ctx.count
    decreases s
  {
    match s {
      case Return =>
      case Act(change, rest) => SpentExec(stages, rest, r.(ctx := change(r.ctx)));
      case CallNext(rest) => SpentExec(stages, rest, r);
      case Branch(test, yes, no) => SpentExec(stages, if test(r.ctx) then yes else no, r);
    }
  }

  lemma {:induction false} ProceedCounts<S(!new)>(front: seq<Stage<S>>, effect: S -> S, r: Progress<Counted<S>>, f: Front<S>)
    requires r.idx <= |front| + 2 && Ahead(front, r, f)
    ensures Ahead(front, Proceed(LiftAll(front) + Telltale(effect), r), NextFront(front, effect, f))
    decreases |front| - f.idx, 0
  {
    var all := LiftAll(front) + Telltale(effect);
    if r.idx < |all| {
      var next := Progress(r.ctx, r.idx + 1, r.started + [r.idx]);
      if f.arrivals == 0 && f.idx < |front| {
        assert all[r.idx] == Lift(front[f.idx]);
        ExecCounts(front, effect, front[f.idx], next, f.(idx := f.idx + 1));
      } else {
        assert all[|front|] == Act(LiftEffect(effect), Return) && all[|front| + 1] == Act(Bump(), Return);
        RunsPlain(all, LiftEffect(effect), next);
        RunsPlain(all, Bump(), next);
      }
    }
  }

  /** Exactly when appending is nesting: behind a given front part, a chain of a given effect
      that could show the difference shows none if and only if the front part comes to its end
      at most once. */
  lemma AppendIsNestingIff<S(!new)>(front: seq<Stage<S>>, effect: S -> S, ctx: S)
    ensures var lifted, back, start := LiftAll(front), Telltale(effect), Counted(ctx, 0);
      RunChain(lifted + back, start).ctx == RunChain(lifted + [Wrap(back)], start).ctx <==> Arrivals(front, effect, ctx) <= 1
  {
    hide RunChain, Ahead;
    var lifted, back, start := LiftAll(front), Telltale(effect), Counted(ctx, 0);
    if Arrivals(front, effect, ctx) <= 1 {
      TelltaleHasEffect(effect);
      LiftedArrivals(front, effect, ctx);
      WrapHasEffectOf(back, LiftEffect(effect));
      BehindIsEffect(lifted, back, LiftEffect(effect), start);
      BehindIsEffect(lifted, [Wrap(back)], LiftEffect(effect), start);
    } else {
      NestedNeverCounts(front, effect, ctx);
      AppendedCounts(front, effect, ctx);
    }
  }

  lemma LiftedArrivals<S(!new)>(front: seq<Stage<S>>, effect: S -> S, ctx: S)
    ensures Arrivals(LiftAll(front), LiftEffect(effect), Counted(ctx, 0)) == Arrivals(front, effect, ctx)
  {
    LiftedNextFront(front, effect, Front(ctx, 0, 0), 0);
  }

  lemma AppendedCounts<S(!new)>(front: seq<Stage<S>>, effect: S -> S, ctx: S)
    requires Arrivals(front, effect, ctx) >= 2
    ensures RunChain(LiftAll(front) + Telltale(effect), Counted(ctx, 0)).ctx.count == 1
  {
    ProceedCounts(front, effect, Progress(Counted(ctx, 0), 0, []), Front(ctx, 0, 0));
  }

  // ---- Well-behaved stages ----------------------------------------------------------

  predicate Silent<S>(s: Stage<S>) {
    match s
    case Return => true
    case Act(_, rest) => Silent(rest)
    case CallNext(_) => false
    case Branch(_, yes, no) => Silent(yes) && Silent(no)
  }

  /** Calls next at most once, whatever the context. */
  predicate AtMostOnce<S>(s: Stage<S>) {
    match s
    case Return => true
    case Act(_, rest) => AtMostOnce(rest)
    case CallNext(rest) => Silent(rest)
    case Branch(_, yes, no) => AtMostOnce(yes) && AtMostOnce(no)
  }

  lemma {:induction false} SilentStays<S>(front: seq<Stage<S>>, effect: S -> S, s: Stage<S>, r: Front<S>)
    requires r.idx <= |front| && Silent(s)
    ensures ExecFront(front, effect, s, r).arrivals == r.arrivals && ExecFront(front, effect, s, r).idx == r.idx
    decreases s
  {
    match s {
      case Return =>
      case Act(change, rest) => SilentStays(front, effect, rest, r.(ctx := change(r.ctx)));
      case Branch(test, yes, no) => SilentStays(front, effect, if test(r.ctx) then yes else no, r);
    }
  }

  lemma {:induction false} OnceArrivesOnce<S>(front: seq<Stage<S>>, effect: S -> S, s: Stage<S>, r: Front<S>)
    requires r.idx <= |front| && r.arrivals == 0 && AtMostOnce(s) && forall i :: 0 <= i < |front| ==> AtMostOnce(front[i])
    ensures ExecFront(front, effect, s, r).arrivals <= 1
    decreases |front| - r.idx, s
  {
    match s {
      case Return =>
      case Act(change, rest) => OnceArrivesOnce(front, effect, rest, r.(ctx := change(r.ctx)));
      case CallNext(rest) =>
        if r.idx < |front| {
          OnceArrivesOnce(front, effect, front[r.idx], r.(idx := r.idx + 1));
        }
        SilentStays(front, effect, rest, NextFront(front, effect, r));
      case Branch(test, yes, no) => OnceArrivesOnce(front, effect, if test(r.ctx) then yes else no, r);
    }
  }

  lemma ChainArrivesOnce<S>(front: seq<Stage<S>>, effect: S -> S, ctx: S)
    requires forall i :: 0 <= i < |front| ==> AtMostOnce(front[i])
    ensures Arrivals(front, effect, ctx) <= 1
  {
    if front != [] {
      OnceArrivesOnce(front, effect, front[0], Front(ctx, 1, 0));
    }
  }

  /** For stages that call next at most once, appending is always nesting, whatever is appended. */
  lemma AppendNestsForOnce<S(!new)>(front: seq<Stage<S>>, back: seq<Stage<S>>, ctx: S)
    requires forall i :: 0 <= i < |front| ==> AtMostOnce(front[i])
    ensures RunChain(front + back, ctx).ctx == RunChain(front + [Wrap(back)], ctx).ctx
  {
    ChainArrivesOnce(front, Effect(back), ctx);
    AppendIsNesting(front, back, ctx);
  }

  // ---- The onion --------------------------------------------------------------------

  /** One stage around whatever next does, with no index anywhere. */
  function Around<S>(s: Stage<S>, inner: S -> S, ctx: S): S {
    match s
    case Return => ctx
    case Act(change, rest) => Around(rest, inner, change(ctx))
    case CallNext(rest) => Around(rest, inner, inner(ctx))
    case Branch(test, yes, no) => if test(ctx) then Around(yes, inner, ctx) else Around(no, inner, ctx)
  }

  /** Every stage wrapped around the ones behind it. */
  function Onion<S>(stages: seq<Stage<S>>, ctx: S): S
    decreases |stages|, 0
  {
    if stages == [] then ctx else Around(stages[0], Inside(stages[1..]), ctx)
  }

  function Inside<S>(stages: seq<Stage<S>>): S -> S
    decreases |stages|, 1
  {
    c => Onion(stages, c)
  }

  lemma {:induction false} FrontIsAround<S>(s: Stage<S>, front: seq<Stage<S>>, effect: S -> S, r: Front<S>)
    requires r.idx == |front|
    ensures ExecFront(front, effect, s, r).ctx == Around(s, effect, r.ctx)
    decreases s
  {
    match s {
      case Return =>
      case Act(change, rest) => FrontIsAround(rest, front, effect, r.(ctx := change(r.ctx)));
      case CallNext(rest) => FrontIsAround(rest, front, effect, NextFront(front, effect, r));
      case Branch(test, yes, no) => FrontIsAround(if test(r.ctx) then yes else no, front, effect, r);
    }
  }

  /** With stages that call next at most once, the shared index cannot be seen: a run is the onion. */
  lemma {:induction false} RunIsOnion<S(!new)>(stages: seq<Stage<S>>, ctx: S)
    requires forall i :: 0 <= i < |stages| ==> AtMostOnce(stages[i])
    ensures RunChain(stages, ctx).ctx == Onion(stages, ctx)
    decreases |stages|
  {
    if stages != [] {
      var front, back := [stages[0]], stages[1..];
      var effect := Inside(back);
      forall c ensures RunChain(back, c).ctx == effect(c) {
        RunIsOnion(back, c);
      }
      assert stages == front + back;
      ChainArrivesOnce(front, effect, ctx);
      BehindIsEffect(front, back, effect, ctx);
      FrontIsAround(stages[0], front, effect, Front(ctx, 1, 0));
    }
  }

  /** A stage that says something, calls next, and says something more. */
  function Speaker<E>(before: seq<E>, after: seq<E>): Stage<seq<E>> {
    Act(said => said + before, CallNext(Act(said => said + after, Return)))
  }

  function Layers<E>(parts: seq<(seq<E>, seq<E>)>): seq<Stage<seq<E>>> {
    seq(|parts|, i requires 0 <= i < |parts| => Speaker(parts[i].0, parts[i].1))
  }

  function Forward<E>(parts: seq<(seq<E>, seq<E>)>): seq<E> {
    if parts == [] then [] else parts[0].0 + Forward(parts[1..])
  }

  function Backward<E>(parts: seq<(seq<E>, seq<E>)>): seq<E> {
    if parts == [] then [] else Backward(parts[1..]) + parts[0].1
  }

  /** Stages that each call next once: the first halves in order, then the second halves in
      reverse, and every stage is started. */
  lemma {:induction false} OnionTrace<E(!new)>(parts: seq<(seq<E>, seq<E>)>, said: seq<E>)
    ensures RunChain(Layers(parts), said).ctx == said + Forward(parts) + Backward(parts)
  {
    assert forall i :: 0 <= i < |parts| ==> AtMostOnce(Layers(parts)[i]);
    RunIsOnion(Layers(parts), said);
    OnionOfLayers(parts, said);
  }

  /** One layer says its two halves around whatever the inside does. */
  lemma SpeakerAround<E>(before: seq<E>, after: seq<E>, inner: seq<E> -> seq<E>, said: seq<E>)
    ensures Around(Speaker(before, after), inner, said) == inner(said + before) + after
  {
    var tail := Act((said: seq<E>) => said + after, Return);
    assert Around(CallNext(tail), inner, said + before) == Around(tail, inner, inner(said + before));
  }

  lemma OuterLayer<E>(parts: seq<(seq<E>, seq<E>)>, said: seq<E>)
    requires parts != []
    ensures Onion(Layers(parts), said) == Onion(Layers(parts[1..]), said + parts[0].0) + parts[0].1
  {
    hide Around;
    var layers := Layers(parts);
    assert layers[1..] == Layers(parts[1..]);
    SpeakerAround(parts[0].0, parts[0].1, Inside(layers[1..]), said);
  }

  lemma Regroup<E>(said: seq<E>, first: seq<E>, forward: seq<E>, backward: seq<E>, last: seq<E>)
    ensures ((said + first) + forward + backward) + last == said + (first + forward) + (backward + last)
  {
  }

  lemma {:induction false} OnionOfLayers<E>(parts: seq<(seq<E>, seq<E>)>, said: seq<E>)
    ensures Onion(Layers(parts), said) == said + Forward(parts) + Backward(parts)
    decreases |parts|
  {
    hide Layers, Onion;
    if parts == [] {
      NoLayers(said);
    } else {
      OuterLayer(parts, said);
      OnionOfLayers(parts[1..], said + parts[0].0);
      Regroup(said, parts[0].0, Forward(parts[1..]), Backward(parts[1..]), parts[0].1);
    }
  }

  lemma NoLayers<E>(said: seq<E>)
    ensures Onion(Layers([]), said) == said + [] + []
  {
  }

  // ---- The chain object -------------------------------------------------------------

  class Chain<S> {
    var stages: array<Stage<S>>

    /** The stages are copied, so that the caller's slice is not shared. */
    constructor (given: seq<Stage<S>>)
      ensures stages[..] == given && fresh(stages)
    {
      stages := new Stage<S>[|given|](i requires 0 <= i < |given| => given[i]);
    }

    /** A longer chain; this one stays as it is. */
    method Append(more: seq<Stage<S>>) returns (merged: Chain<S>)
      ensures fresh(merged) && fresh(merged.stages) && merged.stages[..] == stages[..] + more
    {
      merged := new Chain(stages[..] + more);
    }

    method Run(ctx: S) returns (after: S)
      ensures after == RunChain(stages[..], ctx).ctx
    {
      var run := new Execution(stages[..], ctx);
      run.Next();
      after := run.ctx;
    }
  }

  /** The closure that Run hands to every stage, with the index it captures. */
  class Execution<S> {
    const stages: seq<Stage<S>>
    var ctx: S
    var idx: nat
    ghost var started: seq<nat>

    ghost function View(): Progress<S>
      reads this
    {
      Progress(ctx, idx, started)
    }

    constructor (stages: seq<Stage<S>>, ctx: S)
      ensures this.stages == stages && View() == Progress(ctx, 0, [])
    {
      this.stages, this.ctx, idx, started := stages, ctx, 0, [];
    }

    method Next()
      requires idx <= |stages|
      modifies this
      ensures idx <= |stages| && View() == Proceed(stages, old(View()))
      decreases |stages| - idx, 0
    {
      if idx < |stages| {
        var s := stages[idx];
        started := started + [idx];
        idx := idx + 1;
        Execute(s);
      }
    }

    method Execute(s: Stage<S>)
      requires idx <= |stages|
      modifies this
      ensures idx <= |stages| && View() == Exec(stages, s, old(View()))
      decreases |stages| - idx, 1, s
    {
      match s {
        case Return =>
        case Act(change, rest) =>
          ctx := change(ctx);
          Execute(rest);
        case CallNext(rest) =>
          Next();
          Execute(rest);
        case Branch(test, yes, no) =>
          if test(ctx) {
            Execute(yes);
          } else {
            Execute(no);
          }
      }
    }
  }
}
