/** The syntax tree (expression.go, scenario.go): a closed set of three
    expression variants, behaviors and scenarios, and evaluation as a pure
    dispatch into an externally supplied context (context.go's interface). */
module Ast {
  import opened Base

  datatype Expr =
      /** A description with the commands to run for it. */
    | BlockExpr(description: string, commands: seq<string>)
      /** All children must hold. */
    | AndExpr(children: seq<Expr>)
      /** At least one child must hold. */
    | OrExpr(children: seq<Expr>)

  /** A When/Then pair; a nil side is None. */
  datatype Behavior = Behavior(whenExpr: Option<Expr>, thenExpr: Option<Expr>)

  /** A Given (the preconditions) and zero or more behaviors. */
  datatype Scenario = Scenario(given: Expr, behaviors: seq<Behavior>)

  /** What evaluation returns: the verdict and an execution error, if any. */
  type Verdict = (bool, Option<Error>)

  /** The execution context. It runs commands and combines children as it
      sees fit; its implementation is outside the front end. */
  datatype Context = Context(
    run: (string, seq<string>) -> Verdict,
    and: seq<Expr> -> Verdict,
    or: seq<Expr> -> Verdict)

  /** Eval: each variant hands its own fields to the matching hook of the
      context, and does nothing else. */
  function Eval(e: Expr, ctx: Context): Verdict {
    match e
    case BlockExpr(description, commands) => ctx.run(description, commands)
    case AndExpr(children) => ctx.and(children)
    case OrExpr(children) => ctx.or(children)
  }

  /** The context whose every hook answers v. */
  function Const(v: Verdict): Context {
    Context((d: string, cs: seq<string>) => v, (ch: seq<Expr>) => v, (ch: seq<Expr>) => v)
  }

  /** Evaluation does no combining of its own: two contexts evaluate an
      expression alike exactly when their hooks for its variant agree on its
      fields, however their other hooks differ; and the verdict is the hook's
      own, unaltered, so a context that always answers v yields v. */
  lemma EvalOnlyDispatches(e: Expr, c1: Context, c2: Context, v: Verdict)
    ensures Eval(e, c1) == Eval(e, c2) <==>
      match e
      case BlockExpr(d, cs) => c1.run(d, cs) == c2.run(d, cs)
      case AndExpr(ch) => c1.and(ch) == c2.and(ch)
      case OrExpr(ch) => c1.or(ch) == c2.or(ch)
    ensures Eval(e, Const(v)) == v
  {
  }

  /** A leaf as the parser builds it: it never records command text. */
  predicate IsParsedBlock(e: Expr) {
    e.BlockExpr? && e.commands == []
  }

  /** The shape of every expression the parser builds for a chunk: a single
      block, or an And/Or of at least two blocks. */
  predicate IsChunkExpr(e: Expr) {
    match e
    case BlockExpr(_, commands) => commands == []
    case AndExpr(cs) => |cs| >= 2 && forall k :: 0 <= k < |cs| ==> IsParsedBlock(cs[k])
    case OrExpr(cs) => |cs| >= 2 && forall k :: 0 <= k < |cs| ==> IsParsedBlock(cs[k])
  }

  /** A behavior as the parser emits it: never both sides nil. */
  predicate IsParsedBehavior(b: Behavior) {
    && (b.whenExpr.Some? || b.thenExpr.Some?)
    && (b.whenExpr.Some? ==> IsChunkExpr(b.whenExpr.value))
    && (b.thenExpr.Some? ==> IsChunkExpr(b.thenExpr.value))
  }

  predicate IsParsedScenario(sc: Scenario) {
    && IsChunkExpr(sc.given)
    && forall k :: 0 <= k < |sc.behaviors| ==> IsParsedBehavior(sc.behaviors[k])
  }
}
