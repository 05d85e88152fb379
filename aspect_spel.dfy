/**
 * AspectSpelUtil.java: evaluators built from an intercepted call, and an evaluator that is
 * handed out only when a condition expression evaluated against the call holds.
 */
module AspectSpel {
  import opened Wrappers
  import opened Spel

  /** The intercepted call: the signature's method and the arguments. */
  datatype JoinPoint<M, V> = JoinPoint(targetMethod: M, args: seq<Option<V>>)

  /** What an expression sees of the context generateSpelFunction builds for a join point. */
  function JoinPointState<M, V, B>(joinPoint: JoinPoint<M, V>, resolver: Option<BeanFactoryResolver<B>>)
    : ContextState<M, V, B>
  {
    ContextState(map[], Some(Invocation(Some(joinPoint.targetMethod), Some(joinPoint.args))), resolver)
  }

  /**
   * generateSpelFunction(joinPoint): SpelUtil.generateSpelFunction(method, args) with the join
   * point's method and arguments.
   */
  method GenerateSpelFunction<E, M, V, B>(util: SpelUtil<E, M, V, B>, joinPoint: JoinPoint<M, V>)
    returns (f: SpelFunction<M, V, B>)
    ensures fresh(f.context)
    ensures f.context.State() == JoinPointState(joinPoint, util.beanFactoryResolver)
  {
    f := util.GenerateSpelFunctionForMethod(Some(joinPoint.targetMethod), Some(joinPoint.args));
  }

  /**
   * Whether the condition lets the evaluator through: `tryParseValue(condition, () -> FALSE,
   * Boolean.class)` is true. Ok(false) stands for the null that is returned instead.
   */
  function ConditionHolds<E, M, V, B>(
    parse: string -> Result<E, string>, condition: Option<string>, context: ContextState<M, V, B>,
    evalBool: (E, ContextState<M, V, B>) -> Result<Option<bool>, EvaluationError>)
    : Result<bool, Exception>
  {
    match TryParse(parse, condition, context, () => Some(false), evalBool)
    case Err(e) => Err(e)
    case Ok(c) => Ok(c == Some(true))
  }

  /**
   * The evaluator is handed out exactly when the condition is non-blank and evaluates to true;
   * a null or blank condition, one that evaluates to false or null, or one whose evaluation
   * fails with a SpelEvaluationException gives null; a parse error or another evaluation
   * failure is thrown.
   */
  lemma ConditionHoldsCases<E, M, V, B>(
    parse: string -> Result<E, string>, condition: Option<string>, context: ContextState<M, V, B>,
    evalBool: (E, ContextState<M, V, B>) -> Result<Option<bool>, EvaluationError>)
    ensures condition.None? || IsBlank(condition.value) ==> ConditionHolds(parse, condition, context, evalBool) == Ok(false)
    ensures ConditionHolds(parse, condition, context, evalBool) == Ok(true) <==>
      condition.Some? && !IsBlank(condition.value) && Evaluate(parse, condition.value, context, evalBool) == Ok(Some(true))
    ensures condition.Some? && !IsBlank(condition.value) ==>
      var v := Evaluate(parse, condition.value, context, evalBool);
      (ConditionHolds(parse, condition, context, evalBool).Err? <==> v.Err?)
      && (v.Err? ==> ConditionHolds(parse, condition, context, evalBool).error == v.error)
    ensures
      (&& condition.Some? && !IsBlank(condition.value) && parse(condition.value).Ok?
       && evalBool(parse(condition.value).value, context).Err?
       && evalBool(parse(condition.value).value, context).error.SpelEvaluationError?)
      ==> ConditionHolds(parse, condition, context, evalBool) == Ok(false)
  {
    TryParseCases(parse, condition, context, () => Some(false), evalBool);
    if condition.Some? && !IsBlank(condition.value) {
      EvaluateCases(parse, condition.value, context, evalBool);
    }
  }

  /** What a call of generateSpelFunctionWithCondition amounts to: thrown, null, or an evaluator. */
  function Outcome<F>(r: Result<Option<F>, Exception>): Result<bool, Exception> {
    match r
    case Err(e) => Err(e)
    case Ok(f) => Ok(f.Some?)
  }

  /**
   * generateSpelFunctionWithCondition(joinPoint, conditionExpression): builds the evaluator for
   * the join point, evaluates the condition against that evaluator's context, and returns the
   * evaluator if the condition is true and null otherwise.
   */
  method GenerateSpelFunctionWithCondition<E, M, V, B>(
    util: SpelUtil<E, M, V, B>, joinPoint: JoinPoint<M, V>, conditionExpression: Option<string>,
    evalBool: (E, ContextState<M, V, B>) -> Result<Option<bool>, EvaluationError>)
    returns (r: Result<Option<SpelFunction<M, V, B>>, Exception>)
    requires util.Valid()
    modifies util`expressionCacheMap, util`parsed
    ensures util.Valid()
    ensures Outcome(r)
      == ConditionHolds(util.parse, conditionExpression, JoinPointState(joinPoint, util.beanFactoryResolver), evalBool)
    ensures r.Ok? && r.value.Some? ==>
      fresh(r.value.value.context) && r.value.value.context.State() == JoinPointState(joinPoint, util.beanFactoryResolver)
    ensures util.expressionCacheMap ==
      if conditionExpression.None? || IsBlank(conditionExpression.value) then old(util.expressionCacheMap)
      else CacheAfter(old(util.expressionCacheMap), util.parse, conditionExpression.value)
    ensures util.parsed == old(util.parsed) + if conditionExpression.None? || IsBlank(conditionExpression.value)
      || conditionExpression.value in old(util.expressionCacheMap) then [] else [conditionExpression.value]
  {
    var f := GenerateSpelFunction(util, joinPoint);
    var supplier := () => Some(false);
    var condition := util.TryParseValue(f, conditionExpression, supplier, evalBool);
    TryParseCases(util.parse, conditionExpression, f.context.State(), supplier, evalBool);
    match condition {
      case Err(e) => r := Err(e);
      case Ok(Some(holds)) => r := if holds then Ok(Some(f)) else Ok(None);
    }
  }
}
