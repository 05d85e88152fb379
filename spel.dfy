/**
 * The glue of SpelUtil.java around Spring's expression engine: a cache of parsed expressions
 * keyed by their exact text, evaluation that turns an evaluation error into null, evaluation
 * contexts built from a method call or from a variable map, a bean resolver that can be
 * registered once, and the evaluator objects (SpelFunction) handed to callers.
 *
 * The engine is not modelled. Parsing is the function `parse` given to the SpelUtil object;
 * evaluating a parsed expression against a context, coerced to the requested class, is an
 * `evalAs` function passed with each call; the parameter names of a method are the function
 * `parameterNames` (the parameter-name discoverer).
 */
module Spel {
  import opened Wrappers

  /** The exceptions that leave SpelUtil's methods. */
  datatype Exception =
    | ParseException(message: string)       // thrown by the parser, outside the try block
    | EvaluationException(message: string)  // an evaluation failure other than a SpelEvaluationException
    | RuntimeException(message: string)     // a second registerBeanFactory

  /** How evaluating a parsed expression can fail. */
  datatype EvaluationError =
    | SpelEvaluationError(message: string)   // SpelEvaluationException: caught, gives null
    | OtherEvaluationError(message: string)  // any other exception: propagates

  /** The message of the exception of a second registerBeanFactory. */
  const AlreadyRegistered: string := "beanFactory已注册"

  /** A BeanFactoryResolver, wrapping the bean factory it resolves bean references against. */
  datatype BeanFactoryResolver<B> = BeanFactoryResolver(beanFactory: B)

  /** The method and arguments a MethodBasedEvaluationContext resolves its variables from. */
  datatype Invocation<M, V> = Invocation(targetMethod: Option<M>, args: Option<seq<Option<V>>>)

  /** What an expression sees of its evaluation context. */
  datatype ContextState<M, V, B> = ContextState(
    variables: map<string, Option<V>>,
    invocation: Option<Invocation<M, V>>,
    beanResolver: Option<BeanFactoryResolver<B>>)

  /**
   * An EvaluationContext. `standard` says whether it is a StandardEvaluationContext (a
   * MethodBasedEvaluationContext is one); `invocation` is set for a MethodBasedEvaluationContext.
   */
  class EvaluationContext<M, V, B> {
    const standard: bool
    const invocation: Option<Invocation<M, V>>
    var variables: map<string, Option<V>>
    var beanResolver: Option<BeanFactoryResolver<B>>

    /** A context with no variables and no bean resolver. */
    constructor (standard: bool, invocation: Option<Invocation<M, V>>)
      ensures this.standard == standard && this.invocation == invocation
      ensures variables == map[] && beanResolver == None
    {
      this.standard := standard;
      this.invocation := invocation;
      variables := map[];
      beanResolver := None;
    }

    function State(): ContextState<M, V, B>
      reads this
    {
      ContextState(variables, invocation, beanResolver)
    }

    /** setVariable: binds the name to the value, replacing an earlier binding. */
    method SetVariable(name: string, value: Option<V>)
      modifies this
      ensures variables == old(variables)[name := value]
      ensures beanResolver == old(beanResolver)
    {
      variables := variables[name := value];
    }

    /** setBeanResolver */
    method SetBeanResolver(resolver: BeanFactoryResolver<B>)
      modifies this
      ensures beanResolver == Some(resolver)
      ensures variables == old(variables)
    {
      beanResolver := Some(resolver);
    }
  }

  /** The evaluator generateSpelFunction returns: it evaluates against the context it holds. */
  datatype SpelFunction<M, V, B> = SpelFunction(context: EvaluationContext<M, V, B>)

  /* ---------- Evaluation, independent of the cache ---------- */

  /**
   * getValue(expression, context, valueClass) with the cache left out: a parse error is
   * thrown, a SpelEvaluationException gives null, any other evaluation error is thrown.
   */
  function Evaluate<E, M, V, B, T>(
    parse: string -> Result<E, string>, expression: string, context: ContextState<M, V, B>,
    evalAs: (E, ContextState<M, V, B>) -> Result<Option<T>, EvaluationError>)
    : (r: Result<Option<T>, Exception>)
  {
    match parse(expression)
    case Err(message) => Err(ParseException(message))
    case Ok(e) =>
      match evalAs(e, context)
      case Ok(value) => Ok(value)
      case Err(SpelEvaluationError(_)) => Ok(None)
      case Err(OtherEvaluationError(message)) => Err(EvaluationException(message))
  }

  /** What Evaluate gives, case by case: only the parser and non-SpEL failures throw. */
  lemma EvaluateCases<E, M, V, B, T>(
    parse: string -> Result<E, string>, expression: string, context: ContextState<M, V, B>,
    evalAs: (E, ContextState<M, V, B>) -> Result<Option<T>, EvaluationError>)
    ensures parse(expression).Err? ==>
      Evaluate(parse, expression, context, evalAs) == Err(ParseException(parse(expression).error))
    ensures parse(expression).Ok? && evalAs(parse(expression).value, context).Ok? ==>
      Evaluate(parse, expression, context, evalAs) == Ok(evalAs(parse(expression).value, context).value)
    ensures parse(expression).Ok? && evalAs(parse(expression).value, context).Err? ==>
      var err := evalAs(parse(expression).value, context).error;
      Evaluate(parse, expression, context, evalAs)
        == if err.SpelEvaluationError? then Ok(None) else Err(EvaluationException(err.message))
    ensures Evaluate(parse, expression, context, evalAs).Err? ==>
      !Evaluate(parse, expression, context, evalAs).error.RuntimeException?
  {
  }

  /* ---------- The expression cache ---------- */

  /** Every cached expression is what the parser makes of its text. */
  ghost predicate CacheFaithful<E>(cache: map<string, E>, parse: string -> Result<E, string>) {
    forall text :: text in cache ==> parse(text) == Ok(cache[text])
  }

  /**
   * The cache after `computeIfAbsent(expression, parser::parseExpression)`: unchanged when the
   * text is cached or fails to parse; otherwise the text is added with its parsed expression.
   */
  function CacheAfter<E>(cache: map<string, E>, parse: string -> Result<E, string>, expression: string)
    : map<string, E>
  {
    if expression in cache then cache
    else match parse(expression)
      case Ok(e) => cache[expression := e]
      case Err(_) => cache
  }

  /**
   * The cache keeps every entry it had, gains the text exactly when it parses, stays faithful,
   * and a second lookup of the same text changes nothing.
   */
  lemma CacheAfterProperties<E>(cache: map<string, E>, parse: string -> Result<E, string>, expression: string)
    ensures var c := CacheAfter(cache, parse, expression);
      && (forall t :: t in cache ==> t in c && c[t] == cache[t])
      && (forall t :: t in c && t != expression ==> t in cache)
      && (expression in c <==> expression in cache || parse(expression).Ok?)
      && CacheAfter(c, parse, expression) == c
    ensures CacheFaithful(cache, parse) ==> CacheFaithful(CacheAfter(cache, parse, expression), parse)
  {
  }

  /**
   * The static state of SpelUtil: the parser, the parameter-name discoverer, the expression
   * cache and the registered bean resolver.
   */
  class SpelUtil<E, M, V, B> {
    const parse: string -> Result<E, string>
    const parameterNames: M -> Option<seq<string>>
    var expressionCacheMap: map<string, E>
    var beanFactoryResolver: Option<BeanFactoryResolver<B>>
    /** The texts handed to the parser so far, in order: a cached text is not parsed again. */
    ghost var parsed: seq<string>

    ghost predicate Valid()
      reads this
    {
      CacheFaithful(expressionCacheMap, parse)
    }

    constructor (parse: string -> Result<E, string>, parameterNames: M -> Option<seq<string>>)
      ensures Valid()
      ensures this.parse == parse && this.parameterNames == parameterNames
      ensures expressionCacheMap == map[] && beanFactoryResolver == None && parsed == []
    {
      this.parse := parse;
      this.parameterNames := parameterNames;
      expressionCacheMap := map[];
      beanFactoryResolver := None;
      parsed := [];
    }

    /**
     * getValue(expression, context, valueClass). The result is that of Evaluate, whatever the
     * cache held: the cache only saves parsing.
     */
    method GetValue<T>(
      expression: string, context: EvaluationContext<M, V, B>,
      evalAs: (E, ContextState<M, V, B>) -> Result<Option<T>, EvaluationError>)
      returns (r: Result<Option<T>, Exception>)
      requires Valid()
      modifies this`expressionCacheMap, this`parsed
      ensures Valid()
      ensures r == Evaluate(parse, expression, context.State(), evalAs)
      ensures expressionCacheMap == CacheAfter(old(expressionCacheMap), parse, expression)
      ensures parsed == old(parsed) + if expression in old(expressionCacheMap) then [] else [expression]
    {
      var exp: E;
      if expression in expressionCacheMap {
        exp := expressionCacheMap[expression];
      } else {
        var result := parse(expression);
        parsed := parsed + [expression];
        if result.Err? {
          return Err(ParseException(result.error));
        }
        exp := result.value;
        expressionCacheMap := expressionCacheMap[expression := exp];
      }
      var value := evalAs(exp, context.State());
      match value {
        case Ok(v) => r := Ok(v);
        case Err(SpelEvaluationError(_)) => r := Ok(None);
        case Err(OtherEvaluationError(message)) => r := Err(EvaluationException(message));
      }
    }

    /**
     * A cached expression whose soft reference was cleared: the entry disappears. Evaluation
     * does not depend on the cache, so this changes no result.
     */
    method Evict(expression: string)
      requires Valid()
      modifies this`expressionCacheMap
      ensures Valid()
      ensures expressionCacheMap == old(expressionCacheMap) - {expression}
    {
      expressionCacheMap := expressionCacheMap - {expression};
    }

    /** parseMethodToContext: a MethodBasedEvaluationContext over the call, with no bean resolver. */
    static method ParseMethodToContext(targetMethod: Option<M>, args: Option<seq<Option<V>>>)
      returns (context: EvaluationContext<M, V, B>)
      ensures fresh(context)
      ensures context.standard && context.invocation == Some(Invocation(targetMethod, args))
      ensures context.variables == map[] && context.beanResolver == None
    {
      context := new EvaluationContext(true, Some(Invocation(targetMethod, args)));
    }

    /**
     * parseVariableMapToContext: a new StandardEvaluationContext with one variable per entry of
     * the map, and none for a null map.
     */
    static method ParseVariableMapToContext(variableMap: Option<map<string, Option<V>>>)
      returns (context: EvaluationContext<M, V, B>)
      ensures fresh(context)
      ensures context.standard && context.invocation == None && context.beanResolver == None
      ensures context.variables == if variableMap.None? then map[] else variableMap.value
    {
      context := new EvaluationContext(true, None);
      if variableMap.Some? {
        var entries := variableMap.value;
        var remaining := entries.Keys;
        while remaining != {}
          invariant remaining <= entries.Keys
          invariant context.beanResolver == None
          invariant context.variables == map name | name in entries.Keys - remaining :: entries[name]
          decreases remaining
        {
          var name :| name in remaining;
          context.SetVariable(name, entries[name]);
          remaining := remaining - {name};
        }
      }
    }

    /**
     * getValue(expression, method, args, valueClass): getValue against a fresh method-based
     * context, to which no bean resolver is attached.
     */
    method GetValueForMethod<T>(
      expression: string, targetMethod: Option<M>, args: Option<seq<Option<V>>>,
      evalAs: (E, ContextState<M, V, B>) -> Result<Option<T>, EvaluationError>)
      returns (r: Result<Option<T>, Exception>)
      requires Valid()
      modifies this`expressionCacheMap, this`parsed
      ensures Valid()
      ensures r == Evaluate(parse, expression, ContextState(map[], Some(Invocation(targetMethod, args)), None), evalAs)
      ensures expressionCacheMap == CacheAfter(old(expressionCacheMap), parse, expression)
      ensures parsed == old(parsed) + if expression in old(expressionCacheMap) then [] else [expression]
    {
      var context := ParseMethodToContext(targetMethod, args);
      r := GetValue(expression, context, evalAs);
    }

    /**
     * generateSpelFunction(evaluationContext): attaches the registered bean resolver to the
     * caller's context when one is registered and the context is a StandardEvaluationContext,
     * and returns an evaluator over that same context.
     */
    method GenerateSpelFunction(context: EvaluationContext<M, V, B>) returns (f: SpelFunction<M, V, B>)
      modifies context
      ensures f.context == context
      ensures context.variables == old(context.variables)
      ensures context.beanResolver
        == if beanFactoryResolver.Some? && context.standard then beanFactoryResolver else old(context.beanResolver)
    {
      if beanFactoryResolver.Some? && context.standard {
        context.SetBeanResolver(beanFactoryResolver.value);
      }
      f := SpelFunction(context);
    }

    /** generateSpelFunction(method, args): an evaluator over a fresh method-based context. */
    method GenerateSpelFunctionForMethod(targetMethod: Option<M>, args: Option<seq<Option<V>>>)
      returns (f: SpelFunction<M, V, B>)
      ensures fresh(f.context)
      ensures f.context.State() == ContextState(map[], Some(Invocation(targetMethod, args)), beanFactoryResolver)
    {
      var context := ParseMethodToContext(targetMethod, args);
      f := GenerateSpelFunction(context);
    }

    /** generateSpelFunction(variableMap): an evaluator over a fresh context holding the map. */
    method GenerateSpelFunctionForVariables(variableMap: Option<map<string, Option<V>>>)
      returns (f: SpelFunction<M, V, B>)
      ensures fresh(f.context)
      ensures f.context.State()
        == ContextState(if variableMap.None? then map[] else variableMap.value, None, beanFactoryResolver)
    {
      var context := ParseVariableMapToContext(variableMap);
      f := GenerateSpelFunction(context);
    }

    /**
     * parseMethodToVariableMap: an empty map when the method or the arguments are null, when
     * the parameter names are unknown, or when there are not as many names as arguments;
     * otherwise each name bound to its argument, a later duplicate name winning.
     */
    method ParseMethodToVariableMap(targetMethod: Option<M>, args: Option<seq<Option<V>>>)
      returns (variableMap: map<string, Option<V>>)
      ensures targetMethod.None? || args.None? ==> variableMap == map[]
      ensures targetMethod.Some? && args.Some? ==>
        var names := parameterNames(targetMethod.value);
        variableMap == if names.None? || |names.value| != |args.value| then map[] else Zip(names.value, args.value)
    {
      if targetMethod.None? || args.None? {
        return map[];
      }
      var names := parameterNames(targetMethod.value);
      if names.None? || |names.value| != |args.value| {
        return map[];
      }
      var parameters, values := names.value, args.value;
      variableMap := map[];
      for i := 0 to |parameters|
        invariant variableMap == Zip(parameters[..i], values[..i])
      {
        assert parameters[..i + 1][..i] == parameters[..i];
        assert values[..i + 1][..i] == values[..i];
        variableMap := variableMap[parameters[i] := values[i]];
      }
      assert parameters[..|parameters|] == parameters;
      assert values[..|values|] == values;
    }

    /**
     * registerBeanFactory: registers a resolver for the factory; a second registration throws
     * and keeps the first resolver.
     */
    method RegisterBeanFactory(beanFactory: B) returns (r: Result<(), Exception>)
      modifies this`beanFactoryResolver
      ensures old(beanFactoryResolver).Some? ==>
        r == Err(RuntimeException(AlreadyRegistered)) && beanFactoryResolver == old(beanFactoryResolver)
      ensures old(beanFactoryResolver).None? ==>
        r == Ok(()) && beanFactoryResolver == Some(BeanFactoryResolver(beanFactory))
    {
      if beanFactoryResolver.Some? {
        return Err(RuntimeException(AlreadyRegistered));
      }
      beanFactoryResolver := Some(BeanFactoryResolver(beanFactory));
      r := Ok(());
    }

    /** SpelFunction.getValue(expression, valueClass): getValue against the evaluator's context. */
    method FunctionGetValue<T>(
      f: SpelFunction<M, V, B>, expression: string,
      evalAs: (E, ContextState<M, V, B>) -> Result<Option<T>, EvaluationError>)
      returns (r: Result<Option<T>, Exception>)
      requires Valid()
      modifies this`expressionCacheMap, this`parsed
      ensures Valid()
      ensures r == Evaluate(parse, expression, f.context.State(), evalAs)
      ensures expressionCacheMap == CacheAfter(old(expressionCacheMap), parse, expression)
      ensures parsed == old(parsed) + if expression in old(expressionCacheMap) then [] else [expression]
    {
      r := GetValue(expression, f.context, evalAs);
    }

    /**
     * SpelFunction.tryParseValue(expression, supplier, valueClass): the supplier's value for a
     * null or blank expression (nothing is parsed) or a null result; otherwise the result.
     */
    method TryParseValue<T>(
      f: SpelFunction<M, V, B>, expression: Option<string>, supplier: () -> Option<T>,
      evalAs: (E, ContextState<M, V, B>) -> Result<Option<T>, EvaluationError>)
      returns (r: Result<Option<T>, Exception>)
      requires Valid()
      modifies this`expressionCacheMap, this`parsed
      ensures Valid()
      ensures r == TryParse(parse, expression, f.context.State(), supplier, evalAs)
      ensures expressionCacheMap == if expression.None? || IsBlank(expression.value) then old(expressionCacheMap)
        else CacheAfter(old(expressionCacheMap), parse, expression.value)
      ensures parsed == old(parsed) + if expression.None? || IsBlank(expression.value)
        || expression.value in old(expressionCacheMap) then [] else [expression.value]
    {
      if expression.None? || IsBlank(expression.value) {
        return Ok(supplier());
      }
      var value := FunctionGetValue(f, expression.value, evalAs);
      match value {
        case Err(e) => r := Err(e);
        case Ok(None) => r := Ok(supplier());
        case Ok(Some(v)) => r := Ok(Some(v));
      }
    }
  }

  /**
   * The names bound to the arguments at the same positions, in order, so that a later
   * duplicate name overwrites an earlier one.
   */
  function Zip<V>(names: seq<string>, args: seq<Option<V>>): (r: map<string, Option<V>>)
    requires |names| == |args|
    ensures r.Keys == set i | 0 <= i < |names| :: names[i]
    ensures |r| <= |names|
  {
    if names == [] then map[]
    else
      var n := |names| - 1;
      var r := Zip(names[..n], args[..n]);
      assert forall i :: 0 <= i < n ==> names[..n][i] == names[i];
      r[names[n] := args[n]]
  }

  /** A name is bound to the argument at its last position. */
  lemma {:induction false} ZipLastWins<V>(names: seq<string>, args: seq<Option<V>>, i: int)
    requires |names| == |args| && 0 <= i < |names|
    requires forall j :: i < j < |names| ==> names[j] != names[i]
    ensures names[i] in Zip(names, args) && Zip(names, args)[names[i]] == args[i]
  {
    var n := |names| - 1;
    if i < n {
      assert names[..n][i] == names[i] && args[..n][i] == args[i];
      ZipLastWins(names[..n], args[..n], i);
    }
  }

  /* ---------- tryParseValue ---------- */

  /**
   * Character.isWhitespace: the space separators other than the no-break spaces U+00A0, U+2007
   * and U+202F, the line and paragraph separators, and the controls U+0009 to U+000D and
   * U+001C to U+001F.
   */
  predicate IsWhitespace(c: char) {
    || '\U{9}' <= c <= '\U{D}'
    || '\U{1C}' <= c <= '\U{1F}'
    || c == ' ' || c == '\U{1680}'
    || '\U{2000}' <= c <= '\U{2006}' || '\U{2008}' <= c <= '\U{200A}'
    || c == '\U{2028}' || c == '\U{2029}' || c == '\U{205F}' || c == '\U{3000}'
  }

  /** StringUtils.isBlank of a non-null string: empty or whitespace only. */
  predicate IsBlank(s: string) {
    forall i :: 0 <= i < |s| ==> IsWhitespace(s[i])
  }

  /**
   * tryParseValue with the cache left out:
   * `Optional.ofNullable(expression).filter(isNotBlank).map(getValue).orElseGet(supplier)`.
   */
  function TryParse<E, M, V, B, T>(
    parse: string -> Result<E, string>, expression: Option<string>, context: ContextState<M, V, B>,
    supplier: () -> Option<T>, evalAs: (E, ContextState<M, V, B>) -> Result<Option<T>, EvaluationError>)
    : Result<Option<T>, Exception>
  {
    if expression.None? || IsBlank(expression.value) then Ok(supplier())
    else match Evaluate(parse, expression.value, context, evalAs)
      case Err(e) => Err(e)
      case Ok(None) => Ok(supplier())
      case Ok(Some(v)) => Ok(Some(v))
  }

  /**
   * tryParseValue gives the supplier's value when the expression is null or blank or evaluates
   * to null, the value when it evaluates to one, and an exception only when getValue throws
   * one; with a supplier of a non-null value it never gives null.
   */
  lemma TryParseCases<E, M, V, B, T>(
    parse: string -> Result<E, string>, expression: Option<string>, context: ContextState<M, V, B>,
    supplier: () -> Option<T>, evalAs: (E, ContextState<M, V, B>) -> Result<Option<T>, EvaluationError>)
    ensures expression.None? || IsBlank(expression.value) ==>
      TryParse(parse, expression, context, supplier, evalAs) == Ok(supplier())
    ensures expression.Some? && !IsBlank(expression.value) ==>
      var v := Evaluate(parse, expression.value, context, evalAs);
      TryParse(parse, expression, context, supplier, evalAs) == if v == Ok(None) then Ok(supplier()) else v
    ensures supplier().Some? ==> TryParse(parse, expression, context, supplier, evalAs) != Ok(None)
  {
  }

  /** A blank text: the empty string, or white space such as " \t\n". */
  lemma BlankExamples()
    ensures IsBlank("") && IsBlank(" \t\n") && IsBlank("\U{3000}")
    ensures !IsBlank("a") && !IsBlank(" x ") && !IsBlank("\U{A0}")
  {
    assert !IsWhitespace("a"[0]);
    assert !IsWhitespace(" x "[1]);
    assert !IsWhitespace("\U{A0}"[0]);
  }
}
