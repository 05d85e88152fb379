# SnailUtil core, modelled in Dafny

SnailUtil is a small Java utility library. This project models four of its pieces and proves
what they promise.

- **Bit-flag marks** (`BitMarkUtil`, `bit_mark.dfy`). A set of enum constants is packed into
  one 32-bit `int`, with bit `ordinal` standing for a constant. The operations are
  `createMark`, `isMark`, `addMark`, `delMark` and the mutable holder `BitMarkFunction`. The
  `int` is a `bv32` and an ordinal is a `bv5` (0 to 31). `createMark` is a loop proved against
  `MarkOf`, the OR-fold of the flags. The laws are proved bit by bit: set-then-test,
  clear-then-test, other bits unchanged, idempotence, and independence from order and
  duplicates.
- **Collection transforms** (`LambdaUtil`, `lambda.dfy`).
  - `toList` with and without nulls, and with a conversion step.
  - `toMap`, where the last element with a key wins.
  - `distinct`: a loop that calls a `DistinctPredicate` object, which mutates its set of seen
    keys. It is proved equal to `FirstByKey`, the first element of each key. `FirstByKey` is
    proved to be a subsequence with distinct keys, the same key set and idempotence.
  - A Java `null` is `None`. The null key is the sentinel `None`.
- **Expression glue** (`SpelUtil`, `spel.dfy`). Spring's SpEL engine is reduced to functions:
  - `parse`: text to a parsed expression or a parse error;
  - `evalAs`: a parsed expression and context to a value, a null or an evaluation error;
  - `parameterNames`: the parameter-name discoverer.

  The static state of `SpelUtil` is a class with the expression cache and the set-once bean
  resolver. Evaluation contexts are objects, because `generateSpelFunction` attaches the
  resolver to the caller's context in place.

  `getValue` is proved to return `Evaluate`, which never looks at the cache. The cache is
  therefore invisible to callers: it only stores what the parser would produce again. The
  method also states the cache's new contents exactly. A ghost log of the texts handed to the
  parser shows that a cached text is not parsed again.
- **Conditional evaluator** (`AspectSpelUtil`, `aspect_spel.dfy`). A join point is a
  (method, arguments) pair. The evaluator built from it is returned only when the condition
  expression, evaluated against that evaluator's context, is `true`.

`wrappers.dfy` holds `Option` (a Java reference that may be null) and `Result` (a call that
returns or throws).

## Model

| member | source | states |
|---|---|---|
| BitMark.SetBitBit | src/main/java/com/snail/bit/BitMarkUtil.java:75 | after `mark \| (1 << e)`, bit `o` is set iff `o == e` or it was set before |
| BitMark.ClearBitBit | src/main/java/com/snail/bit/BitMarkUtil.java:62 | after `mark & ~(1 << e)`, bit `o` is set iff `o != e` and it was set before |
| BitMark.AddMarkBit | src/main/java/com/snail/bit/BitMarkUtil.java:71-76 | after addMark the flag is marked, and every other constant is marked exactly as before |
| BitMark.DelMarkBit | src/main/java/com/snail/bit/BitMarkUtil.java:58-63 | after delMark the flag is not marked, and every other constant is marked exactly as before |
| BitMark.NullFlag | src/main/java/com/snail/bit/BitMarkUtil.java:48-76 | a null flag is never marked; addMark and delMark return the mark unchanged for it |
| BitMark.AddThenTest | src/main/java/com/snail/bit/BitMarkUtil.java:71-76 | isMark after addMark of a flag holds iff the flag is non-null |
| BitMark.DelThenTest | src/main/java/com/snail/bit/BitMarkUtil.java:58-63 | isMark after delMark of a flag is false |
| BitMark.AddMarkTwice | src/main/java/com/snail/bit/BitMarkUtil.java:71-76 | addMark is idempotent |
| BitMark.DelMarkTwice | src/main/java/com/snail/bit/BitMarkUtil.java:58-63 | delMark is idempotent |
| BitMark.DelAfterAdd | src/main/java/com/snail/bit/BitMarkUtil.java:58-76 | delMark(addMark(m, e), e) == delMark(m, e) |
| BitMark.MarkOfBit | src/main/java/com/snail/bit/BitMarkUtil.java:29-36 | a constant is marked in the OR-fold of a list iff the list contains it; nulls contribute nothing |
| BitMark.MarkOfAbsorbs | src/main/java/com/snail/bit/BitMarkUtil.java:31-36 | OR-ing in the mark of a list whose constants are all in `s` leaves the mark of `s` unchanged |
| BitMark.MarkOfIgnoresOrder | src/main/java/com/snail/bit/BitMarkUtil.java:31-36 | two lists with the same non-null constants give the same mark, whatever the order and duplicates |
| BitMark.CreateMark | src/main/java/com/snail/bit/BitMarkUtil.java:23-40 | createMark: 0 for a null collection, the OR-fold `MarkOf` otherwise (0 for empty), and a constant is marked iff the collection contains it |
| BitMarkFunctions.GenerateBitMarkFunction | src/main/java/com/snail/bit/BitMarkUtil.java:82-84 | a new holder whose mark is createMark of the collection |
| BitMarkFunctions.GenerateBitMarkFunctionOfMark | src/main/java/com/snail/bit/BitMarkUtil.java:90-92 | a new holder of the given mark |
| BitMarkFunctions.BitMarkFunction.IsMark | src/main/java/com/snail/bit/BitMarkUtil.java:102-104 | isMark on the held mark; the holder does not change |
| BitMarkFunctions.BitMarkFunction.AddMark | src/main/java/com/snail/bit/BitMarkUtil.java:106-109 | stores addMark of the held mark and returns the stored value |
| BitMarkFunctions.BitMarkFunction.DelMark | src/main/java/com/snail/bit/BitMarkUtil.java:111-114 | stores delMark of the held mark and returns the stored value |
| BitMarkFunctions.BitMarkFunction.GetMark | src/main/java/com/snail/bit/BitMarkUtil.java:116-118 | returns the held mark |
| Lambda.Map | src/main/java/com/snail/lambda/LambdaUtil.java:40-41 | the mapped list has the source's length and holds `mapFun` of each element at the same position |
| Lambda.WithoutNulls | src/main/java/com/snail/lambda/LambdaUtil.java:43-45 | filter(nonNull): no null remains; it is a subsequence of the input; each non-null value keeps its number of occurrences |
| Lambda.ToList | src/main/java/com/snail/lambda/LambdaUtil.java:34-49 | empty for an empty source; with nullable, mapFun of each element in order; otherwise the mapped list without nulls |
| Lambda.ToListNonNull | src/main/java/com/snail/lambda/LambdaUtil.java:60-62 | toList with nullable = false: no nulls, at most the source length, and exactly the non-null mapped values occur |
| Lambda.ToListConvert | src/main/java/com/snail/lambda/LambdaUtil.java:64-78 | empty when every mapped value is null (or the source is empty); otherwise convertFun of the non-null mapped list |
| Lambda.KeysOf | src/main/java/com/snail/lambda/LambdaUtil.java:153-156 | the set of keys of a list: every element's key, and only those |
| Lambda.CollectToMap | src/main/java/com/snail/lambda/LambdaUtil.java:95-96 | Collectors.toMap with replaceMergeFunction: the key set is the set of element keys, and there are at most as many entries as elements |
| Lambda.CollectToMapLastWins | src/main/java/com/snail/lambda/LambdaUtil.java:195-197 | each key maps to the last element with that key (the merge keeps the later value) |
| Lambda.ToMap | src/main/java/com/snail/lambda/LambdaUtil.java:89-98 | empty map for an empty list; NullPointerException iff an element is null; otherwise CollectToMap of the elements, holding every element's key |
| Lambda.ToMapVia | src/main/java/com/snail/lambda/LambdaUtil.java:100-110 | empty map for an empty list; otherwise toMap of targetListFun's list |
| Lambda.FirstByKeySubsequence | src/main/java/com/snail/lambda/LambdaUtil.java:182-186 | the deduplicated list is a subsequence of the input |
| Lambda.FirstByKeyKeys | src/main/java/com/snail/lambda/LambdaUtil.java:182-186 | the deduplicated list has every key of the input and no other |
| Lambda.FirstByKeyDistinct | src/main/java/com/snail/lambda/LambdaUtil.java:153-156 | no two elements of the deduplicated list share a key (all null keys are one key) |
| Lambda.FirstByKeyKeepsFirst | src/main/java/com/snail/lambda/LambdaUtil.java:129-131 | the first element with each key is kept |
| Lambda.FirstByKeyOfDistinct | src/main/java/com/snail/lambda/LambdaUtil.java:182-186 | a list whose keys are already distinct is left unchanged |
| Lambda.FirstByKeyIdempotent | src/main/java/com/snail/lambda/LambdaUtil.java:182-186 | distinct applied twice gives what it gives once |
| Lambda.DistinctPredicate.constructor | src/main/java/com/snail/lambda/LambdaUtil.java:139-151 | distinctPredicate(sourceList, keyFun, false) and distinctPredicate(keyFun): an empty key set |
| Lambda.DistinctPredicate.Test | src/main/java/com/snail/lambda/LambdaUtil.java:153-156 | keySet.add: accepts iff the key (null as the sentinel) was not seen; the key set gains the key |
| Lambda.Distinct | src/main/java/com/snail/lambda/LambdaUtil.java:182-186 | distinct equals FirstByKey: a subsequence with pairwise-distinct keys and the same key set as the input |
| Spel.EvaluateCases | src/main/java/com/snail/spel/SpelUtil.java:43-50 | a parse error is thrown; a SpelEvaluationException gives null; any other evaluation failure is thrown; a value is returned as is |
| Spel.CacheAfterProperties | src/main/java/com/snail/spel/SpelUtil.java:44 | computeIfAbsent keeps old entries, adds the text iff it parses, keeps the cache faithful to the parser, and a second lookup changes nothing |
| Spel.EvaluationContext.SetVariable | src/main/java/com/snail/spel/SpelUtil.java:146 | setVariable binds the name to the value and replaces an earlier binding |
| Spel.EvaluationContext.SetBeanResolver | src/main/java/com/snail/spel/SpelUtil.java:74 | setBeanResolver sets the context's resolver and leaves its variables unchanged |
| Spel.SpelUtil.GetValue | src/main/java/com/snail/spel/SpelUtil.java:43-50 | getValue: the result is Evaluate, whatever the cache held; the cache becomes CacheAfter and stays faithful; the parser is called only for a text not already cached (computeIfAbsent) |
| Spel.SpelUtil.Evict | src/main/java/com/snail/spel/SpelUtil.java:30 | a reclaimed cache entry disappears; the cache stays faithful, so no later result changes |
| Spel.SpelUtil.ParseMethodToContext | src/main/java/com/snail/spel/SpelUtil.java:159-161 | a fresh method-based standard context over the call, with no variables and no bean resolver |
| Spel.SpelUtil.GetValueForMethod | src/main/java/com/snail/spel/SpelUtil.java:62-64 | getValue against a fresh method-based context that has no bean resolver attached, with getValue's cache update and parse calls |
| Spel.SpelUtil.GenerateSpelFunction | src/main/java/com/snail/spel/SpelUtil.java:72-82 | attaches the registered resolver to the caller's context iff one is registered and the context is standard; the evaluator holds that same context |
| Spel.SpelUtil.GenerateSpelFunctionForMethod | src/main/java/com/snail/spel/SpelUtil.java:91-93 | an evaluator over a fresh method-based context carrying the registered resolver, if any |
| Spel.SpelUtil.GenerateSpelFunctionForVariables | src/main/java/com/snail/spel/SpelUtil.java:101-103 | an evaluator over a fresh context holding exactly the map's variables (none for null) and the registered resolver, if any |
| Spel.SpelUtil.ParseMethodToVariableMap | src/main/java/com/snail/spel/SpelUtil.java:115-134 | empty map for a null method or args, unknown names, or a names/args length mismatch; otherwise Zip of names and args |
| Spel.Zip | src/main/java/com/snail/spel/SpelUtil.java:129-133 | the keys are exactly the parameter names, with at most as many entries as names |
| Spel.ZipLastWins | src/main/java/com/snail/spel/SpelUtil.java:130-132 | a name is bound to the argument at its last position |
| Spel.SpelUtil.ParseVariableMapToContext | src/main/java/com/snail/spel/SpelUtil.java:142-150 | a fresh standard context whose variables are exactly the map's entries (none for a null map), with no resolver |
| Spel.SpelUtil.RegisterBeanFactory | src/main/java/com/snail/spel/SpelUtil.java:168-173 | the first call registers a resolver for the factory; a later call throws RuntimeException and keeps the first resolver |
| Spel.SpelUtil.FunctionGetValue | src/main/java/com/snail/spel/SpelUtil.java:76-81 | the evaluator's getValue is SpelUtil.getValue on the evaluator's own context, with its cache update and parse calls |
| Spel.SpelUtil.TryParseValue | src/main/java/com/snail/spel/SpelUtil.java:196-201 | tryParseValue equals TryParse; for a null or blank expression the parser is not called and nothing is cached; otherwise it parses only an uncached text |
| Spel.TryParseCases | src/main/java/com/snail/spel/SpelUtil.java:196-201 | the supplier's value for a null or blank expression or a null result; otherwise getValue's result or exception; never null with a non-null supplier |
| Spel.BlankExamples | src/main/java/com/snail/spel/SpelUtil.java:198 | isNotBlank follows Character.isWhitespace: "", " \t\n" and U+3000 are blank; "a", " x " and the no-break space U+00A0 are not |
| AspectSpel.GenerateSpelFunction | src/main/java/com/snail/spel/aspect/AspectSpelUtil.java:19-27 | SpelUtil.generateSpelFunction(method, args) with the join point's method and arguments |
| AspectSpel.ConditionHoldsCases | src/main/java/com/snail/spel/aspect/AspectSpelUtil.java:36-46 | the evaluator passes iff the condition is non-blank and evaluates to true; a null, blank, false or null-valued condition, or a SpelEvaluationException, gives null; other errors are thrown |
| AspectSpel.GenerateSpelFunctionWithCondition | src/main/java/com/snail/spel/aspect/AspectSpelUtil.java:36-46 | the outcome is ConditionHolds against the returned evaluator's own context; a returned evaluator is the fresh one built from the join point; a null or blank condition is neither parsed nor cached |

## Left out

- The SpEL grammar, operator semantics, `Class<T>` coercion and bean lookup are Spring library code. They are the functions `parse` and `evalAs` and the opaque bean factory `B`.
- How `MethodBasedEvaluationContext` turns the method and its arguments into variables is library code. It uses reflection and the `a0`/`p0` aliases. The context only records the invocation, for `evalAs` to read.
- Soft-reference eviction and thread safety of the `ConcurrentReferenceHashMap` cache are left out: they depend on garbage collection and concurrency. `SpelUtil.Evict` models a reclaimed entry. Concurrent `computeIfAbsent` calls are not modelled.
- The `isParallel` branch of `distinct` and `distinctPredicate` is left out because it is concurrent. It uses a concurrent set and `parallelStream`, and keeps no particular element.
- The `HashSet` capacity hint taken from `sourceList.size()` is left out. It has no observable effect.
- A key function or mapping function that throws, and a `null` key in a variable map, are not modelled.
- `SpelUtil.ParseVariableMapToContext` stores a null map value as a binding to `None`. Some Spring versions remove the variable instead. Both read back as null.
- Lambda.ToListConvert: the model does not show that `convertFun` is not called on the empty paths. Functions have no side effects here, so calling it or not is indistinguishable.
- Spel.TryParse: the model does not show that the supplier is called at most once, and only when needed. The supplier is a pure function here.
- Ordinals of 32 and more are outside the documented 32-flag limit. Java's `1 << ordinal` would wrap them onto bits 0 to 31.
- BitMarkFunctions.BitMarkFunction.IsMark and the other holder methods state the new field value and the return value. They do not model concurrent use of one holder.
- Spel.IsWhitespace: U+180E is whitespace only for Java versions whose Unicode data lists it as a space separator. It is treated as non-whitespace.
- Null inputs that Java rejects or passes through are not modelled. Lambda.ToList, Lambda.ToListNonNull, Lambda.ToListConvert, Lambda.ToMap, Lambda.ToMapVia and Lambda.Distinct take a list, so a null `sourceList` (a NullPointerException at `isEmpty()` or `stream()`) cannot be passed. The `convertFun` of ToListConvert and the `targetListFun` of ToMapVia return a list, so a null result, and the NullPointerException that `toMap` then throws, are not modelled. Spel.SpelUtil.GenerateSpelFunction takes a context object, so `generateSpelFunction(null)`, which returns an evaluator over a null context, is not modelled.
- The `SpelFunction` interface's own `getValue` is any implementation in Java. Only the anonymous class that `generateSpelFunction` returns is modelled.
