# IronPython conversion binder and DLR call-site operations, in Dafny

This project models two pieces of the IronPython / Dynamic Language Runtime stack.

**`PythonConversionBinder`** is the binder behind every Python-to-CLR conversion site. Given the
meta-object of a value and a target type, it picks one guarded rule. A rule is an action plus the
type it produces plus binding restrictions. The binder's choices are:

- a deferred nested site;
- the value's own `IPythonConvertible` conversion;
- COM interop;
- truthiness for `bool`;
- a one-character string for `char`;
- a tuple to a one-dimensional array;
- adapters for `IList<T>`, `IDictionary<K,V>`, `IEnumerable<T>`, `IEnumerable` and `IEnumerator`;
- a zero numeric to an enum;
- otherwise the language binder's generic conversion, cast to the binder's return type.

Each step is a pure function of:

- the binder's fields (context, target type, conversion kind, `retObject`);
- the meta-object;
- a record of collaborators (`Hooks`) whose code is outside the model.

Because the collaborators are arbitrary functions, every lemma holds for every collaborator that meets its requires. Mostly that means COM declines the conversion. The equality lemmas also ask that the base class's equality be lawful.
A .NET `string` is a sequence of UTF-16 code units (`HostTypes.CodeUnit`), and a `char` is one code unit. So `Length` counts a surrogate pair as two, and a lone surrogate is a valid character.
`BindDelegate` and its hand-written fast-path delegates are modelled as well. Each fast path either
answers the call or hands the argument back to the site's `Update`.

**`CallSiteOps`** holds the static helpers that generated dispatch code calls on a `CallSite<T>`:

- the match flag and the matchmaker probe site;
- the site's first-level rule set (`SmallRuleSet<T>`);
- the binder's shared rule cache (`RuleCache<T>`).

These are classes whose fields the operations update in place.

Modules:

- `HostTypes`: CLR type descriptors, runtime values, assignability and type codes.
- `Meta`: guards, actions and their meaning, rules, meta-objects and `Restrict`.
- `ConversionBinder`: the binder.
- `ConversionProperties`: what its rules mean.
- `FastPaths`: `BindDelegate` and the fast paths.
- `CallSiteOps`: the call-site helpers.
- `Wrappers`: `Option`.

## Model

| member | source | states |
|---|---|---|
| `ConversionBinder.ReturnType` | Merlin/Main/Languages/IronPython/IronPython/Runtime/Binding/ConversionBinder.cs:98-110 | The return type is `object` or the target type. `retObject` forces `object`. A cast conversion without `retObject` returns the target type. A value type is returned only by a cast, and never by a Try conversion. |
| `ConversionBinder.Bind` | Merlin/Main/Languages/IronPython/IronPython/Runtime/Binding/ConversionBinder.cs:72-96 | A value needing deferral gets a rule of the return type under its own restrictions. With `retObject` the rule is typed `object`. Otherwise the rule keeps the restrictions of `BindConvert` or of the fallback. |
| `ConversionBinder.MyDefer` | Merlin/Main/Languages/IronPython/IronPython/Runtime/Binding/ConversionBinder.cs:112-121 | A nested dynamic site typed as the return type, under the value's restrictions. |
| `ConversionBinder.FallbackConvert` | Merlin/Main/Languages/IronPython/IronPython/Runtime/Binding/ConversionBinder.cs:123-216 | A COM rule is returned as is. The enum rule has the enum type and keeps the value's restrictions. Without a COM or category rule the result has the return type or the enum type. |
| `ConversionBinder.ObjectTargetConversion` | Merlin/Main/Languages/IronPython/IronPython/Runtime/Binding/ConversionBinder.cs:143-191 | Only arrays, generic types, `IEnumerable` and `IEnumerator` get a rule. An array of another rank or a non-tuple value gets none, and neither does a generic target the value already implements. |
| `ConversionBinder.NumericToEnumConversion` | Merlin/Main/Languages/IronPython/IronPython/Runtime/Binding/ConversionBinder.cs:194-213 | Typed as the enum and guarded by the value's type. Zero gives the enum's default member; any other number gives the bad-enum error. |
| `ConversionBinder.EnsureReturnType` | Merlin/Main/Languages/IronPython/IronPython/Runtime/Binding/ConversionBinder.cs:218-230 | The result has the return type and the same restrictions. A rule already of that type is returned unchanged. |
| `ConversionBinder.TryToGenericInterfaceConversion` | Merlin/Main/Languages/IronPython/IronPython/Runtime/Binding/ConversionBinder.cs:411-429 | An adapter exists exactly when the value's type is assignable to the source interface. It wraps that interface, has the adapter type, and is guarded by the value's type. |
| `ConversionBinder.MakeToArrayConversion` | Merlin/Main/Languages/IronPython/IronPython/Runtime/Binding/ConversionBinder.cs:431-441 | The tuple-to-array rule has the array type and is guarded by exactly `PythonTuple`. |
| `ConversionBinder.MakeToArrayConversionOfValueType` | Merlin/Main/Languages/IronPython/IronPython/Runtime/Binding/ConversionBinder.cs:431-441 | The tuple-to-array rule with the array type, guarded by the value's own runtime type. |
| `ConversionBinder.TryToCharConversion` | Merlin/Main/Languages/IronPython/IronPython/Runtime/Binding/ConversionBinder.cs:443-505 | A rule exists exactly for a known `string` or `Extensible<string>` value. It keeps the value's restrictions plus its runtime type, and is either char-typed or the length error. Lengths count UTF-16 code units, as .NET's `Length` does. |
| `ConversionBinder.MakeToBoolConversion` | Merlin/Main/Languages/IronPython/IronPython/Runtime/Binding/ConversionBinder.cs:507-548 | The rule is bool-typed, or the reference-cell error typed as the return type, in both cases keeping the value's restrictions. Otherwise it is the truthiness protocol's rule. |
| `ConversionBinder.MakeToIListConversionByRuntimeType` | Merlin/Main/Languages/IronPython/IronPython/Runtime/Binding/ConversionBinder.cs:151-165 | The corrected `IList<T>` case: the byte-list rule is chosen exactly when `GetLimitType()` is `string`, the type its restriction tests. |
| `ConversionBinder.CategoryConversion` | Merlin/Main/Languages/IronPython/IronPython/Runtime/Binding/ConversionBinder.cs:136-192 | A `bool` target always gets a rule. A `char` target gets one exactly for a known string-like value. Any type code other than `Boolean`, `Char` and `Object` gets none. |
| `ConversionBinder.MakeNoneToBoolConversion` | Merlin/Main/Languages/IronPython/IronPython/Runtime/Binding/ConversionBinder.cs:550-556 | Null is false: a bool-typed rule that gives false for every argument, under the value's restrictions. |
| `ConversionBinder.MakePrimitiveToBoolComparison` | Merlin/Main/Languages/IronPython/IronPython/Runtime/Binding/ConversionBinder.cs:558-568 | A bool-typed rule under the value's restrictions. A number, enum or char is true exactly when it is not its type's zero, and a bool is itself. |
| `ConversionBinder.MakeStrongBoxToBoolConversionError` | Merlin/Main/Languages/IronPython/IronPython/Runtime/Binding/ConversionBinder.cs:570-581 | A rule typed as the return type, under the value's restrictions, that raises the reference-cell error for every argument. |
| `ConversionBinder.TruthSubject` | Merlin/Main/Languages/IronPython/IronPython/Runtime/Binding/ConversionBinder.cs:509-511 | A known value gains exactly the restriction to its runtime type, and its expression is retyped to that type. An unknown value comes back unchanged. |
| `Meta.LimitTypeProperty` | Merlin/Main/Languages/IronPython/IronPython/Runtime/Binding/ConversionBinder.cs:152 | Agrees with `GetLimitType()` except on a known null, where it keeps the expression's static type while `GetLimitType()` gives `DynamicNull`. |
| `Meta.Restrict` | Merlin/Main/Languages/IronPython/IronPython/Runtime/Binding/ConversionBinder.cs:509-511 | Restricting to a type adds exactly that runtime-type guard and retypes the expression. It keeps the value and the limit type of a known value. |
| `HostTypes.GetTypeCode` | Merlin/Main/Languages/IronPython/IronPython/Runtime/Binding/ConversionBinder.cs:136-143 | The Boolean code belongs to `bool` alone and the Char code to `char` alone. Exactly numbers and enums have a numeric code, and an enum reports the code of its underlying type, so an enum target never reaches the Boolean, Char or Object case. |
| `HostTypes.StringOf` | Merlin/Main/Languages/IronPython/IronPython/Runtime/Binding/ConversionBinder.cs:443-464 | A string is found exactly when the value is a `string` or an `Extensible<string>`. |
| `ConversionProperties.EnsureReturnTypeSpec` | Merlin/Main/Languages/IronPython/IronPython/Runtime/Binding/ConversionBinder.cs:218-230 | The result has the binder's return type, the same restrictions and the same meaning. It is unchanged exactly when the type already matched. |
| `ConversionProperties.EnsureReturnTypeIdempotent` | Merlin/Main/Languages/IronPython/IronPython/Runtime/Binding/ConversionBinder.cs:218-230 | Applying it twice is the same as applying it once. |
| `ConversionProperties.TruthinessOfKnownValue` | Merlin/Main/Languages/IronPython/IronPython/Runtime/Binding/ConversionBinder.cs:507-568 | None is false. A bool is itself. A number, enum or char is true exactly when it is nonzero. These rules' guards admit the value. Any other type takes the rule of `PythonProtocol.ConvertToBool` when it gives one. Otherwise the rule is bool-typed, admits the value, and gives true for every argument. |
| `ConversionProperties.StrongBoxNeverBool` | Merlin/Main/Languages/IronPython/IronPython/Runtime/Binding/ConversionBinder.cs:570-581 | Converting an `IStrongBox` to bool raises, for every argument, typed as the return type. |
| `ConversionProperties.CharConversionOfKnownValue` | Merlin/Main/Languages/IronPython/IronPython/Runtime/Binding/ConversionBinder.cs:443-505 | A rule exists exactly for string-like values. It is guarded by the runtime type. Length 1 yields character 0 under a length-is-1 guard. Any other length raises under a length-is-not-1 guard. Lengths count UTF-16 code units. |
| `ConversionProperties.CharLengthCountsCodeUnits` | Merlin/Main/Languages/IronPython/IronPython/Runtime/Binding/ConversionBinder.cs:477-497 | A character outside the Basic Multilingual Plane is a surrogate pair of length 2, so it gets the length error. A lone surrogate is a one-character string that converts to itself. |
| `ConversionProperties.CharRulesExclusive` | Merlin/Main/Languages/IronPython/IronPython/Runtime/Binding/ConversionBinder.cs:477-497 | The success rule and the failure rule never admit the same argument. |
| `ConversionProperties.CharFailureCoversOtherLengths` | Merlin/Main/Languages/IronPython/IronPython/Runtime/Binding/ConversionBinder.cs:486-497 | A cached failure rule admits, and rejects with the length error, every string of the same type whose length in UTF-16 code units is not 1. |
| `ConversionProperties.EnumConversion` | Merlin/Main/Languages/IronPython/IronPython/Runtime/Binding/ConversionBinder.cs:194-213 | A number of the enum's underlying type takes the enum rule, even over a category rule. The rule is guarded by the number's type and yields the enum's zero member for 0. Any other number gives the bad-enum error. |
| `ConversionProperties.EnumNeedsUnderlyingType` | Merlin/Main/Languages/IronPython/IronPython/Runtime/Binding/ConversionBinder.cs:194-215 | A value of another type falls through to the language binder's conversion, cast to the return type. |
| `ConversionProperties.FallbackOrder` | Merlin/Main/Languages/IronPython/IronPython/Runtime/Binding/ConversionBinder.cs:123-216 | COM wins, then the enum rule, then the type-code category. Otherwise the platform rule is used, cast to the return type with its restrictions kept. |
| `ConversionProperties.EnumerableTarget` | Merlin/Main/Languages/IronPython/IronPython/Runtime/Binding/ConversionBinder.cs:171-183 | For `IEnumerable`, a string gets the string-yielding adapter guarded by its type alone. Otherwise the protocol adapter is used only for a value that is not enumerable and is not an old-style instance. |
| `ConversionProperties.EnumeratorTarget` | Merlin/Main/Languages/IronPython/IronPython/Runtime/Binding/ConversionBinder.cs:184-189 | For `IEnumerator`, a rule exists exactly when the value is neither an enumerator nor an enumerable, is not an old-style instance, and the protocol produces one. |
| `ConversionProperties.GenericInterfaceTarget` | Merlin/Main/Languages/IronPython/IronPython/Runtime/Binding/ConversionBinder.cs:147-170 | A generic target the value already implements gets no rule. Otherwise a string (by the `LimitType` property) to `IList<T>` gets the byte list. Any other value gets an adapter exactly when its type is assignable to `IList<object>`, `IDictionary<object, object>` or `IEnumerable` respectively. The adapter implements the target and is guarded by the value's type. |
| `ConversionProperties.ArrayTarget` | Merlin/Main/Languages/IronPython/IronPython/Runtime/Binding/ConversionBinder.cs:145-146 | A one-dimensional array target takes the tuple-to-array rule exactly when the value is a tuple or a subclass of tuple. The rule is guarded by exactly `PythonTuple` and admits a tuple itself. Any other value or rank gets no category rule. |
| `ConversionProperties.TupleSubclassArrayRuleRejectsItsValue` | Merlin/Main/Languages/IronPython/IronPython/Runtime/Binding/ConversionBinder.cs:145-146 | For an instance of a subclass of tuple, the tuple-to-array rule as written is chosen, and its guards reject that very value. |
| `ConversionProperties.CorrectedArrayRuleAdmitsItsValue` | Merlin/Main/Languages/IronPython/IronPython/Runtime/Binding/ConversionBinder.cs:431-441 | The tuple-to-array rule restricted to the value's own type admits that value. It admits only values of the same type, which are tuples too. |
| `ConversionProperties.NullStringByteListRuleRejectsItsValue` | Merlin/Main/Languages/IronPython/IronPython/Runtime/Binding/ConversionBinder.cs:151-162 | For a known null whose expression is typed `string`, the byte-list rule as written is chosen, and its guard rejects that very null. |
| `ConversionProperties.CorrectedByteListRuleAdmitsItsValue` | Merlin/Main/Languages/IronPython/IronPython/Runtime/Binding/ConversionBinder.cs:151-165 | Chosen by `GetLimitType()`, the `IList<T>` case builds only rules that admit their value. A string gets the byte list, and a null gets no rule from this case. |
| `ConversionProperties.BuiltRulesAdmitTheirValue` | Merlin/Main/Languages/IronPython/IronPython/Runtime/Binding/ConversionBinder.cs:123-216 | Every rule the binder builds itself admits the value it was built for. The exceptions are rules taken from a collaborator and the platform rule cast to the return type. Two more exceptions are rules as written: the tuple-to-array rule for a subclass of tuple, and the byte-list rule for a null string. |
| `ConversionProperties.CachedRuleAgreesWithResolution` | Merlin/Main/Languages/IronPython/IronPython/Runtime/Binding/ConversionBinder.cs:123-216 | Take a bool, char or enum rule built for one argument. For any argument its guards admit, it answers what a fresh resolution for that argument would answer. |
| `ConversionProperties.BindOrder` | Merlin/Main/Languages/IronPython/IronPython/Runtime/Binding/ConversionBinder.cs:72-96 | Deferral comes first, as a nested site under the same restrictions. Then the value's own conversion, then the fallback. `retObject` casts the result to `object`, keeping its guards and meaning. |
| `ConversionProperties.EqualBindersHashAlike` | Merlin/Main/Languages/IronPython/IronPython/Runtime/Binding/ConversionBinder.cs:388-400 | Given a base class whose equal objects hash alike, equal binders have equal hash codes. |
| `ConversionProperties.EqualsIsEquivalence` | Merlin/Main/Languages/IronPython/IronPython/Runtime/Binding/ConversionBinder.cs:392-401 | Given a base class whose equality is an equivalence, so is this equality. It is never equal to a non-binder. |
| `ConversionProperties.EqualsComparesConfiguration` | Merlin/Main/Languages/IronPython/IronPython/Runtime/Binding/ConversionBinder.cs:392-401 | Binders on different language binders, of different kinds, or with different `retObject` are never equal. Otherwise `base.Equals` decides, so the target type matters only through it. |
| `FastPaths.BindDelegate` | Merlin/Main/Languages/IronPython/IronPython/Runtime/Binding/ConversionBinder.cs:232-282 | Every delegate except `Func<CallSite, bool, int>` takes `object`. An untyped identity delegate needs an `object` site and an argument type that the target type admits. |
| `FastPaths.StringConversion` | Merlin/Main/Languages/IronPython/IronPython/Runtime/Binding/ConversionBinder.cs:284-291 | Answers exactly for strings, returning the string. |
| `FastPaths.IntConversion` | Merlin/Main/Languages/IronPython/IronPython/Runtime/Binding/ConversionBinder.cs:293-299 | Answers exactly for `int`, returning it. |
| `FastPaths.BoolToIntConversion` | Merlin/Main/Languages/IronPython/IronPython/Runtime/Binding/ConversionBinder.cs:301-307 | Answers exactly for bools: 1 for true, 0 for false. |
| `FastPaths.BoolToIntConversionOfBool` | Merlin/Main/Languages/IronPython/IronPython/Runtime/Binding/ConversionBinder.cs:309-311 | Gives 1 exactly for true and 0 exactly for false. |
| `FastPaths.BoolConversion` | Merlin/Main/Languages/IronPython/IronPython/Runtime/Binding/ConversionBinder.cs:313-319 | Answers exactly for bools, returning the bool. |
| `FastPaths.IntToBoolConversion` | Merlin/Main/Languages/IronPython/IronPython/Runtime/Binding/ConversionBinder.cs:321-327 | Answers exactly for `int`: nonzero is true. |
| `FastPaths.StringToBoolConversion` | Merlin/Main/Languages/IronPython/IronPython/Runtime/Binding/ConversionBinder.cs:329-335 | Answers exactly for strings: non-empty is true. |
| `FastPaths.NullToBoolConversion` | Merlin/Main/Languages/IronPython/IronPython/Runtime/Binding/ConversionBinder.cs:337-343 | Answers exactly for null, with false. |
| `FastPaths.ObjectToBoolConversion` | Merlin/Main/Languages/IronPython/IronPython/Runtime/Binding/ConversionBinder.cs:345-351 | Answers exactly for a plain `object` instance, with true. |
| `FastPaths.IdentityConversion` | Merlin/Main/Languages/IronPython/IronPython/Runtime/Binding/ConversionBinder.cs:353-382 | Answers exactly for a non-null value of the recorded type, returning it unchanged. |
| `FastPaths.SelectedFastPathHits` | Merlin/Main/Languages/IronPython/IronPython/Runtime/Binding/ConversionBinder.cs:232-282 | The delegate `BindDelegate` picks for an argument answers that argument without an update. |
| `FastPaths.FastPathHitsHaveSiteType` | Merlin/Main/Languages/IronPython/IronPython/Runtime/Binding/ConversionBinder.cs:259-273 | A chosen delegate answers later arguments with values of the site's type. The identity delegates return the argument, whose type the target type admits. |
| `FastPaths.BoolFastPathsAgreeWithResolution` | Merlin/Main/Languages/IronPython/IronPython/Runtime/Binding/ConversionBinder.cs:247-258 | The int, null, bool and plain-object fast paths on a bool site answer what the full resolution's rule computes, and that rule's guards admit the argument. |
| `CallSiteOps.CreateMatchmaker` | ndp/fx/src/Core/Microsoft/Scripting/Actions/CallSiteOps.cs:39-43 | The probe site is fresh, has no rules, shares the binder's cache and starts matched. |
| `CallSiteOps.CallSite.CreateMatchMaker` | ndp/fx/src/Core/Microsoft/Scripting/Actions/CallSiteOps.cs:40 | Returns a fresh site with no rule set. Sharing the original site's rule cache and rule-set operations is this model's reading, since the method's code is not part of this model. |
| `CallSiteOps.SetNotMatched` | ndp/fx/src/Core/Microsoft/Scripting/Actions/CallSiteOps.cs:51-55 | Returns the previous flag and leaves it false. The rule set is unchanged. |
| `CallSiteOps.GetMatch` | ndp/fx/src/Core/Microsoft/Scripting/Actions/CallSiteOps.cs:63-65 | Returns the flag and changes nothing. |
| `CallSiteOps.ClearMatch` | ndp/fx/src/Core/Microsoft/Scripting/Actions/CallSiteOps.cs:72-74 | Leaves the flag true. The rule set is unchanged. |
| `CallSiteOps.AddRule` | ndp/fx/src/Core/Microsoft/Scripting/Actions/CallSiteOps.cs:83-89 | The first rule makes a fresh set holding exactly that rule, with the site's add and move operations. A later rule replaces the set with a fresh one that the old set's add builds, keeping the old set's operations. The flag is untouched. |
| `CallSiteOps.SmallRuleSet.constructor` | ndp/fx/src/Core/Microsoft/Scripting/Actions/CallSiteOps.cs:85 | A new rule set holds the given rules. |
| `CallSiteOps.SmallRuleSet.AddRule` | ndp/fx/src/Core/Microsoft/Scripting/Actions/CallSiteOps.cs:87 | Returns a fresh set holding the added rules and leaves the receiver as it was. |
| `CallSiteOps.UpdateRules` | ndp/fx/src/Core/Microsoft/Scripting/Actions/CallSiteOps.cs:98-102 | Only a matched index above 1 promotes the rule. Otherwise the rule set is unchanged. |
| `CallSiteOps.SmallRuleSet.MoveRule` | ndp/fx/src/Core/Microsoft/Scripting/Actions/CallSiteOps.cs:100 | The rules become the set's move applied to the old rules. |
| `CallSiteOps.GetRules` | ndp/fx/src/Core/Microsoft/Scripting/Actions/CallSiteOps.cs:111-113 | Returns null exactly when the site has no rule set, and otherwise the set's rules. |
| `CallSiteOps.GetRuleCache` | ndp/fx/src/Core/Microsoft/Scripting/Actions/CallSiteOps.cs:123-125 | Returns the binder's shared cache. |
| `CallSiteOps.MoveRule` | ndp/fx/src/Core/Microsoft/Scripting/Actions/CallSiteOps.cs:136-140 | Only an index above 1 moves the cached rule. Otherwise the cache is unchanged. |
| `CallSiteOps.RuleCache.MoveRule` | ndp/fx/src/Core/Microsoft/Scripting/Actions/CallSiteOps.cs:138 | The cache's rules become its move applied to the old rules. |
| `CallSiteOps.GetCachedRules` | ndp/fx/src/Core/Microsoft/Scripting/Actions/CallSiteOps.cs:149-153 | Returns one target per cached rule, in cache order: the k-th result is the k-th rule's `Target`. |

## Left out

- Expression trees, reflection and delegate creation are not modelled. A rule's expression is a closed `Action` variant, and `Eval` gives its meaning. Adapters, nested sites and collaborator rules evaluate to `External`.
- `PerfTrack` events, `ToString`, `CreateExpression` and `CompatConversionBinder` are diagnostics or serialization and are not modelled. `CompatConversionBinder` appears only as the explicit flag passed to COM.
- The internals of these collaborators are not part of this model, so they are arbitrary functions in `Hooks`:
  - COM interop (`ComBinder.TryConvert`);
  - `PythonProtocol.ConvertToBool`, `ConvertToIEnumerable` and `ConvertToIEnumerator`;
  - `IPythonConvertible.BindConvert`;
  - `Context.Binder.ConvertTo`.
- `IPythonConvertible.BindConvert` returning null is not modelled. Without `retObject` the source then returns null from `Bind`. With `retObject` it dereferences the null result and throws.
- `NeedsDeferral`, and whether a meta-object is `IPythonConvertible`, are inputs carried by the meta-object. Their definitions are not part of this model.
- `DynamicMetaObject.Restrict` is not part of this model. It is read as: add the exact runtime-type restriction, and convert the expression to that type.
- `CallSiteOps.CallSite.CreateMatchMaker`: its code is not part of this model. That the new site shares the original site's rule cache and rule-set operations is assumed, not derived.
- A cast inserted by `EnsureReturnType` or by `retObject` is taken to succeed: `Eval` reads a conversion as its inner action. So the "same meaning" clauses of `EnsureReturnTypeSpec` and `BindOrder` do not cover a cast that fails at run time.
- The base class's `Equals` and `GetHashCode` are not part of this model. They are an arbitrary relation and hash over whole binders, and the equality lemmas assume only that the relation is an equivalence whose equal elements hash alike.
- The `LimitType` property is read as the runtime type of a known non-null value, else the static type. The value-type case of the runtime type is not modelled.
- Type assignability covers a fixed set of interfaces for strings, tuples, arrays and generic lists. Other classes carry their supertypes explicitly.
- Values are modelled without floating point: every numeric value is an integer tagged with its CLR type code, so `NaN` truthiness is not modelled. Decimal and `DateTime` type codes fall into the default case.
- `CallSiteOps.SmallRuleSet.AddRule`: its code is not part of this model. That it returns a freshly allocated set and leaves the receiver unchanged is assumed, not derived. So is the part of `CallSiteOps.AddRule`'s contract that rests on it: a fresh set for a later rule, with the previous set left alone.
- `SmallRuleSet<T>.MoveRule` and `RuleCache<T>.MoveRule` are not part of this model either. Each object carries the add or move operation it applies, so nothing is claimed about capacity or promotion order.
- `CallSiteOps.GetCachedRules` is lazy (`yield return`) in the source. The model returns the whole sequence at once, so a cache mutated during enumeration is not modelled.
- Concurrent access to call sites and caches is not modelled.
- `CallSiteOps.UpdateRules`: requires a rule set when the index is above 1. The source dereferences `Rules` without a check and would throw a null-reference exception.
- `CacheTarget` in `BindDelegate` (recording the chosen delegate on the binder) is not modelled.
- The `Debug.Assert` on the delegate's return type in `BindDelegate` is not modelled.
- `FastPaths.BoolToIntConversionOfBool` is modelled on its own because its parameter is a `bool`, so `FastPaths.Invoke` excludes it.
- Notes on the code:
  - there are four conversion kinds (implicit and explicit, cast and try);
  - `Equals` compares the language binder, the kind and `retObject`, and leaves everything else, the target type included, to `base.Equals`;
  - the numeric-to-enum rule is guarded by the value's type alone, and the zero test is part of its action;

## Findings

| source | as written | input that shows it | evidently intended | confidence | as-written member | corrected member |
|---|---|---|---|---|---|---|
| Merlin/Main/Languages/IronPython/IronPython/Runtime/Binding/ConversionBinder.cs:145 | The branch accepts any value that `is PythonTuple`, subclasses included, but `MakeToArrayConversion` restricts the rule to exactly `PythonTuple` (line 432). | An instance of a Python subclass of `tuple` converted to `object[]`: the rule built for it does not admit it, so the site never caches a rule it can reuse for that value. | Restrict the rule to the value's own runtime type, so that it admits the value it was built for. | medium, not executed | `ConversionProperties.TupleSubclassArrayRuleRejectsItsValue` | `ConversionProperties.CorrectedArrayRuleAdmitsItsValue` |
| Merlin/Main/Languages/IronPython/IronPython/Runtime/Binding/ConversionBinder.cs:152 | The `IList<T>` branch chooses the byte-list rule when the `LimitType` property is `string`, but restricts the rule to the runtime type `string` (lines 158-161). | A null passed through an expression typed `string` and converted to `IList<byte>`. The property keeps the static type for a known null, so the rule is chosen, and its guard rejects null. | Choose the byte-list rule by `GetLimitType()`, the type the restriction tests, so that a null takes the adapter path instead. | low, not executed | `ConversionProperties.NullStringByteListRuleRejectsItsValue` | `ConversionProperties.CorrectedByteListRuleAdmitsItsValue` |

The binder itself (`ConversionBinder.ObjectTargetConversion`) keeps the rule as written, so that every other lemma describes the shipped behaviour. The same holds for the byte-list rule (`ConversionBinder.ObjectTargetConversion` keeps it as written). `ConversionBinder.MakeToArrayConversionOfValueType` and `ConversionBinder.MakeToIListConversionByRuntimeType` are the corrected rules. `CorrectedArrayRuleAdmitsItsValue` and `CorrectedByteListRuleAdmitsItsValue` prove the intended property of each.
