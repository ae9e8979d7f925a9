/**
 * What the conversion binder's rules mean: which branch fires, what the
 * chosen action computes on the value it was chosen for, that the rule's
 * guards admit that value, and that a cached rule answers any value its
 * guards admit exactly as a fresh resolution would.
 */
module ConversionProperties {
  import opened Wrappers
  import opened HostTypes
  import opened Meta
  import opened ConversionBinder

  /** A meta-object whose flags agree with its value. */
  predicate Consistent(m: MetaObject) {
    && (m.boxesBool ==> m.exprType == ObjectT && (m.value.Some? ==> m.value.value.Bool?))
    && (m.value.Some? ==> WellFormed(m.value.value))
  }

  /** The meta-object a call site builds for an argument it passes as object. */
  function SiteArgument(v: Obj): MetaObject {
    MetaObject(ObjectT, false, Some(v), {}, false, false)
  }

  /** Types whose truthiness the binder leaves to the Python protocol hook. */
  predicate UsesTruthProtocol(t: Ty) {
    t != DynamicNullT && t != BoolT && !Assignable(IStrongBoxT, t) && !IsPrimitive(t) && !t.EnumT?
  }

  // ---------------------------------------------------------------------
  // ReturnType and EnsureReturnType

  /** After EnsureReturnType the rule has the binder's return type, the same guards, and the same meaning. */
  lemma EnsureReturnTypeSpec(b: PythonConversionBinder, r: Rule, v: Obj)
    ensures EnsureReturnType(b, r).ty == ReturnType(b)
    ensures EnsureReturnType(b, r).guards == r.guards
    ensures Eval(EnsureReturnType(b, r).action, v) == Eval(r.action, v)
    ensures r.ty == ReturnType(b) <==> EnsureReturnType(b, r) == r
  {
  }

  lemma EnsureReturnTypeIdempotent(b: PythonConversionBinder, r: Rule)
    ensures EnsureReturnType(b, EnsureReturnType(b, r)) == EnsureReturnType(b, r)
  {
  }

  // ---------------------------------------------------------------------
  // Truthiness

  /**
   * None is false, a bool is itself, a number, enum or char is "not zero",
   * and every rule the binder builds itself admits the value it was built
   * for; any other type goes to the protocol hook, or is true without one.
   */
  lemma TruthinessOfKnownValue(b: PythonConversionBinder, self: MetaObject, h: Hooks, v: Obj)
    requires self.value == Some(v) && Consistent(self) && GuardsHold(self.guards, v)
    ensures var r := MakeToBoolConversion(b, self, h);
      && (v.Null? ==> Eval(r.action, v) == Returns(Bool(false)))
      && (v.Bool? ==> Eval(r.action, v) == Returns(v))
      && (v.Num? ==> Eval(r.action, v) == Returns(Bool(v.n != 0)))
      && (v.EnumV? ==> Eval(r.action, v) == Returns(Bool(v.n != 0)))
      && (v.Chr? ==> Eval(r.action, v) == Returns(Bool(v.c != 0)))
      && (!UsesTruthProtocol(TypeOf(v)) ==> GuardsHold(r.guards, v))
      && (UsesTruthProtocol(TypeOf(v)) ==>
            var p := h.convertToBool(b, Restrict(self, TypeOf(v)));
            && (p.Some? ==> r == p.value)
            && (p.None? ==> r.ty == BoolT && GuardsHold(r.guards, v)
                            && forall w :: Eval(r.action, w) == Returns(Bool(true))))
  {
  }

  /** A reference cell never converts to a bool: every argument makes its rule raise. */
  lemma StrongBoxNeverBool(b: PythonConversionBinder, self: MetaObject, h: Hooks, w: Obj)
    requires Consistent(self)
    requires GetLimitType(self) != DynamicNullT && GetLimitType(self) != BoolT
    requires Assignable(IStrongBoxT, GetLimitType(self))
    ensures MakeToBoolConversion(b, self, h).action == Throw(StrongBoxToBool)
    ensures Eval(MakeToBoolConversion(b, self, h).action, w) == Raises(StrongBoxToBool)
    ensures MakeToBoolConversion(b, self, h).ty == ReturnType(b)
  {
  }

  // ---------------------------------------------------------------------
  // Char from a string

  /**
   * A string or str subclass of length 1 yields its character 0, any other
   * length a BadCharLength failure, under guards that admit the value; a
   * value that is not string-like gets no rule.
   */
  lemma CharConversionOfKnownValue(b: PythonConversionBinder, self: MetaObject, v: Obj)
    requires self.value == Some(v) && GuardsHold(self.guards, v)
    ensures StringOf(v).None? <==> TryToCharConversion(b, self).None?
    ensures StringOf(v).Some? ==>
      var r := TryToCharConversion(b, self).value;
      && GuardsHold(r.guards, v)
      && TypeIs(TypeOf(v)) in r.guards
      && (|StringOf(v).value| == 1 ==> StrLengthIs1 in r.guards && Eval(r.action, v) == Returns(Chr(StringOf(v).value[0])))
      && (|StringOf(v).value| != 1 ==> StrLengthNot1 in r.guards && Eval(r.action, v) == Raises(BadCharLength))
  {
  }

  /** The success and failure char rules never admit the same argument. */
  lemma CharRulesExclusive(b: PythonConversionBinder, self: MetaObject, other: MetaObject, w: Obj)
    requires TryToCharConversion(b, self).Some? && TryToCharConversion(b, other).Some?
    requires TryToCharConversion(b, self).value.action.CharAt0?
    requires TryToCharConversion(b, other).value.action.Throw?
    ensures !(GuardsHold(TryToCharConversion(b, self).value.guards, w) && GuardsHold(TryToCharConversion(b, other).value.guards, w))
  {
  }

  /** The cached failure rule covers every string of the same type and another length. */
  lemma CharFailureCoversOtherLengths(b: PythonConversionBinder, v: Obj, w: Obj)
    requires StringOf(v).Some? && |StringOf(v).value| != 1
    requires StringOf(w).Some? && |StringOf(w).value| != 1 && TypeOf(w) == TypeOf(v)
    ensures var r := TryToCharConversion(b, SiteArgument(v)).value;
      GuardsHold(r.guards, w) && Eval(r.action, w) == Raises(BadCharLength)
  {
  }

  /**
   * Length is counted in UTF-16 code units: a character outside the Basic
   * Multilingual Plane, a surrogate pair, gets the length error, and a lone
   * surrogate is a one-character string that converts to itself.
   */
  lemma CharLengthCountsCodeUnits(b: PythonConversionBinder, hi: CodeUnit, lo: CodeUnit)
    requires 0xD800 <= hi < 0xDC00 && 0xDC00 <= lo < 0xE000
    ensures var pair := Str([hi, lo]);
      Eval(TryToCharConversion(b, SiteArgument(pair)).value.action, pair) == Raises(BadCharLength)
    ensures var lone := Str([hi]);
      Eval(TryToCharConversion(b, SiteArgument(lone)).value.action, lone) == Returns(Chr(hi))
  {
  }

  // ---------------------------------------------------------------------
  // Numeric to enum

  /**
   * When the value's type is the enum's underlying type the enum rule
   * wins: it is guarded by the value's type, yields the enum's zero member
   * for a zero and a BadEnumConversion failure for anything else.
   */
  lemma EnumConversion(b: PythonConversionBinder, self: MetaObject, h: Hooks, n: int)
    requires b.ty.EnumT? && GetLimitType(self) == NumT(b.ty.underlying)
    requires h.comTryConvert(b.ty, IsExplicit(b.kind), self).None?
    ensures var r := FallbackConvert(b, self, h);
      && r.guards == self.guards + {TypeIs(NumT(b.ty.underlying))}
      && r.ty == b.ty
      && Eval(r.action, Num(b.ty.underlying, n)) == (if n == 0 then Returns(EnumV(b.ty, 0)) else Raises(BadEnumConversion))
  {
  }

  /** Any other value type (a floating zero for an int enum, say) does not take the enum path. */
  lemma EnumNeedsUnderlyingType(b: PythonConversionBinder, self: MetaObject, h: Hooks)
    requires b.ty.EnumT? && GetLimitType(self) != NumT(b.ty.underlying)
    requires h.comTryConvert(b.ty, IsExplicit(b.kind), self).None?
    ensures FallbackConvert(b, self, h) == EnsureReturnType(b, h.platformConvertTo(b.ty, b.kind, self))
  {
  }

  // ---------------------------------------------------------------------
  // Fallback

  /**
   * A COM conversion wins; otherwise the enum rule, then the category
   * rule; only when neither exists is the platform's rule used, cast to
   * the binder's return type with its guards kept.
   */
  lemma FallbackOrder(b: PythonConversionBinder, self: MetaObject, h: Hooks)
    ensures var r := FallbackConvert(b, self, h);
      var com := h.comTryConvert(b.ty, IsExplicit(b.kind), self);
      var enumPath := b.ty.EnumT? && GetLimitType(self) == NumT(b.ty.underlying);
      var cat := CategoryConversion(b, self, h);
      var p := h.platformConvertTo(b.ty, b.kind, self);
      && (com.Some? ==> r == com.value)
      && (com.None? && !enumPath && cat.Some? ==> r == cat.value)
      && (com.None? && !enumPath && cat.None? ==>
            r.ty == ReturnType(b) && r.guards == p.guards && (p.ty == ReturnType(b) <==> r == p))
  {
  }

  // ---------------------------------------------------------------------
  // IEnumerable, IEnumerator and generic interfaces

  /**
   * IEnumerable: a string gets the string-yielding adapter guarded by its
   * type alone; otherwise only a non-enumerable, non-old-instance value
   * gets the protocol's adapter.
   */
  lemma EnumerableTarget(b: PythonConversionBinder, self: MetaObject, h: Hooks)
    requires b.ty == IEnumerableT
    ensures var L := GetLimitType(self);
      var cat := CategoryConversion(b, self, h);
      && (L == StringT ==> cat == Some(Rule(StringToEnumerable, IEnumerableT, {TypeIs(StringT)})))
      && (L != StringT ==>
            cat == (if !Assignable(IEnumerableT, L) && L != OldInstanceT
                    then h.convertToIEnumerable(b, Restrict(self, L)) else None))
  {
  }

  /**
   * IEnumerator: a rule exists exactly when the value is neither an
   * enumerator nor an enumerable, is not an old-style instance, and the
   * protocol produces one.
   */
  lemma EnumeratorTarget(b: PythonConversionBinder, self: MetaObject, h: Hooks)
    requires b.ty == IEnumeratorT
    ensures var L := GetLimitType(self);
      CategoryConversion(b, self, h).Some? <==>
        !Assignable(IEnumeratorT, L) && !Assignable(IEnumerableT, L) && IsIndexless(self)
        && h.convertToIEnumerator(b, Restrict(self, L)).Some?
  {
  }

  /**
   * A generic-interface target already implemented by the value gets no
   * rule. Otherwise a string to IList<T> gets the byte list, and any other
   * value gets an adapter exactly when its type is assignable to the
   * adapter's source interface (IList<object>, IDictionary<object, object>
   * or IEnumerable); the adapter implements the target interface and is
   * guarded by the value's own type.
   */
  lemma GenericInterfaceTarget(b: PythonConversionBinder, self: MetaObject, h: Hooks)
    requires b.ty.GenericT?
    ensures Assignable(b.ty, ValueType(self)) ==> CategoryConversion(b, self, h).None?
    ensures var cat := CategoryConversion(b, self, h);
      cat.Some? && cat.value.action.Adapt? ==>
        && Assignable(b.ty, cat.value.ty)
        && cat.value.guards == self.guards + {TypeIs(ValueType(self))}
        && Assignable(cat.value.action.from, ValueType(self))
    ensures var cat := CategoryConversion(b, self, h);
      var adapts := !Assignable(b.ty, ValueType(self));
      && (b.ty.def == IListDef && adapts && LimitTypeProperty(self) == StringT ==>
            cat == Some(Rule(StringToByteList, GenericT(IListDef, [NumT(Byte)]), {TypeIs(StringT)})))
      && (b.ty.def == IListDef && adapts && LimitTypeProperty(self) != StringT ==>
            (cat.Some? <==> Assignable(GenericT(IListDef, [ObjectT]), ValueType(self))))
      && (b.ty.def == IDictionaryDef && adapts ==>
            (cat.Some? <==> Assignable(GenericT(IDictionaryDef, [ObjectT, ObjectT]), ValueType(self))))
      && (b.ty.def == IEnumerableOfTDef && adapts ==>
            (cat.Some? <==> Assignable(IEnumerableT, ValueType(self))))
  {
  }

  /**
   * A one-dimensional array target takes the tuple-to-array rule exactly
   * when the value is a tuple or an instance of a subclass of tuple; the
   * rule is restricted to exactly PythonTuple, so it admits a tuple itself.
   * Any other value, or any other rank, gets no category rule.
   */
  lemma ArrayTarget(b: PythonConversionBinder, self: MetaObject, h: Hooks, v: Obj)
    requires b.ty.ArrayT?
    ensures var cat := CategoryConversion(b, self, h);
      && (b.ty.rank == 1 && Assignable(PythonTupleT, ValueType(self)) ==>
            cat == Some(Rule(TupleToArray(b.ty.elem), b.ty, self.guards + {TypeIs(PythonTupleT)})))
      && (b.ty.rank != 1 || !Assignable(PythonTupleT, ValueType(self)) ==> cat.None?)
    ensures var cat := CategoryConversion(b, self, h);
      b.ty.rank == 1 && self.value == Some(v) && TypeOf(v) == PythonTupleT && GuardsHold(self.guards, v) ==>
        cat.Some? && GuardsHold(cat.value.guards, v)
  {
  }

  /**
   * The tuple-to-array rule as written rejects the value it was built for
   * when that value is an instance of a subclass of tuple: the branch tests
   * "is a tuple" but the rule is restricted to exactly PythonTuple.
   */
  lemma TupleSubclassArrayRuleRejectsItsValue(b: PythonConversionBinder, h: Hooks, name: string, supers: set<Ty>)
    requires b.ty.ArrayT? && b.ty.rank == 1 && PythonTupleT in supers
    requires h.comTryConvert(b.ty, IsExplicit(b.kind), SiteArgument(Instance(ClassT(name, false, supers)))).None?
    ensures var v := Instance(ClassT(name, false, supers));
      var r := FallbackConvert(b, SiteArgument(v), h);
      r.action == TupleToArray(b.ty.elem) && !GuardsHold(r.guards, v)
  {
    var v := Instance(ClassT(name, false, supers));
    var r := FallbackConvert(b, SiteArgument(v), h);
    assert TypeIs(PythonTupleT) in r.guards && !Holds(TypeIs(PythonTupleT), v);
  }

  /**
   * Restricted to the value's own runtime type, the tuple-to-array rule
   * admits the value it was built for, tuple or subclass, and admits only
   * values of that same type, which are tuples too.
   */
  lemma CorrectedArrayRuleAdmitsItsValue(self: MetaObject, toType: Ty, v: Obj, w: Obj)
    requires toType.ArrayT? && self.value == Some(v) && GuardsHold(self.guards, v)
    requires Assignable(PythonTupleT, TypeOf(v))
    ensures var r := MakeToArrayConversionOfValueType(self, toType);
      && GuardsHold(r.guards, v)
      && (GuardsHold(r.guards, w) ==> TypeOf(w) == TypeOf(v) && Assignable(PythonTupleT, TypeOf(w)))
  {
    var r := MakeToArrayConversionOfValueType(self, toType);
    if GuardsHold(r.guards, w) {
      assert Holds(TypeIs(TypeOf(v)), w);
    }
  }

  /** A known null whose expression is typed string, as a call site passes it. */
  function NullString(): MetaObject {
    MetaObject(StringT, false, Some(Null), {}, false, false)
  }

  /**
   * The byte-list rule as written rejects the value it was built for when
   * that value is a null string: the rule is chosen by the LimitType
   * property, which keeps the static type string for a known null, but is
   * restricted to the runtime type string, which null does not have.
   */
  lemma NullStringByteListRuleRejectsItsValue(b: PythonConversionBinder, h: Hooks, elem: Ty)
    requires b.ty == GenericT(IListDef, [elem])
    requires h.comTryConvert(b.ty, IsExplicit(b.kind), NullString()).None?
    ensures var r := FallbackConvert(b, NullString(), h);
      r.action == StringToByteList && !GuardsHold(r.guards, Null)
  {
    var r := FallbackConvert(b, NullString(), h);
    assert TypeIs(StringT) in r.guards && !Holds(TypeIs(StringT), Null);
  }

  /**
   * Chosen by GetLimitType(), the IList<T> conversion builds only rules that
   * admit the value they were built for; a string gets the byte list, and a
   * null gets no rule from this case.
   */
  lemma CorrectedByteListRuleAdmitsItsValue(self: MetaObject, t: Ty, v: Obj)
    requires t.GenericT? && t.def == IListDef
    requires self.value == Some(v) && GuardsHold(self.guards, v)
    ensures var r := MakeToIListConversionByRuntimeType(self, t);
      && (r.Some? ==> GuardsHold(r.value.guards, v))
      && (TypeOf(v) == StringT ==> r.Some? && r.value.action == StringToByteList)
      && (v.Null? ==> r.None?)
  {
    var r := MakeToIListConversionByRuntimeType(self, t);
    if r.Some? && TypeOf(v) != StringT {
      assert r.value.guards == self.guards + {TypeIs(ValueType(self))};
    }
  }

  // ---------------------------------------------------------------------
  // Guard soundness and cache transparency

  /** The rules the binder takes verbatim from a collaborator for this call. */
  function CollaboratorRules(b: PythonConversionBinder, self: MetaObject, h: Hooks): set<Rule> {
    var L := GetLimitType(self);
    var s := if self.value.Some? then Restrict(self, TypeOf(self.value.value)) else self;
    var fromHooks := [h.comTryConvert(b.ty, IsExplicit(b.kind), self),
                      h.convertToBool(b, s),
                      h.convertToIEnumerable(b, Restrict(self, L)),
                      h.convertToIEnumerator(b, Restrict(self, L))];
    set i | 0 <= i < |fromHooks| && fromHooks[i].Some? :: fromHooks[i].value
  }

  /**
   * Every rule the binder builds itself admits the value it was built
   * for (the property the matchmaker checks). The exceptions are rules
   * taken from a collaborator, the platform rule cast to the return type,
   * and two rules as written: the tuple-to-array rule for an instance of a
   * subclass of tuple, and the byte-list rule for a null string.
   */
  lemma BuiltRulesAdmitTheirValue(b: PythonConversionBinder, self: MetaObject, h: Hooks, v: Obj)
    requires self.value == Some(v) && Consistent(self) && GuardsHold(self.guards, v)
    ensures var r := FallbackConvert(b, self, h);
      || GuardsHold(r.guards, v)
      || r in CollaboratorRules(b, self, h)
      || r == EnsureReturnType(b, h.platformConvertTo(b.ty, b.kind, self))
      || (r.action.TupleToArray? && TypeOf(v) != PythonTupleT && Assignable(PythonTupleT, TypeOf(v)))
      || (r.action == StringToByteList && v.Null?)
  {
    var r := FallbackConvert(b, self, h);
    var com := h.comTryConvert(b.ty, IsExplicit(b.kind), self);
    var hooks := [com, h.convertToBool(b, Restrict(self, TypeOf(v))),
                  h.convertToIEnumerable(b, Restrict(self, TypeOf(v))),
                  h.convertToIEnumerator(b, Restrict(self, TypeOf(v)))];
    if com.Some? {
      assert hooks[0].Some?;
    } else if b.ty.EnumT? && GetLimitType(self) == NumT(b.ty.underlying) {
    } else {
      var cat := CategoryConversion(b, self, h);
      if cat.Some? {
        match GetTypeCode(b.ty)
        case BooleanCode =>
          TruthinessOfKnownValue(b, self, h, v);
          if UsesTruthProtocol(TypeOf(v)) && h.convertToBool(b, Restrict(self, TypeOf(v))).Some? {
            assert hooks[1].Some?;
          }
        case CharCode =>
          CharConversionOfKnownValue(b, self, v);
        case ObjectCode =>
          if b.ty == IEnumerableT && TypeOf(v) != StringT {
            assert hooks[2].Some?;
          } else if b.ty == IEnumeratorT {
            assert hooks[3].Some?;
          } else if b.ty.ArrayT? {
            if TypeOf(v) == PythonTupleT {
              assert GuardsHold(Restrict(self, PythonTupleT).guards, v);
            }
          } else {
            assert GuardsHold(Restrict(self, TypeOf(v)).guards, v);
          }
        case _ =>
      }
    }
  }

  /**
   * Cache transparency for the rules the binder builds itself: a bool,
   * char or enum rule resolved for one argument gives, for every argument
   * its guards admit, the answer a fresh resolution for that argument
   * would give.
   */
  lemma CachedRuleAgreesWithResolution(b: PythonConversionBinder, h: Hooks, v: Obj, w: Obj)
    requires WellFormed(v) && WellFormed(w)
    requires b.ty == BoolT || b.ty == CharT || b.ty.EnumT?
    requires h.comTryConvert(b.ty, IsExplicit(b.kind), SiteArgument(v)).None?
    requires h.comTryConvert(b.ty, IsExplicit(b.kind), SiteArgument(w)).None?
    requires b.ty == BoolT ==> !UsesTruthProtocol(TypeOf(v))
    requires b.ty == CharT ==> StringOf(v).Some?
    requires b.ty.EnumT? ==> TypeOf(v) == NumT(b.ty.underlying)
    requires GuardsHold(FallbackConvert(b, SiteArgument(v), h).guards, w)
    ensures Eval(FallbackConvert(b, SiteArgument(v), h).action, w)
         == Eval(FallbackConvert(b, SiteArgument(w), h).action, w)
  {
  }

  // ---------------------------------------------------------------------
  // Bind

  /**
   * A value needing deferral gets a nested dynamic site; a self-converting
   * meta-object converts itself; anything else goes through
   * FallbackConvert. With retObject the result is cast to object under the
   * same guards and with the same meaning.
   */
  lemma BindOrder(b: PythonConversionBinder, self: MetaObject, h: Hooks, w: Obj)
    ensures var r := Bind(b, self, h);
      var inner := if self.convertible then h.bindConvert(b, self) else FallbackConvert(b, self, h);
      && (self.needsDeferral ==>
            r.action == Defer(ReturnType(b)) && r.ty == ReturnType(b) && r.guards == self.guards)
      && (!self.needsDeferral && !b.retObject ==> r == inner)
      && (!self.needsDeferral && b.retObject ==>
            r.ty == ObjectT && r.guards == inner.guards && Eval(r.action, w) == Eval(inner.action, w))
  {
  }

  // ---------------------------------------------------------------------
  // Binder equality

  /** Equal binders hash alike, given that the base class's hash follows its equality. */
  lemma EqualBindersHashAlike(a: PythonConversionBinder, b: PythonConversionBinder, base: BaseIdentity, hc: HashCodes)
    requires LawfulBase(base) && Equals(a, Some(b), base)
    ensures GetHashCode(a, base, hc) == GetHashCode(b, base, hc)
  {
  }

  /** Equals is an equivalence whenever the base class's equality is one. */
  lemma EqualsIsEquivalence(a: PythonConversionBinder, b: PythonConversionBinder, c: PythonConversionBinder, base: BaseIdentity)
    requires LawfulBase(base)
    ensures Equals(a, Some(a), base)
    ensures Equals(a, Some(b), base) ==> Equals(b, Some(a), base)
    ensures Equals(a, Some(b), base) && Equals(b, Some(c), base) ==> Equals(a, Some(c), base)
    ensures !Equals(a, None, base)
  {
  }

  /**
   * Binders on different language binders, of different kinds or with
   * different retObject are never equal; otherwise the base class's
   * equality decides, and the target type enters only through it.
   */
  lemma EqualsComparesConfiguration(a: PythonConversionBinder, b: PythonConversionBinder, base: BaseIdentity)
    ensures a.context != b.context || a.kind != b.kind || a.retObject != b.retObject ==> !Equals(a, Some(b), base)
    ensures a.context == b.context && a.kind == b.kind && a.retObject == b.retObject ==>
      (Equals(a, Some(b), base) <==> base.equals(a, b))
  {
  }
}
