/**
 * PythonConversionBinder: given the meta-object of a value and a target
 * type, choose one guarded rule. Every decision is a pure function of the
 * binder's configuration, the meta-object and the collaborators in Hooks.
 */
module ConversionBinder {
  import opened Wrappers
  import opened HostTypes
  import opened Meta

  datatype ConversionResultKind = ImplicitCast | ExplicitCast | ImplicitTry | ExplicitTry

  /**
   * The binder's readonly fields. The Python context enters only through
   * the identity of its language binder (context).
   */
  datatype PythonConversionBinder = PythonConversionBinder(
    context: nat,
    ty: Ty,
    kind: ConversionResultKind,
    retObject: bool)

  /**
   * The collaborators whose code is not part of this model, each an
   * arbitrary function: COM interop, the Python truthiness and iteration
   * protocols, a self-converting meta-object, and the language binder's
   * generic conversion.
   */
  datatype Hooks = Hooks(
    comTryConvert: (Ty, bool, MetaObject) -> Option<Rule>,
    convertToBool: (PythonConversionBinder, MetaObject) -> Option<Rule>,
    convertToIEnumerable: (PythonConversionBinder, MetaObject) -> Option<Rule>,
    convertToIEnumerator: (PythonConversionBinder, MetaObject) -> Option<Rule>,
    bindConvert: (PythonConversionBinder, MetaObject) -> Rule,
    platformConvertTo: (Ty, ConversionResultKind, MetaObject) -> Rule)

  predicate IsCast(k: ConversionResultKind) {
    k == ExplicitCast || k == ImplicitCast
  }

  predicate IsExplicit(k: ConversionResultKind) {
    k == ExplicitCast || k == ExplicitTry
  }

  /**
   * The type the binder's rules produce. A Try conversion can fail with a
   * null result, so it never yields an unboxed value type.
   */
  function ReturnType(b: PythonConversionBinder): (t: Ty)
    ensures t == ObjectT || t == b.ty
    ensures b.retObject ==> t == ObjectT
    ensures IsValueType(t) ==> IsCast(b.kind) && !b.retObject
    ensures !b.retObject && IsCast(b.kind) ==> t == b.ty
    ensures !b.retObject && !IsValueType(b.ty) ==> t == b.ty
  {
    if b.retObject then ObjectT
    else if IsCast(b.kind) then b.ty
    else if IsValueType(b.ty) then ObjectT
    else b.ty
  }

  /** A rule that re-dispatches through a nested dynamic site on this binder. */
  function MyDefer(b: PythonConversionBinder, self: MetaObject): (r: Rule)
    ensures r.action.Defer? && r.action.returnType == r.ty == ReturnType(b)
    ensures r.guards == self.guards
  {
    Rule(Defer(ReturnType(b)), ReturnType(b), self.guards)
  }

  function Bind(b: PythonConversionBinder, self: MetaObject, h: Hooks): (r: Rule)
    ensures self.needsDeferral ==> r.ty == ReturnType(b) && r.guards == self.guards
    ensures b.retObject ==> r.ty == ObjectT
    ensures !self.needsDeferral && !self.convertible ==> r.guards == FallbackConvert(b, self, h).guards
    ensures !self.needsDeferral && self.convertible ==> r.guards == h.bindConvert(b, self).guards
  {
    if self.needsDeferral then MyDefer(b, self)
    else
      var res := if self.convertible then h.bindConvert(b, self) else FallbackConvert(b, self, h);
      if b.retObject then
        Rule(if res.ty == ObjectT then res.action else Convert(res.action, ObjectT), ObjectT, res.guards)
      else res
  }

  function FallbackConvert(b: PythonConversionBinder, self: MetaObject, h: Hooks): (r: Rule)
    ensures h.comTryConvert(b.ty, IsExplicit(b.kind), self).Some? ==>
      r == h.comTryConvert(b.ty, IsExplicit(b.kind), self).value
    ensures h.comTryConvert(b.ty, IsExplicit(b.kind), self).None? && b.ty.EnumT? && GetLimitType(self) == NumT(b.ty.underlying) ==>
      r.ty == b.ty && self.guards <= r.guards
    ensures h.comTryConvert(b.ty, IsExplicit(b.kind), self).None? && CategoryConversion(b, self, h).None? ==>
      r.ty == ReturnType(b) || r.ty == b.ty
  {
    var com := h.comTryConvert(b.ty, IsExplicit(b.kind), self);
    if com.Some? then com.value
    else
      var res := CategoryConversion(b, self, h);
      if b.ty.EnumT? && GetLimitType(self) == NumT(b.ty.underlying) then NumericToEnumConversion(b, self)
      else if res.Some? then res.value
      else EnsureReturnType(b, h.platformConvertTo(b.ty, b.kind, self))
  }

  /** The switch on the target's type code; None when no category applies. */
  function CategoryConversion(b: PythonConversionBinder, self: MetaObject, h: Hooks): (r: Option<Rule>)
    ensures GetTypeCode(b.ty) == BooleanCode ==> r.Some?
    ensures GetTypeCode(b.ty) == CharCode ==> (r.Some? <==> self.value.Some? && StringOf(self.value.value).Some?)
    ensures !(GetTypeCode(b.ty) in {BooleanCode, CharCode, ObjectCode}) ==> r.None?
  {
    match GetTypeCode(b.ty)
    case BooleanCode => Some(MakeToBoolConversion(b, self, h))
    case CharCode => TryToCharConversion(b, self)
    case ObjectCode => ObjectTargetConversion(b, self, h)
    case _ => None
  }

  /** The TypeCode.Object case: arrays, generic interfaces, IEnumerable, IEnumerator. */
  function ObjectTargetConversion(b: PythonConversionBinder, self: MetaObject, h: Hooks): (r: Option<Rule>)
    ensures !(b.ty.ArrayT? || IsGeneric(b.ty) || b.ty == IEnumerableT || b.ty == IEnumeratorT) ==> r.None?
    ensures b.ty.ArrayT? && (b.ty.rank != 1 || !Assignable(PythonTupleT, ValueType(self))) ==> r.None?
    ensures IsGeneric(b.ty) && Assignable(b.ty, ValueType(self)) ==> r.None?
  {
    var t := b.ty;
    if t.ArrayT? && Assignable(PythonTupleT, ValueType(self)) && t.rank == 1 then
      Some(MakeToArrayConversion(self, t))
    else if IsGeneric(t) && !Assignable(t, ValueType(self)) then
      if t.GenericT? then
        match t.def
        case IListDef =>
          if LimitTypeProperty(self) == StringT then
            Some(Rule(StringToByteList, GenericT(IListDef, [NumT(Byte)]), {TypeIs(StringT)}))
          else TryToGenericInterfaceConversion(self, t, GenericT(IListDef, [ObjectT]), ListGenericWrapper)
        case IDictionaryDef =>
          TryToGenericInterfaceConversion(self, t, GenericT(IDictionaryDef, [ObjectT, ObjectT]), DictionaryGenericWrapper)
        case IEnumerableOfTDef =>
          TryToGenericInterfaceConversion(self, t, IEnumerableT, IEnumerableOfTWrapper)
      else None
    else if t == IEnumerableT then
      if GetLimitType(self) == StringT then
        Some(Rule(StringToEnumerable, IEnumerableT, {TypeIs(StringT)}))
      else if !Assignable(IEnumerableT, GetLimitType(self)) && IsIndexless(self) then
        h.convertToIEnumerable(b, Restrict(self, GetLimitType(self)))
      else None
    else if t == IEnumeratorT then
      if !Assignable(IEnumeratorT, GetLimitType(self)) && !Assignable(IEnumerableT, GetLimitType(self)) && IsIndexless(self) then
        h.convertToIEnumerator(b, Restrict(self, GetLimitType(self)))
      else None
    else None
  }

  /** Numeric value to an enum whose underlying type is the value's type. */
  function NumericToEnumConversion(b: PythonConversionBinder, self: MetaObject): (r: Rule)
    requires b.ty.EnumT?
    ensures r.ty == b.ty && r.guards == self.guards + {TypeIs(GetLimitType(self))}
    ensures Eval(r.action, Num(b.ty.underlying, 0)) == Returns(EnumV(b.ty, 0))
    ensures forall n :: n != 0 ==> Eval(r.action, Num(b.ty.underlying, n)) == Raises(BadEnumConversion)
  {
    Rule(EnumZeroOrError(b.ty), b.ty, self.guards + {TypeIs(GetLimitType(self))})
  }

  /** Inserts a cast to ReturnType when the rule's type differs from it. */
  function EnsureReturnType(b: PythonConversionBinder, r: Rule): (e: Rule)
    ensures e.ty == ReturnType(b) && e.guards == r.guards
    ensures r.ty == ReturnType(b) ==> e == r
  {
    if r.ty != ReturnType(b) then Rule(Convert(r.action, ReturnType(b)), ReturnType(b), r.guards)
    else r
  }

  /** The object is an old-style instance, which this binder never adapts. */
  predicate IsIndexless(self: MetaObject) {
    GetLimitType(self) != OldInstanceT
  }

  function TryToGenericInterfaceConversion(self: MetaObject, toType: Ty, fromType: Ty, wrapper: Wrapper): (r: Option<Rule>)
    requires toType.GenericT?
    ensures r.Some? <==> Assignable(fromType, ValueType(self))
    ensures r.Some? ==>
      && r.value.ty == AdapterT(wrapper, toType.args)
      && r.value.guards == self.guards + {TypeIs(ValueType(self))}
      && r.value.action == Adapt(wrapper, toType.args, fromType)
  {
    if Assignable(fromType, ValueType(self)) then
      var s := Restrict(self, ValueType(self));
      Some(Rule(Adapt(wrapper, toType.args, fromType), AdapterT(wrapper, toType.args), s.guards))
    else None
  }

  /**
   * The tuple-to-array rule as written: restricted to exactly PythonTuple,
   * although the branch that calls it also accepts a subclass of tuple.
   */
  function MakeToArrayConversion(self: MetaObject, toType: Ty): (r: Rule)
    requires toType.ArrayT?
    ensures r.ty == toType && r.action == TupleToArray(toType.elem)
    ensures r.guards == self.guards + {TypeIs(PythonTupleT)}
  {
    var s := Restrict(self, PythonTupleT);
    Rule(TupleToArray(toType.elem), toType, s.guards)
  }

  /**
   * The tuple-to-array rule restricted to the value's own runtime type, so
   * that a subclass of tuple gets a rule that admits it.
   */
  function MakeToArrayConversionOfValueType(self: MetaObject, toType: Ty): (r: Rule)
    requires toType.ArrayT?
    ensures r.ty == toType && r.action == TupleToArray(toType.elem)
    ensures r.guards == self.guards + {TypeIs(ValueType(self))}
  {
    var s := Restrict(self, ValueType(self));
    Rule(TupleToArray(toType.elem), toType, s.guards)
  }

  function TryToCharConversion(b: PythonConversionBinder, self: MetaObject): (r: Option<Rule>)
    ensures r.Some? <==> self.value.Some? && StringOf(self.value.value).Some?
    ensures r.Some? ==>
      && self.guards + {TypeIs(TypeOf(self.value.value))} <= r.value.guards
      && (r.value.ty == CharT || r.value.action == Throw(BadCharLength))
  {
    var str := if self.value.Some? then StringOf(self.value.value) else None;
    if str.None? then None
    else
      var s := Restrict(self, TypeOf(self.value.value));
      if |str.value| == 1 then
        Some(Rule(CharAt0(self.value.value.ExtStr?), CharT, s.guards + {StrLengthIs1}))
      else
        Some(Rule(Throw(BadCharLength), ReturnType(b), s.guards + {StrLengthNot1}))
  }

  /**
   * The IList<T> case with the byte-list rule chosen by GetLimitType(), the
   * type its restriction tests, instead of by the LimitType property.
   */
  function MakeToIListConversionByRuntimeType(self: MetaObject, t: Ty): (r: Option<Rule>)
    requires t.GenericT? && t.def == IListDef
    ensures r.Some? && r.value.action == StringToByteList <==> GetLimitType(self) == StringT
  {
    if GetLimitType(self) == StringT then
      Some(Rule(StringToByteList, GenericT(IListDef, [NumT(Byte)]), {TypeIs(StringT)}))
    else TryToGenericInterfaceConversion(self, t, GenericT(IListDef, [ObjectT]), ListGenericWrapper)
  }

  /** The meta-object MakeToBoolConversion works on: restricted to the runtime type when the value is known. */
  function TruthSubject(self: MetaObject): (s: MetaObject)
    ensures self.value.Some? ==>
      s.guards == self.guards + {TypeIs(TypeOf(self.value.value))} && s.exprType == TypeOf(self.value.value)
    ensures self.value.None? ==> s == self
    ensures self.guards <= s.guards && s.value == self.value
  {
    if self.value.Some? then Restrict(self, TypeOf(self.value.value)) else self
  }

  /**
   * A bool-typed rule, the reference-cell error typed as the return type,
   * or the rule of the Python truthiness protocol.
   */
  function MakeToBoolConversion(b: PythonConversionBinder, self: MetaObject, h: Hooks): (r: Rule)
    ensures || (r.ty == BoolT && self.guards <= r.guards)
            || (r.action == Throw(StrongBoxToBool) && r.ty == ReturnType(b) && self.guards <= r.guards)
            || Some(r) == h.convertToBool(b, TruthSubject(self))
  {
    var s := TruthSubject(self);
    if s.boxesBool && s.exprType == ObjectT then
      Rule(Unboxed, BoolT, s.guards)
    else if GetLimitType(s) == DynamicNullT then
      MakeNoneToBoolConversion(s)
    else if GetLimitType(s) == BoolT then
      Rule(Identity, s.exprType, s.guards)
    else if Assignable(IStrongBoxT, GetLimitType(s)) then
      MakeStrongBoxToBoolConversionError(b, s)
    else if IsPrimitive(GetLimitType(s)) || GetLimitType(s).EnumT? then
      MakePrimitiveToBoolComparison(s)
    else
      match h.convertToBool(b, s)
      case Some(r) => r
      case None => Rule(ConstBool(true), BoolT, s.guards)
  }

  /** Null is never true: false for every argument, under the value's restrictions. */
  function MakeNoneToBoolConversion(self: MetaObject): (r: Rule)
    ensures r.ty == BoolT && r.guards == self.guards
    ensures forall w :: Eval(r.action, w) == Returns(Bool(false))
  {
    Rule(ConstBool(false), BoolT, self.guards)
  }

  /**
   * A primitive is true when it differs from its type's zero, under the
   * value's restrictions.
   */
  function MakePrimitiveToBoolComparison(self: MetaObject): (r: Rule)
    ensures r.ty == BoolT && r.guards == self.guards
    ensures forall w: Obj | w.Num? || w.EnumV? :: Eval(r.action, w) == Returns(Bool(w.n != 0))
    ensures forall c: CodeUnit :: Eval(r.action, Chr(c)) == Returns(Bool(c != 0))
    ensures forall x: bool :: Eval(r.action, Bool(x)) == Returns(Bool(x))
  {
    Rule(NotEqualZero(GetLimitType(self)), BoolT, self.guards)
  }

  /**
   * A reference cell never converts to bool: the rule raises for every
   * argument, typed as the return type, under the value's restrictions.
   */
  function MakeStrongBoxToBoolConversionError(b: PythonConversionBinder, self: MetaObject): (r: Rule)
    ensures r.ty == ReturnType(b) && r.guards == self.guards
    ensures forall w :: Eval(r.action, w) == Raises(StrongBoxToBool)
  {
    Rule(Throw(StrongBoxToBool), ReturnType(b), self.guards)
  }

  /**
   * The base class's Equals and GetHashCode, whose code is not part of this
   * model: an arbitrary relation and hash over whole binders.
   */
  datatype BaseIdentity = BaseIdentity(
    equals: (PythonConversionBinder, PythonConversionBinder) -> bool,
    hash: PythonConversionBinder -> bv32)

  /** What any Equals/GetHashCode pair promises: an equivalence, and equal objects hash alike. */
  ghost predicate LawfulBase(base: BaseIdentity) {
    && (forall x :: base.equals(x, x))
    && (forall x, y :: base.equals(x, y) ==> base.equals(y, x))
    && (forall x, y, z :: base.equals(x, y) && base.equals(y, z) ==> base.equals(x, z))
    && (forall x, y :: base.equals(x, y) ==> base.hash(x) == base.hash(y))
  }

  /** Equals(object): None stands for an object that is not a conversion binder. */
  predicate Equals(b: PythonConversionBinder, obj: Option<PythonConversionBinder>, base: BaseIdentity) {
    match obj
    case None => false
    case Some(ob) =>
      ob.context == b.context && b.kind == ob.kind && base.equals(b, ob) && b.retObject == ob.retObject
  }

  /** The hash codes of the language binder and of the conversion kind. */
  datatype HashCodes = HashCodes(
    binderHash: nat -> bv32,
    kindHash: ConversionResultKind -> bv32)

  function GetHashCode(b: PythonConversionBinder, base: BaseIdentity, hc: HashCodes): bv32 {
    base.hash(b) ^ hc.binderHash(b.context) ^ hc.kindHash(b.kind)
  }
}
