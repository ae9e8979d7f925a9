/**
 * The binding vocabulary the conversion binder works in: guards
 * (binding restrictions), actions (what the compiled expression does),
 * rules (an action with its result type and guards) and the meta-object
 * describing the value being converted. Expression trees are replaced by a
 * closed set of action variants; Eval gives each variant its meaning.
 */
module Meta {
  import opened Wrappers
  import opened HostTypes

  /** A binding restriction: a test the call site runs before reusing a rule. */
  datatype Guard =
    | TypeIs(t: Ty)          // runtime-type restriction
    | StrLengthIs1           // the string's Length == 1, in UTF-16 code units
    | StrLengthNot1          // the string's Length != 1, in UTF-16 code units

  predicate Holds(g: Guard, v: Obj) {
    match g
    case TypeIs(t) => TypeOf(v) == t
    case StrLengthIs1 => StringOf(v).Some? && |StringOf(v).value| == 1
    case StrLengthNot1 => StringOf(v).Some? && |StringOf(v).value| != 1
  }

  /** Restrictions merge by conjunction: all of them must hold. */
  predicate GuardsHold(gs: set<Guard>, v: Obj) {
    forall g | g in gs :: Holds(g, v)
  }

  /** The typed failures a rule's action may raise. */
  datatype Failure =
    | BadCharLength          // "expected string of length 1 when converting to char"
    | BadEnumConversion      // TypeErrorForBadEnumConversion
    | StrongBoxToBool        // "Can't convert a Reference<> instance to a bool"
    | InvalidCast            // the action met a value its guards exclude
    | IndexOutOfRange

  /** What a rule does once its guards hold. */
  datatype Action =
    | ConstBool(b: bool)
    | Identity                                   // the argument itself
    | Unboxed                                    // the bool operand of a box-to-object
    | NotEqualZero(zeroOf: Ty)                   // zero-of-type != argument
    | CharAt0(fromExtensible: bool)              // character 0 of the string (or of its .Value)
    | Throw(failure: Failure)
    | EnumZeroOrError(enumTy: Ty)                // argument == 0 ? default(enum) : bad-enum error
    | TupleToArray(elem: Ty)                     // PythonOps.ConvertTupleToArray<elem>
    | StringToByteList                           // PythonOps.MakeByteArray
    | StringToEnumerable                         // StringOps.ConvertToIEnumerable
    | Adapt(wrapper: Wrapper, args: seq<Ty>, from: Ty)   // new wrapper<args>((from) argument)
    | Convert(inner: Action, to: Ty)             // a cast of the inner result
    | Defer(returnType: Ty)                      // a nested dynamic site on the same binder

  /** A binding result (DynamicMetaObject): action, expression type, restrictions. */
  datatype Rule = Rule(action: Action, ty: Ty, guards: set<Guard>)

  /**
   * The meta-object of the value being converted: the static type of its
   * expression, whether that expression boxes a bool to object, the value
   * when known (HasValue), the restrictions gathered so far, and two
   * properties decided outside this model (needs deferral, implements
   * IPythonConvertible).
   */
  datatype MetaObject = MetaObject(
    exprType: Ty,
    boxesBool: bool,
    value: Option<Obj>,
    guards: set<Guard>,
    needsDeferral: bool,
    convertible: bool)

  /**
   * GetLimitType(): the runtime type when the value is known (DynamicNull
   * for a known null), else the static type.
   */
  function GetLimitType(m: MetaObject): Ty {
    if m.value.Some? then TypeOf(m.value.value) else m.exprType
  }

  /**
   * The LimitType property: the runtime type of a known value that is not
   * null, else the static type. It differs from GetLimitType() only on a
   * known null, where it keeps the expression's type.
   */
  function LimitTypeProperty(m: MetaObject): (t: Ty)
    ensures m.value.Some? && !m.value.value.Null? ==> t == GetLimitType(m)
    ensures m.value.None? ==> t == GetLimitType(m)
    ensures m.value == Some(Null) ==> t == m.exprType && GetLimitType(m) == DynamicNullT
  {
    if m.value.Some? && !m.value.value.Null? then TypeOf(m.value.value) else m.exprType
  }

  /** CompilerHelpers.GetType(self.Value): DynamicNull when there is no value. */
  function ValueType(m: MetaObject): Ty {
    if m.value.Some? then TypeOf(m.value.value) else DynamicNullT
  }

  /**
   * Restrict(t): adds the runtime-type restriction for t and converts the
   * expression to t (a conversion that is dropped when the type already is t).
   */
  function Restrict(m: MetaObject, t: Ty): (r: MetaObject)
    ensures r.guards == m.guards + {TypeIs(t)} && r.exprType == t
    ensures r.value == m.value && r.needsDeferral == m.needsDeferral && r.convertible == m.convertible
    ensures m.value.Some? ==> GetLimitType(r) == GetLimitType(m)
  {
    m.(exprType := t, boxesBool := m.boxesBool && t == m.exprType, guards := m.guards + {TypeIs(t)})
  }

  /** The result of running an action on an argument. */
  datatype Outcome =
    | Returns(r: Obj)
    | Raises(f: Failure)
    | External      // computed by code outside this model (adapters, nested sites, collaborators)

  /**
   * What an action does with an argument. A Convert is read as its inner
   * action: the cast to its target type is taken to succeed, so a cast that
   * would fail at run time is not modelled, and "same meaning" results
   * about inserted casts hold by this reading.
   */
  function Eval(a: Action, v: Obj): Outcome {
    match a
    case ConstBool(b) => Returns(Bool(b))
    case Identity => Returns(v)
    case Unboxed => Returns(v)
    case NotEqualZero(_) =>
      (match v
       case Num(_, n) => Returns(Bool(n != 0))
       case EnumV(_, n) => Returns(Bool(n != 0))
       case Chr(c) => Returns(Bool(c != 0))
       case Bool(b) => Returns(Bool(b))
       case _ => Raises(InvalidCast))
    case CharAt0(_) =>
      (match StringOf(v)
       case Some(s) => if |s| > 0 then Returns(Chr(s[0])) else Raises(IndexOutOfRange)
       case None => Raises(InvalidCast))
    case Throw(f) => Raises(f)
    case EnumZeroOrError(e) =>
      (match v
       case Num(_, n) => if n == 0 then Returns(EnumV(e, 0)) else Raises(BadEnumConversion)
       case _ => Raises(InvalidCast))
    case Convert(inner, _) => Eval(inner, v)
    case _ => External
  }
}
