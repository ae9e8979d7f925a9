/**
 * The host (CLR) type system as far as the conversion binder inspects it:
 * type descriptors, the runtime values the binder sees, and the reflection
 * questions it asks (type code, value type, primitive, assignability).
 */
module HostTypes {
  import opened Wrappers

  /** The primitive numeric types (System.SByte … System.Double). */
  datatype NumCode = SByte | Byte | Int16 | UInt16 | Int32 | UInt32 | Int64 | UInt64 | Single | Double

  /** The generic type definitions the binder tests for. */
  datatype GenericDef = IListDef | IDictionaryDef | IEnumerableOfTDef

  /** The generic adapter classes the binder instantiates. */
  datatype Wrapper = ListGenericWrapper | DictionaryGenericWrapper | IEnumerableOfTWrapper

  /**
   * A runtime type. The named constructors are the types the binder singles
   * out; every other type is a ClassT (or OtherGenericT), described by
   * whether it is a value type and by the types it is assignable to.
   */
  datatype Ty =
    | BoolT
    | CharT
    | NumT(code: NumCode)
    | EnumT(name: string, underlying: NumCode)
    | StringT
    | ExtStringT(cls: string)               // a Python subclass of str (Extensible<string>)
    | DynamicNullT                          // the type the runtime gives to None / null
    | ObjectT                               // exactly System.Object
    | PythonTupleT
    | OldInstanceT                          // an instance of an old-style Python class
    | IEnumerableT
    | IEnumeratorT
    | IStrongBoxT
    | ArrayT(elem: Ty, rank: nat)
    | GenericT(def: GenericDef, args: seq<Ty>)   // IList<T>, IDictionary<K,V>, IEnumerable<T>
    | OtherGenericT(name: string, args: seq<Ty>, isValueType: bool, supers: set<Ty>)
    | AdapterT(wrapper: Wrapper, args: seq<Ty>)
    | ClassT(name: string, isValueType: bool, supers: set<Ty>)

  /** Type.GetTypeCode, reduced to the codes the binder switches on. */
  datatype TypeCode = BooleanCode | CharCode | NumericCode(code: NumCode) | StringCode | ObjectCode

  function GetTypeCode(t: Ty): (c: TypeCode)
    ensures c == BooleanCode <==> t == BoolT
    ensures c == CharCode <==> t == CharT
    ensures c.NumericCode? <==> t.NumT? || t.EnumT?
    ensures t.EnumT? ==> c == NumericCode(t.underlying)
  {
    match t
    case BoolT => BooleanCode
    case CharT => CharCode
    case NumT(c) => NumericCode(c)
    case EnumT(_, u) => NumericCode(u)      // an enum reports its underlying type's code
    case StringT => StringCode
    case _ => ObjectCode
  }

  predicate IsValueType(t: Ty) {
    match t
    case BoolT => true
    case CharT => true
    case NumT(_) => true
    case EnumT(_, _) => true
    case OtherGenericT(_, _, v, _) => v
    case ClassT(_, v, _) => v
    case _ => false
  }

  /** Type.IsPrimitive (bool, char and the numeric types). */
  predicate IsPrimitive(t: Ty) {
    t.BoolT? || t.CharT? || t.NumT?
  }

  /** Type.IsGenericType */
  predicate IsGeneric(t: Ty) {
    t.GenericT? || t.OtherGenericT? || t.AdapterT?
  }

  /**
   * The types other than itself and System.Object that a type is
   * assignable to, for the types whose declarations the binder relies on.
   */
  function Supertypes(t: Ty): set<Ty> {
    match t
    case StringT => {IEnumerableT, GenericT(IEnumerableOfTDef, [CharT])}
    case PythonTupleT => {IEnumerableT, GenericT(IListDef, [ObjectT]), GenericT(IEnumerableOfTDef, [ObjectT])}
    case ArrayT(e, r) =>
      if r == 1 then {IEnumerableT, GenericT(IListDef, [e]), GenericT(IEnumerableOfTDef, [e])}
      else {IEnumerableT}
    case GenericT(d, args) =>
      if d == IListDef then {IEnumerableT, GenericT(IEnumerableOfTDef, args)} else {IEnumerableT}
    case AdapterT(w, args) =>
      (match w
       case ListGenericWrapper => {GenericT(IListDef, args), IEnumerableT}
       case DictionaryGenericWrapper => {GenericT(IDictionaryDef, args), IEnumerableT}
       case IEnumerableOfTWrapper => {GenericT(IEnumerableOfTDef, args), IEnumerableT})
    case OtherGenericT(_, _, _, s) => s
    case ClassT(_, _, s) => s
    case _ => {}
  }

  /** to.IsAssignableFrom(from) */
  predicate Assignable(to: Ty, from: Ty) {
    to == from || to == ObjectT || to in Supertypes(from)
  }

  /**
   * A UTF-16 code unit: what a .NET char holds, and what String.Length
   * counts. A character outside the Basic Multilingual Plane is two code
   * units (a surrogate pair), and a lone surrogate is a valid char.
   */
  newtype CodeUnit = x: int | 0 <= x < 0x1_0000

  /** A .NET string: its sequence of UTF-16 code units. */
  type NetString = seq<CodeUnit>

  /**
   * A runtime value as the binder and the fast paths see it. Instance covers
   * every object not singled out above, known only by its runtime type.
   */
  datatype Obj =
    | Null
    | Bool(b: bool)
    | Chr(c: CodeUnit)
    | Num(code: NumCode, n: int)
    | EnumV(enumTy: Ty, n: int)
    | Str(s: NetString)
    | ExtStr(cls: string, s: NetString)
    | Instance(ty: Ty)

  /** CompilerHelpers.GetType: the runtime type, DynamicNull for null. */
  function TypeOf(v: Obj): (t: Ty)
    ensures v.Null? ==> t == DynamicNullT
    ensures v.Str? ==> t == StringT
  {
    match v
    case Null => DynamicNullT
    case Bool(_) => BoolT
    case Chr(_) => CharT
    case Num(c, _) => NumT(c)
    case EnumV(t, _) => t
    case Str(_) => StringT
    case ExtStr(c, _) => ExtStringT(c)
    case Instance(t) => t
  }

  /**
   * A value is well formed when an Instance never claims a type that has
   * its own constructor above.
   */
  predicate WellFormed(v: Obj) {
    match v
    case Instance(t) =>
      !(t.BoolT? || t.CharT? || t.NumT? || t.EnumT? || t.StringT? || t.ExtStringT? || t.DynamicNullT?)
    case EnumV(t, _) => t.EnumT?
    case _ => true
  }

  /** The string a value holds when it is a string or a Python str subclass. */
  function StringOf(v: Obj): (r: Option<NetString>)
    ensures WellFormed(v) ==> (r.Some? <==> (TypeOf(v) == StringT || TypeOf(v).ExtStringT?))
  {
    match v
    case Str(s) => Some(s)
    case ExtStr(_, s) => Some(s)
    case _ => None
  }
}
