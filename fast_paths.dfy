/**
 * The binder's fast paths: BindDelegate picks a hand-written delegate for
 * the call site's delegate type and first argument; each delegate either
 * answers directly (a hit) or hands the argument back to the site's
 * Update (a miss), which rebinds.
 */
module FastPaths {
  import opened Wrappers
  import opened HostTypes
  import opened Meta
  import opened ConversionBinder
  import opened ConversionProperties

  /** The site's delegate type Func<CallSite, param, ret>. */
  datatype DelegateType = Func(param: Ty, ret: Ty)

  /** The delegates BindDelegate can hand out. */
  datatype FastPath =
    | StringPath
    | IntPath
    | BoolToIntPath            // Func<CallSite, object, int>
    | BoolToIntOfBoolPath      // Func<CallSite, bool, int>
    | BoolPath
    | IntToBoolPath
    | StringToBoolPath
    | NullToBoolPath
    | ObjectToBoolPath
    | IdentityPath(ty: Ty)                 // IdentityConversion
    | TypedIdentityPath(ret: Ty, ty: Ty)   // IdentityConversion<ret>

  /** What a delegate does with its argument. */
  datatype Answer = Hit(r: Obj) | Update

  predicate IsInt(v: Obj) {
    v.Num? && v.code == Int32
  }

  /**
   * The delegate BindDelegate caches for this delegate type and first
   * argument; None stands for deferring to the base class's BindDelegate.
   */
  function BindDelegate(b: PythonConversionBinder, d: DelegateType, target: Obj): (r: Option<FastPath>)
    ensures r.Some? && r.value != BoolToIntOfBoolPath ==> d.param == ObjectT
    ensures r.Some? && r.value.IdentityPath? ==> d == Func(ObjectT, ObjectT) && Assignable(b.ty, TypeOf(target))
  {
    if d == Func(ObjectT, StringT) && target.Str? then Some(StringPath)
    else if d == Func(ObjectT, NumT(Int32)) then
      if IsInt(target) then Some(IntPath)
      else if target.Bool? then Some(BoolToIntPath)
      else None
    else if d == Func(BoolT, NumT(Int32)) then Some(BoolToIntOfBoolPath)
    else if d == Func(ObjectT, BoolT) then
      if target.Bool? then Some(BoolPath)
      else if target.Str? then Some(StringToBoolPath)
      else if IsInt(target) then Some(IntToBoolPath)
      else if target.Null? then Some(NullToBoolPath)
      else if TypeOf(target) == ObjectT then Some(ObjectToBoolPath)
      else None
    else if !target.Null? then
      if TypeOf(target) == b.ty || Assignable(b.ty, TypeOf(target)) then
        if d == Func(ObjectT, ObjectT) then Some(IdentityPath(TypeOf(target)))
        else if d.param == ObjectT then Some(TypedIdentityPath(b.ty, TypeOf(target)))
        else None
      else None
    else None
  }

  function StringConversion(value: Obj): (a: Answer)
    ensures a.Hit? <==> value.Str?
    ensures a.Hit? ==> a.r == value && TypeOf(a.r) == StringT
  {
    if value.Str? then Hit(value) else Update
  }

  function IntConversion(value: Obj): (a: Answer)
    ensures a.Hit? <==> IsInt(value)
    ensures a.Hit? ==> a.r == value
  {
    if IsInt(value) then Hit(value) else Update
  }

  function BoolToIntConversion(value: Obj): (a: Answer)
    ensures a.Hit? <==> value.Bool?
    ensures a.Hit? ==> IsInt(a.r) && (a.r.n == 1 <==> value.b) && (a.r.n == 0 <==> !value.b)
  {
    if value.Bool? then Hit(Num(Int32, if value.b then 1 else 0)) else Update
  }

  /** The overload whose parameter is already a bool: it always answers. */
  function BoolToIntConversionOfBool(value: bool): (n: int)
    ensures n == 1 <==> value
    ensures n == 0 <==> !value
  {
    if value then 1 else 0
  }

  function BoolConversion(value: Obj): (a: Answer)
    ensures a.Hit? <==> value.Bool?
    ensures a.Hit? ==> a.r == value
  {
    if value.Bool? then Hit(value) else Update
  }

  function IntToBoolConversion(value: Obj): (a: Answer)
    ensures a.Hit? <==> IsInt(value)
    ensures a.Hit? ==> a.r == Bool(value.n != 0)
  {
    if IsInt(value) then Hit(Bool(value.n != 0)) else Update
  }

  function StringToBoolConversion(value: Obj): (a: Answer)
    ensures a.Hit? <==> value.Str?
    ensures a.Hit? ==> a.r == Bool(|value.s| > 0)
  {
    if value.Str? then Hit(Bool(|value.s| > 0)) else Update
  }

  function NullToBoolConversion(value: Obj): (a: Answer)
    ensures a.Hit? <==> value.Null?
    ensures a.Hit? ==> a.r == Bool(false)
  {
    if value.Null? then Hit(Bool(false)) else Update
  }

  function ObjectToBoolConversion(value: Obj): (a: Answer)
    ensures a.Hit? <==> !value.Null? && TypeOf(value) == ObjectT
    ensures a.Hit? ==> a.r == Bool(true)
  {
    if !value.Null? && TypeOf(value) == ObjectT then Hit(Bool(true)) else Update
  }

  /** IdentityConversion and IdentityConversion<T>: the value itself when its type is exactly ty. */
  function IdentityConversion(ty: Ty, value: Obj): (a: Answer)
    ensures a.Hit? <==> !value.Null? && TypeOf(value) == ty
    ensures a.Hit? ==> a.r == value
  {
    if !value.Null? && TypeOf(value) == ty then Hit(value) else Update
  }

  /** Runs a delegate whose parameter is object. */
  function Invoke(fp: FastPath, value: Obj): Answer
    requires fp != BoolToIntOfBoolPath
  {
    match fp
    case StringPath => StringConversion(value)
    case IntPath => IntConversion(value)
    case BoolToIntPath => BoolToIntConversion(value)
    case BoolPath => BoolConversion(value)
    case IntToBoolPath => IntToBoolConversion(value)
    case StringToBoolPath => StringToBoolConversion(value)
    case NullToBoolPath => NullToBoolConversion(value)
    case ObjectToBoolPath => ObjectToBoolConversion(value)
    case IdentityPath(t) => IdentityConversion(t, value)
    case TypedIdentityPath(_, t) => IdentityConversion(t, value)
  }

  /** The delegate BindDelegate picks for an argument answers that argument itself. */
  lemma SelectedFastPathHits(b: PythonConversionBinder, d: DelegateType, target: Obj)
    requires BindDelegate(b, d, target).Some? && BindDelegate(b, d, target).value != BoolToIntOfBoolPath
    ensures Invoke(BindDelegate(b, d, target).value, target).Hit?
  {
  }

  /**
   * A delegate BindDelegate hands out returns, on every later argument it
   * answers, a value of the site's return type: a bool on a bool site, an
   * int on an int site, and for the identity delegates the argument itself,
   * whose type the binder's target type admits.
   */
  lemma FastPathHitsHaveSiteType(b: PythonConversionBinder, d: DelegateType, target: Obj, w: Obj)
    requires BindDelegate(b, d, target).Some? && BindDelegate(b, d, target).value != BoolToIntOfBoolPath
    requires Invoke(BindDelegate(b, d, target).value, w).Hit?
    ensures var fp := BindDelegate(b, d, target).value;
      var r := Invoke(fp, w).r;
      && (d == Func(ObjectT, BoolT) ==> r.Bool?)
      && (d == Func(ObjectT, NumT(Int32)) ==> IsInt(r))
      && (d == Func(ObjectT, StringT) && target.Str? ==> r.Str?)
      && (fp.IdentityPath? || fp.TypedIdentityPath? ==> r == w && Assignable(b.ty, TypeOf(w)))
  {
  }

  /**
   * On a bool site the int, null, bool and plain-object fast paths answer
   * exactly what the full resolution's rule computes for that argument
   * (for a plain object, when the truthiness protocol has no rule for it).
   */
  lemma BoolFastPathsAgreeWithResolution(b: PythonConversionBinder, h: Hooks, fp: FastPath, v: Obj)
    requires b.ty == BoolT
    requires fp == IntToBoolPath || fp == NullToBoolPath || fp == BoolPath || fp == ObjectToBoolPath
    requires Invoke(fp, v).Hit?
    requires h.comTryConvert(BoolT, IsExplicit(b.kind), SiteArgument(v)).None?
    requires fp == ObjectToBoolPath ==> h.convertToBool(b, Restrict(SiteArgument(v), ObjectT)).None?
    ensures Eval(FallbackConvert(b, SiteArgument(v), h).action, v) == Returns(Invoke(fp, v).r)
    ensures GuardsHold(FallbackConvert(b, SiteArgument(v), h).guards, v)
  {
  }
}
