/** Filter selection of ECGModel.applyFilter: which kernel a filter number and a
    parameter list select, and with which arguments.  The kernels themselves are
    external numerics; here a filter is the tagged record of the call. */
module Filters {

  /** A boxed Java `Number` as it arrives in `Number[] params`. */
  datatype Number = IntNumber(i: int) | DoubleNumber(d: real)

  /** One call of an ECGDataSet filter method, with the arguments it received. */
  datatype Filter =
    | SavitzkyGolay(left: int, right: int, degree: int)   // kind 0: sgolayfilt
    | HighPass(threshold: real)                           // kind 1: highpassfilt
    | LowPass(threshold: real)                            // kind 2: lowpassfilt
    | FftHighPass(threshold: real, mode: int)             // kind 3: highpassfftfilt(t, 0)
    | Detrend(degree: int)                                // kind 4: detrend
    | Wavelet(threshold: real)                            // kind 5: waveletfilt
    | ConstantOffset(offset: real)                        // kind 6: constofffilt
    | Butterworth(order: int, sampleFreq: real, cutoff: real, filterType: int)  // kind 7

  /** Why unboxing a parameter fails: the array is too short
      (ArrayIndexOutOfBoundsException) or the box holds the other numeric type
      (ClassCastException of `(int)` on a Double or `(double)` on an Integer). */
  datatype ParamError = MissingParam | WrongType

  /** The outcome of the switch on `filterNum`. */
  datatype Selection = NoOp | Invalid(reason: ParamError) | Selected(filter: Filter)

  datatype ParamKind = IntParam | DoubleParam

  datatype Unboxed<T> = Got(v: T) | Bad(e: ParamError)

  function AsInt(params: seq<Number>, k: nat): Unboxed<int> {
    if k >= |params| then Bad(MissingParam)
    else match params[k]
      case IntNumber(i) => Got(i)
      case DoubleNumber(_) => Bad(WrongType)
  }

  function AsDouble(params: seq<Number>, k: nat): Unboxed<real> {
    if k >= |params| then Bad(MissingParam)
    else match params[k]
      case DoubleNumber(d) => Got(d)
      case IntNumber(_) => Bad(WrongType)
  }

  function Select1<A>(a: Unboxed<A>, make: A -> Filter): Selection {
    if a.Bad? then Invalid(a.e) else Selected(make(a.v))
  }

  function Select3<A, B, C>(a: Unboxed<A>, b: Unboxed<B>, c: Unboxed<C>, make: (A, B, C) -> Filter): Selection {
    if a.Bad? then Invalid(a.e)
    else if b.Bad? then Invalid(b.e)
    else if c.Bad? then Invalid(c.e)
    else Selected(make(a.v, b.v, c.v))
  }

  /** The parameter shape each filter number unboxes, in argument order; an
      unknown number reads no parameter. */
  function Signature(filterNum: int): seq<ParamKind> {
    match filterNum
    case 0 => [IntParam, IntParam, IntParam]
    case 4 => [IntParam]
    case 7 => [IntParam, DoubleParam, IntParam]
    case 1 | 2 | 3 | 5 | 6 => [DoubleParam]
    case _ => []
  }

  predicate FitsAt(params: seq<Number>, kinds: seq<ParamKind>, k: nat)
    requires k < |kinds| && k < |params|
  {
    if kinds[k] == IntParam then params[k].IntNumber? else params[k].DoubleNumber?
  }

  /** The parameters have at least the signature's length and every used box
      holds the type the signature asks for. */
  predicate Fits(params: seq<Number>, kinds: seq<ParamKind>) {
    |kinds| <= |params| && forall k :: 0 <= k < |kinds| ==> FitsAt(params, kinds, k)
  }

  /** The filter number a filter is dispatched under. */
  function KindOf(f: Filter): int {
    match f
    case SavitzkyGolay(_, _, _) => 0
    case HighPass(_) => 1
    case LowPass(_) => 2
    case FftHighPass(_, _) => 3
    case Detrend(_) => 4
    case Wavelet(_) => 5
    case ConstantOffset(_) => 6
    case Butterworth(_, _, _, _) => 7
  }

  /** The caller-supplied parameters of a filter, boxed as the caller passes them
      (the model's sample frequency of kind 7 and the constant 0 of kind 3 are not
      caller parameters). */
  function ParamsOf(f: Filter): seq<Number> {
    match f
    case SavitzkyGolay(l, r, d) => [IntNumber(l), IntNumber(r), IntNumber(d)]
    case HighPass(t) => [DoubleNumber(t)]
    case LowPass(t) => [DoubleNumber(t)]
    case FftHighPass(t, _) => [DoubleNumber(t)]
    case Detrend(d) => [IntNumber(d)]
    case Wavelet(t) => [DoubleNumber(t)]
    case ConstantOffset(o) => [DoubleNumber(o)]
    case Butterworth(o, _, c, ty) => [IntNumber(o), DoubleNumber(c), IntNumber(ty)]
  }

  /** The switch of applyFilter: numbers 0..7 select a kernel (with unboxed
      arguments), every other number selects nothing. */
  function Select(filterNum: int, params: seq<Number>, sampleFreq: real): (s: Selection)
    ensures s.NoOp? <==> !(0 <= filterNum < 8)
    ensures s.Selected? ==>
              KindOf(s.filter) == filterNum &&
              |Signature(filterNum)| <= |params| &&
              ParamsOf(s.filter) == params[..|Signature(filterNum)|]
    ensures s.Selected? && s.filter.Butterworth? ==> s.filter.sampleFreq == sampleFreq
    ensures s.Selected? && s.filter.FftHighPass? ==> s.filter.mode == 0
  {
    match filterNum
    case 0 => Select3(AsInt(params, 0), AsInt(params, 1), AsInt(params, 2),
                      (l, r, d) => SavitzkyGolay(l, r, d))
    case 1 => Select1(AsDouble(params, 0), t => HighPass(t))
    case 2 => Select1(AsDouble(params, 0), t => LowPass(t))
    case 3 => Select1(AsDouble(params, 0), t => FftHighPass(t, 0))
    case 4 => Select1(AsInt(params, 0), d => Detrend(d))
    case 5 => Select1(AsDouble(params, 0), t => Wavelet(t))
    case 6 => Select1(AsDouble(params, 0), o => ConstantOffset(o))
    case 7 => Select3(AsInt(params, 0), AsDouble(params, 1), AsInt(params, 2),
                      (o, c, ty) => Butterworth(o, sampleFreq, c, ty))
    case _ => NoOp
  }

  /** A known filter number selects its kernel exactly when the parameters fit the
      number's signature; otherwise unboxing fails. */
  lemma {:induction false} SelectedIffFits(filterNum: int, params: seq<Number>, sampleFreq: real)
    requires 0 <= filterNum < 8
    ensures Select(filterNum, params, sampleFreq).Selected? <==> Fits(params, Signature(filterNum))
    ensures Select(filterNum, params, sampleFreq).Invalid? <==> !Fits(params, Signature(filterNum))
  {
    var sig := Signature(filterNum);
    if |sig| <= |params| {
      if |sig| == 3 {
        assert Fits(params, sig) <==> FitsAt(params, sig, 0) && FitsAt(params, sig, 1) && FitsAt(params, sig, 2);
      } else {
        assert Fits(params, sig) <==> FitsAt(params, sig, 0);
      }
    }
  }

  /** A filter that applyFilter can produce under the given sample frequency. */
  predicate Dispatchable(f: Filter, sampleFreq: real) {
    (f.Butterworth? ==> f.sampleFreq == sampleFreq) && (f.FftHighPass? ==> f.mode == 0)
  }

  /** Encoding a filter as (number, boxed parameters) and dispatching it gives the
      same filter back: every kernel is reachable, and with exactly its arguments. */
  lemma {:induction false} SelectParamsOf(f: Filter, sampleFreq: real)
    requires Dispatchable(f, sampleFreq)
    ensures Select(KindOf(f), ParamsOf(f), sampleFreq) == Selected(f)
  {
    match f
    case SavitzkyGolay(_, _, _) =>
    case HighPass(_) =>
    case LowPass(_) =>
    case FftHighPass(_, _) =>
    case Detrend(_) =>
    case Wavelet(_) =>
    case ConstantOffset(_) =>
    case Butterworth(_, _, _, _) =>
  }

  /** Extra trailing parameters are never looked at. */
  lemma {:induction false} SelectIgnoresExtra(filterNum: int, params: seq<Number>, extra: seq<Number>, sampleFreq: real)
    requires |Signature(filterNum)| <= |params|
    ensures Select(filterNum, params + extra, sampleFreq) == Select(filterNum, params, sampleFreq)
  {
    var p := params + extra;
    assert forall k :: 0 <= k < |params| ==> p[k] == params[k];
  }
}
