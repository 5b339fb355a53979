/**
 * Filter instances of filters.py: the `ImageFilter` class, its parameter
 * shapes, and the dispatch from a filter's transform to the pixel filters of
 * PixelFilters or to the opaque OpenCV operations held in a `Library`.
 */
module ImageFilters {
  import opened Wrappers
  import opened Frames
  import opened PixelFilters

  /** `FilterParameterType`: the shape of a filter's parameter. */
  datatype ParameterType = NoneType | IntValue | BgrValue | BgrFloatValue | IntTuple2

  /** A Python number held in a parameter: an int, or a float from a scaled slider. */
  datatype Number = Int(i: int) | Float(x: real)

  /** A present parameter: one number, or a vector whose slots are updated one at a time. */
  datatype ParamValue = Scalar(n: Number) | Vector(slots: seq<Number>)

  /** The filter functions of filters.py that the registry uses. */
  datatype Transform =
    | SimpleGreyscaleFn | WeightedGreyscaleFn | GreyscaleFromChannelFn | FilterOrFn | NegateFn
    | BinarizeFn | BlurFn | CannyFn | EmbossedEdgesFn | GaussianBlurFn | PencilSketchFn

  /** Why a call of a filter function raises. */
  datatype FilterError =
    | ArgumentCountMismatch    // a parameter passed to a one-argument function, or missing for a two-argument one
    | UnsupportedArgument      // a parameter of a shape the function cannot use
    | ChannelIndexOutOfRange   // `greyscale_from_channel` with a channel outside -3..2

  /**
   * The OpenCV-backed operations and `overlays.overlay`, whose code is not
   * part of this model: `weighted_greyscale` (float arithmetic), `cv.blur`,
   * `cv.GaussianBlur` (given the already coerced sizes), `canny`,
   * `embossed_edges`, `pencil_sketch`, and the sticker overlay.
   */
  datatype Library = Library(
    weightedGreyscale: (Frame, seq<real>) -> Frame,
    blur: (Frame, int, int) -> Frame,
    gaussianBlur: (Frame, int, int) -> Frame,
    canny: (Frame, int, int) -> Frame,
    embossedEdges: Frame -> Frame,
    pencilSketch: Frame -> Frame,
    overlay: (Frame, Frame, int, int) -> Frame)

  /** The opaque operations never resize the frame they are given. */
  ghost predicate ShapePreserving(lib: Library)
  {
    (forall f, w :: SameShape(f, lib.weightedGreyscale(f, w))) &&
    (forall f, a, b :: SameShape(f, lib.blur(f, a, b))) &&
    (forall f, a, b :: SameShape(f, lib.gaussianBlur(f, a, b))) &&
    (forall f, a, b :: SameShape(f, lib.canny(f, a, b))) &&
    (forall f :: SameShape(f, lib.embossedEdges(f))) &&
    (forall f :: SameShape(f, lib.pencilSketch(f))) &&
    (forall f, s, x, y :: SameShape(f, lib.overlay(f, s, x, y)))
  }

  /** Drawing a sticker keeps the background's dimensions. */
  lemma OverlayKeepsShape(lib: Library, image: Frame, sticker: Frame, x: int, y: int)
    ensures ShapePreserving(lib) ==> SameShape(image, lib.overlay(image, sticker, x, y))
  {
  }

  function AsReal(n: Number): real
  {
    match n
    case Int(i) => i as real
    case Float(x) => x
  }

  /** The parameter shape each filter function is registered with. */
  function ParameterTypeOf(t: Transform): ParameterType
  {
    match t
    case SimpleGreyscaleFn => NoneType
    case WeightedGreyscaleFn => BgrFloatValue
    case GreyscaleFromChannelFn => IntValue
    case FilterOrFn => BgrValue
    case NegateFn => NoneType
    case BinarizeFn => IntValue
    case BlurFn => IntTuple2
    case CannyFn => IntTuple2
    case EmbossedEdgesFn => NoneType
    case GaussianBlurFn => IntTuple2
    case PencilSketchFn => NoneType
  }

  /** The two integers of an `INT_TUPLE_2` parameter, if the value has that shape. */
  function IntPair(v: ParamValue): Option<(int, int)>
  {
    if v.Vector? && |v.slots| == 2 && v.slots[0].Int? && v.slots[1].Int?
    then Some((v.slots[0].i, v.slots[1].i))
    else None
  }

  /** The three non-negative integers of a `BGR_VALUE` colour, if the value has that shape. */
  function Colour(v: ParamValue): Option<(nat, nat, nat)>
  {
    if v.Vector? && |v.slots| == 3 && (forall k :: 0 <= k < 3 ==> v.slots[k].Int? && v.slots[k].i >= 0)
    then Some((v.slots[0].i, v.slots[1].i, v.slots[2].i))
    else None
  }

  /**
   * Calls a filter function on a frame, with the parameter as second argument
   * when one is passed, raising where the Python call raises.
   */
  function Call(t: Transform, image: Frame, arg: Option<ParamValue>, lib: Library): (r: Result<Frame, FilterError>)
    ensures r == Err(ArgumentCountMismatch) <==> (ParameterTypeOf(t) == NoneType) != arg.None?
    ensures r == Err(ChannelIndexOutOfRange) ==> t == GreyscaleFromChannelFn
  {
    if ParameterTypeOf(t) == NoneType then
      if arg.Some? then Err(ArgumentCountMismatch)
      else if t == SimpleGreyscaleFn then Ok(SimpleGreyscale(image))
      else if t == NegateFn then Ok(Negate(image))
      else if t == EmbossedEdgesFn then Ok(lib.embossedEdges(image))
      else Ok(lib.pencilSketch(image))
    else if arg.None? then Err(ArgumentCountMismatch)
    else CallWithParameter(t, image, arg.value, lib)
  }

  /** The two-argument filter functions, given a parameter. */
  function CallWithParameter(t: Transform, image: Frame, v: ParamValue, lib: Library): (r: Result<Frame, FilterError>)
    requires ParameterTypeOf(t) != NoneType
    ensures r != Err(ArgumentCountMismatch)
    ensures r == Err(ChannelIndexOutOfRange) ==> t == GreyscaleFromChannelFn && v.Scalar? && v.n.Int?
  {
    match t
    case WeightedGreyscaleFn =>
      if v.Vector? && |v.slots| == 3
      then Ok(lib.weightedGreyscale(image, [AsReal(v.slots[0]), AsReal(v.slots[1]), AsReal(v.slots[2])]))
      else Err(UnsupportedArgument)
    case GreyscaleFromChannelFn =>
      if v.Scalar? && v.n.Int? then
        (match GreyscaleFromChannel(image, v.n.i)
         case Ok(r) => Ok(r)
         case Err(_) => Err(ChannelIndexOutOfRange))
      else Err(UnsupportedArgument)
    case FilterOrFn =>
      (match Colour(v)
       case Some(c) => Ok(FilterOr(image, c.0, c.1, c.2))
       case None => Err(UnsupportedArgument))
    case BinarizeFn =>
      if v.Scalar? then Ok(Binarize(image, AsReal(v.n))) else Err(UnsupportedArgument)
    case BlurFn =>
      (match IntPair(v)
       case Some(s) => Ok(lib.blur(image, s.0, s.1))
       case None => Err(UnsupportedArgument))
    case GaussianBlurFn =>
      (match IntPair(v)
       case Some(s) => Ok(lib.gaussianBlur(image, CoerceOdd(s.0), CoerceOdd(s.1)))
       case None => Err(UnsupportedArgument))
    case CannyFn =>
      (match IntPair(v)
       case Some(s) => Ok(lib.canny(image, s.0, s.1))
       case None => Err(UnsupportedArgument))
  }

  /**
   * The arguments each filter function accepts, stated by parameter shape:
   * none for the parameterless kinds, and for the others a value of the
   * function's shape (a channel in -3..2, a colour of non-negative integers).
   */
  predicate Accepts(t: Transform, arg: Option<ParamValue>)
    ensures Accepts(t, arg) ==> (arg.None? <==> ParameterTypeOf(t) == NoneType)
  {
    match ParameterTypeOf(t)
    case NoneType => arg.None?
    case IntValue =>
      arg.Some? && arg.value.Scalar? &&
      (t == GreyscaleFromChannelFn ==> arg.value.n.Int? && -3 <= arg.value.n.i < 3)
    case BgrValue =>
      arg.Some? && arg.value.Vector? && |arg.value.slots| == 3 &&
      forall k :: 0 <= k < 3 ==> arg.value.slots[k].Int? && arg.value.slots[k].i >= 0
    case BgrFloatValue => arg.Some? && arg.value.Vector? && |arg.value.slots| == 3
    case IntTuple2 =>
      arg.Some? && arg.value.Vector? && |arg.value.slots| == 2 &&
      arg.value.slots[0].Int? && arg.value.slots[1].Int?
  }

  /**
   * A call succeeds exactly on the accepted arguments, and with shape-preserving
   * OpenCV operations its result has the dimensions of its input.
   */
  lemma CallSucceedsIffAccepted(t: Transform, image: Frame, arg: Option<ParamValue>, lib: Library)
    ensures Call(t, image, arg, lib).Ok? <==> Accepts(t, arg)
    ensures ShapePreserving(lib) && Call(t, image, arg, lib).Ok? ==> SameShape(image, Call(t, image, arg, lib).value)
  {
    if arg.Some? && arg.value.Vector? && |arg.value.slots| == 2 {
      assert IntPair(arg.value).Some? <==> arg.value.slots[0].Int? && arg.value.slots[1].Int?;
    }
  }

  /** `gaussian_blur` with an even size request gives what the odd size below it gives: 16 acts as 15. */
  lemma GaussianBlurEvenSizeActsAsOdd(image: Frame, lib: Library)
    ensures Call(GaussianBlurFn, image, Some(Vector([Int(16), Int(16)])), lib)
         == Call(GaussianBlurFn, image, Some(Vector([Int(15), Int(15)])), lib)
  {
    CoerceOddIdempotent(16);
  }

  /** A parameter number of the right kind (float for the weights, int otherwise) within the slider bounds. */
  predicate SlotFits(t: ParameterType, n: Number, bounds: Option<(Number, Number)>)
  {
    bounds.Some? &&
    (if t == BgrFloatValue then n.Float? else n.Int?) &&
    AsReal(bounds.value.0) <= AsReal(n) <= AsReal(bounds.value.1)
  }

  /** A parameter value of the declared shape whose every number lies within the slider bounds. */
  predicate AdmissibleValue(t: ParameterType, v: Option<ParamValue>, bounds: Option<(Number, Number)>)
  {
    match t
    case NoneType => v.None?
    case IntValue => v.Some? && v.value.Scalar? && SlotFits(t, v.value.n, bounds)
    case IntTuple2 =>
      v.Some? && v.value.Vector? && |v.value.slots| == 2 &&
      forall k :: 0 <= k < 2 ==> SlotFits(t, v.value.slots[k], bounds)
    case _ =>
      v.Some? && v.value.Vector? && |v.value.slots| == 3 &&
      forall k :: 0 <= k < 3 ==> SlotFits(t, v.value.slots[k], bounds)
  }

  /** Slider bounds that keep a channel index and a colour within what the function accepts. */
  predicate SafeBounds(t: Transform, bounds: Option<(Number, Number)>)
  {
    match t
    case GreyscaleFromChannelFn => bounds.Some? && -3.0 <= AsReal(bounds.value.0) && AsReal(bounds.value.1) < 3.0
    case FilterOrFn => bounds.Some? && 0.0 <= AsReal(bounds.value.0)
    case _ => true
  }

  /** A value admissible for the function's shape within safe bounds is accepted, so the call does not raise. */
  lemma AdmissibleIsAccepted(t: Transform, v: Option<ParamValue>, bounds: Option<(Number, Number)>)
    ensures AdmissibleValue(ParameterTypeOf(t), v, bounds) && SafeBounds(t, bounds) ==> Accepts(t, v)
  {
    if AdmissibleValue(ParameterTypeOf(t), v, bounds) && SafeBounds(t, bounds) && ParameterTypeOf(t) == BgrValue {
      assert t == FilterOrFn;
      forall k | 0 <= k < 3
        ensures v.value.slots[k].Int? && v.value.slots[k].i >= 0
      {
        var n := v.value.slots[k];
        assert SlotFits(BgrValue, n, bounds);
        assert 0.0 <= AsReal(bounds.value.0) <= AsReal(n) == n.i as real;
      }
    }
  }

  /** The arguments of `ImageFilter.__init__`, as a record. */
  datatype FilterEntry = FilterEntry(
    displayName: string,
    filterId: nat,
    filterFunction: Transform,
    parameterType: ParameterType,
    parameterName: string,
    parameterValue: Option<ParamValue>,
    minMax: Option<(Number, Number)>)

  /** The entry's shape matches its function, its bounds are safe and its value is admissible. */
  predicate EntryValid(e: FilterEntry)
  {
    e.parameterType == ParameterTypeOf(e.filterFunction) &&
    SafeBounds(e.filterFunction, e.minMax) &&
    AdmissibleValue(e.parameterType, e.parameterValue, e.minMax)
  }

  /** `ImageFilter`: one filter kind with its current parameter, updated in place by the sliders. */
  class ImageFilter {
    const displayName: string
    const filterId: nat
    const filterFunction: Transform
    const parameterType: ParameterType
    const parameterName: string
    var parameterValue: Option<ParamValue>
    const minMax: Option<(Number, Number)>

    /** The filter's entry is well formed (see `EntryValid`). */
    ghost predicate Valid()
      reads this
    {
      EntryValid(Entry())
    }

    constructor (e: FilterEntry)
      ensures displayName == e.displayName && filterId == e.filterId && filterFunction == e.filterFunction
      ensures parameterType == e.parameterType && parameterName == e.parameterName
      ensures parameterValue == e.parameterValue && minMax == e.minMax
    {
      displayName := e.displayName;
      filterId := e.filterId;
      filterFunction := e.filterFunction;
      parameterType := e.parameterType;
      parameterName := e.parameterName;
      parameterValue := e.parameterValue;
      minMax := e.minMax;
    }

    /** The constructor arguments with the current parameter value. */
    function Entry(): FilterEntry
      reads this
    {
      FilterEntry(displayName, filterId, filterFunction, parameterType, parameterName, parameterValue, minMax)
    }

    /** `apply`: the filter function, given the parameter exactly when one is held. */
    function Apply(image: Frame, lib: Library): (r: Result<Frame, FilterError>)
      reads this
      ensures parameterValue.None? ==> r == Call(filterFunction, image, None, lib)
      ensures parameterValue.Some? ==> r == Call(filterFunction, image, parameterValue, lib)
      ensures r.Ok? <==> Accepts(filterFunction, parameterValue)
      ensures Valid() ==> r.Ok?
      ensures ShapePreserving(lib) && r.Ok? ==> SameShape(image, r.value)
    {
      CallSucceedsIffAccepted(filterFunction, image, parameterValue, lib);
      AdmissibleIsAccepted(filterFunction, parameterValue, minMax);
      if parameterValue != None then Call(filterFunction, image, parameterValue, lib)
      else Call(filterFunction, image, None, lib)
    }

    /** `__str__` (and `__repr__`): the display name the filter was registered with. */
    function Str(): (s: string)
      ensures s == displayName
    {
      displayName
    }

    /**
     * `update_parameter_value`: an `INT_VALUE` parameter is replaced whole;
     * any other parameter has only its slot `index` overwritten.
     */
    method UpdateParameterValue(value: Number, index: Option<nat>)
      requires parameterType != IntValue ==>
        parameterValue.Some? && parameterValue.value.Vector? &&
        index.Some? && index.value < |parameterValue.value.slots|
      modifies this`parameterValue
      ensures parameterType == IntValue ==> parameterValue == Some(Scalar(value))
      ensures parameterType != IntValue ==>
        parameterValue == Some(Vector(old(parameterValue.value.slots)[index.value := value]))
      ensures old(Valid()) && SlotFits(parameterType, value, minMax) ==> Valid()
    {
      if parameterType == IntValue {
        parameterValue := Some(Scalar(value));
      } else {
        var slots := parameterValue.value.slots;
        parameterValue := Some(Vector(slots[index.value := value]));
      }
    }
  }
}
