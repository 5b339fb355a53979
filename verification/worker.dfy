/**
 * The `Worker` of main.py (its filter list, its sticker list and one
 * iteration of its frame loop) and the sticker nudge of
 * `MainWindow.keyPressEvent`.
 */
module FrameWorker {
  import opened Wrappers
  import opened Frames
  import opened ImageFilters
  import opened Composition
  import PixelFilters
  import Registry

  /** `Sticker`: an image drawn with its top-left pixel at (x, y); the position is moved in place. */
  class Sticker {
    const image: Frame
    var x: int
    var y: int

    constructor (image: Frame, x: int, y: int)
      ensures this.image == image && this.x == x && this.y == y
    {
      this.image := image;
      this.x := x;
      this.y := y;
    }
  }

  /** The distance between two coordinates on one axis. */
  function Distance(a: int, b: int): nat
  {
    if a <= b then b - a else a - b
  }

  /** The keys `keyPressEvent` reacts to, and every other key. */
  datatype Key = KeyW | KeyA | KeyS | KeyD | OtherKey

  /** The position after one key press: W up, A left, S down, D right, by 10 pixels. */
  function Nudge(key: Key, x: int, y: int): (p: (int, int))
    ensures p.0 == x || p.1 == y
    ensures Distance(x, p.0) + Distance(y, p.1) == if key == OtherKey then 0 else 10
  {
    match key
    case KeyW => (x, y - 10)
    case KeyA => (x - 10, y)
    case KeyS => (x, y + 10)
    case KeyD => (x + 10, y)
    case OtherKey => (x, y)
  }

  /** The frame after drawing every sticker on it, in list order, each on the previous result. */
  function OverlayAll(image: Frame, stickers: seq<Sticker>, lib: Library): (r: Frame)
    reads stickers
    ensures ShapePreserving(lib) ==> SameShape(image, r)
    decreases |stickers|
  {
    if stickers == [] then image
    else
      OverlayKeepsShape(lib, image, stickers[0].image, stickers[0].x, stickers[0].y);
      OverlayAll(lib.overlay(image, stickers[0].image, stickers[0].x, stickers[0].y), stickers[1..], lib)
  }

  /** Drawing one more sticker draws it on top of what the others produced. */
  lemma {:induction false} OverlayAllSnoc(image: Frame, stickers: seq<Sticker>, s: Sticker, lib: Library)
    ensures OverlayAll(image, stickers + [s], lib) == lib.overlay(OverlayAll(image, stickers, lib), s.image, s.x, s.y)
    decreases |stickers|
  {
    if stickers != [] {
      assert (stickers + [s])[1..] == stickers[1..] + [s];
      OverlayAllSnoc(lib.overlay(image, stickers[0].image, stickers[0].x, stickers[0].y), stickers[1..], s, lib);
    }
  }

  /** The frame after every filter in list order, each applied to the previous result; the first raise stops the fold. */
  function ApplyAll(image: Frame, filters: seq<ImageFilter>, lib: Library): (r: Result<Frame, FilterError>)
    reads filters
    ensures ShapePreserving(lib) && r.Ok? ==> SameShape(image, r.value)
    decreases |filters|
  {
    if filters == [] then Ok(image)
    else
      match filters[0].Apply(image, lib)
      case Err(e) => Err(e)
      case Ok(next) => ApplyAll(next, filters[1..], lib)
  }

  /** Running two lists in turn is running their concatenation: later filters see earlier results. */
  lemma {:induction false} ApplyAllAppend(image: Frame, xs: seq<ImageFilter>, ys: seq<ImageFilter>, lib: Library)
    ensures ApplyAll(image, xs + ys, lib) ==
      match ApplyAll(image, xs, lib)
      case Err(e) => Err(e)
      case Ok(mid) => ApplyAll(mid, ys, lib)
    decreases |xs|
  {
    if xs != [] {
      assert (xs + ys)[0] == xs[0] && (xs + ys)[1..] == xs[1..] + ys;
      match xs[0].Apply(image, lib)
      case Err(e) =>
      case Ok(next) => ApplyAllAppend(next, xs[1..], ys, lib);
    } else {
      assert xs + ys == ys;
    }
  }

  /** Applying one more filter applies it to the result of the others. */
  lemma ApplyAllSnoc(image: Frame, filters: seq<ImageFilter>, f: ImageFilter, lib: Library)
    ensures ApplyAll(image, filters + [f], lib) ==
      match ApplyAll(image, filters, lib)
      case Err(e) => Err(e)
      case Ok(mid) => f.Apply(mid, lib)
  {
    ApplyAllAppend(image, filters, [f], lib);
    match ApplyAll(image, filters, lib)
    case Err(e) =>
    case Ok(mid) =>
      assert ApplyAll(mid, [f], lib) == f.Apply(mid, lib) by {
        assert [f][1..] == [];
      }
  }

  /** Well-formed filters with shape-preserving operations never raise and keep the frame's dimensions. */
  lemma {:induction false} ApplyAllKeepsShape(image: Frame, filters: seq<ImageFilter>, lib: Library)
    requires ShapePreserving(lib)
    requires forall f :: f in filters ==> f.Valid()
    ensures ApplyAll(image, filters, lib).Ok?
    ensures SameShape(image, ApplyAll(image, filters, lib).value)
    decreases |filters|
  {
    if filters != [] {
      assert filters[0] in filters;
      var next := filters[0].Apply(image, lib).value;
      ApplyAllKeepsShape(next, filters[1..], lib);
    }
  }

  /**
   * With the registry's Simple Greyscale and Binarize (threshold 127) active in
   * that order, a frame is first turned grey and then thresholded.
   */
  lemma GreyscaleThenBinarize(image: Frame, g: ImageFilter, b: ImageFilter, lib: Library)
    requires g.Entry() == Registry.Catalogue()[0] && b.Entry() == Registry.Catalogue()[5]
    ensures ApplyAll(image, [g, b], lib) == Ok(PixelFilters.Binarize(PixelFilters.SimpleGreyscale(image), 127.0))
  {
    var grey := PixelFilters.SimpleGreyscale(image);
    assert g.Apply(image, lib) == Ok(grey);
    assert b.parameterValue == Some(Scalar(Int(127)));
    assert b.Apply(grey, lib) == CallWithParameter(BinarizeFn, grey, Scalar(Int(127)), lib);
    var binarized := PixelFilters.Binarize(grey, 127.0);
    assert b.Apply(grey, lib) == Ok(binarized);
    assert ApplyAll(binarized, [], lib) == Ok(binarized);
    assert [b][1..] == [];
    assert ApplyAll(grey, [b], lib) == Ok(binarized);
    assert [g, b][1..] == [b];
  }

  /** What one iteration of the frame loop hands to the display. */
  datatype TickOutcome =
    | NothingPublished          // no frame this tick: the camera read failed, or no picture is held
    | Published(frame: Frame)   // the frame emitted through `ImageUpdate`
    | Raised(error: FilterError) // a filter raised: the exception propagates out of `run` and the loop ends

  /** `Worker`: the filter list, the sticker list and the frame source of the frame loop. */
  class Worker {
    const availableFilters: seq<ImageFilter>
    var activeFilters: seq<ImageFilter>
    var picture: Option<Frame>
    var usingCamera: bool
    var stickers: seq<Sticker>

    /** The active list is registered, without duplicate ids, over a registry indexed by id. */
    ghost predicate Valid()
      reads this
    {
      ActiveListValid(activeFilters, availableFilters)
    }

    constructor (availableFilters: seq<ImageFilter>)
      ensures this.availableFilters == availableFilters
      ensures activeFilters == [] && picture == None && usingCamera && stickers == []
      ensures IdsArePositions(availableFilters) ==> Valid()
    {
      this.availableFilters := availableFilters;
      activeFilters := [];
      picture := None;
      usingCamera := true;
      stickers := [];
    }

    /**
     * `activate_or_deactivate_filter`: removes the filter with this id if it is
     * active, appends the registry's filter otherwise, and returns the new
     * composition description; an id outside the registry raises and changes nothing.
     */
    method ActivateOrDeactivateFilter(id: nat) returns (r: Result<string, ToggleError>)
      modifies this`activeFilters
      ensures match Toggle(old(activeFilters), availableFilters, id)
              case Ok(next) => activeFilters == next && r == Ok(Describe(next))
              case Err(e) => activeFilters == old(activeFilters) && r == Err(e)
      ensures old(Valid()) ==> Valid()
    {
      var filterIndex: Option<nat> := None;
      for index := 0 to |activeFilters|
        invariant filterIndex == LastIndexOf(activeFilters[..index], id)
      {
        assert activeFilters[..index + 1][..index] == activeFilters[..index];
        if activeFilters[index].filterId == id {
          filterIndex := Some(index);
        }
      }
      assert activeFilters[..|activeFilters|] == activeFilters;
      if Valid() {
        ToggleKeepsListValid(activeFilters, availableFilters, id);
      }
      if filterIndex.Some? {
        activeFilters := activeFilters[..filterIndex.value] + activeFilters[filterIndex.value + 1..];
      } else if id < |availableFilters| {
        activeFilters := activeFilters + [availableFilters[id]];
      } else {
        return Err(UnknownFilterId(id));
      }
      r := Ok(Describe(activeFilters));
    }

    /** `add_sticker`: the new sticker goes at the end of the list. */
    method AddSticker(sticker: Sticker)
      modifies this`stickers
      ensures stickers == old(stickers) + [sticker]
    {
      stickers := stickers + [sticker];
    }

    /**
     * `remove_sticker`: drops the oldest sticker (index 0) when there is one,
     * and asks for the remove button to be hidden whenever the list is then empty.
     */
    method RemoveSticker() returns (hideRemoveButton: bool)
      modifies this`stickers
      ensures |old(stickers)| > 0 ==> stickers == old(stickers)[1..]
      ensures |old(stickers)| == 0 ==> stickers == old(stickers)
      ensures hideRemoveButton <==> stickers == []
    {
      if |stickers| > 0 {
        stickers := stickers[1..];
      }
      hideRemoveButton := |stickers| == 0;
    }

    /** The frame a tick starts from: a camera read when using the camera, else the held picture, if any. */
    function Acquire(cameraRead: Option<Frame>): (r: Option<Frame>)
      reads this
      ensures r.Some? ==> r == cameraRead || r == picture
      ensures usingCamera ==> r == cameraRead
      ensures !usingCamera ==> r == picture
    {
      if usingCamera then cameraRead else picture
    }

    /** One tick as a value: stickers first, then the active filters, on the acquired frame. */
    function TickResult(cameraRead: Option<Frame>, lib: Library): (r: TickOutcome)
      reads this, stickers, activeFilters
      ensures r.NothingPublished? <==> Acquire(cameraRead).None?
      ensures ShapePreserving(lib) && r.Published? ==> SameShape(Acquire(cameraRead).value, r.frame)
    {
      match Acquire(cameraRead)
      case None => NothingPublished
      case Some(frame) =>
        match ApplyAll(OverlayAll(frame, stickers, lib), activeFilters, lib)
        case Ok(out) => Published(out)
        case Err(e) => Raised(e)
    }

    /** The sticker loop of `run`: each sticker is drawn on the frame, in list order. */
    method DrawStickers(frame: Frame, lib: Library) returns (drawn: Frame)
      ensures drawn == OverlayAll(frame, stickers, lib)
      ensures ShapePreserving(lib) ==> SameShape(frame, drawn)
    {
      drawn := frame;
      for i := 0 to |stickers|
        invariant drawn == OverlayAll(frame, stickers[..i], lib)
      {
        OverlayAllSnoc(frame, stickers[..i], stickers[i], lib);
        assert stickers[..i + 1] == stickers[..i] + [stickers[i]];
        drawn := lib.overlay(drawn, stickers[i].image, stickers[i].x, stickers[i].y);
      }
      assert stickers[..|stickers|] == stickers;
    }

    /** The filter loop of `run`: each active filter is applied to the previous result, in list order. */
    method ApplyActiveFilters(frame: Frame, lib: Library) returns (r: Result<Frame, FilterError>)
      ensures r == ApplyAll(frame, activeFilters, lib)
      ensures ShapePreserving(lib) && (forall f :: f in activeFilters ==> f.Valid()) ==>
                r.Ok? && SameShape(frame, r.value)
    {
      var current := frame;
      for i := 0 to |activeFilters|
        invariant ApplyAll(frame, activeFilters[..i], lib) == Ok(current)
      {
        ApplyAllSnoc(frame, activeFilters[..i], activeFilters[i], lib);
        assert activeFilters[..i + 1] == activeFilters[..i] + [activeFilters[i]];
        var next := activeFilters[i].Apply(current, lib);
        if next.Err? {
          assert ApplyAll(frame, activeFilters[..i + 1], lib) == Err(next.error);
          ApplyAllAppend(frame, activeFilters[..i + 1], activeFilters[i + 1..], lib);
          assert activeFilters[..i + 1] + activeFilters[i + 1..] == activeFilters;
          return Err(next.error);
        }
        current := next.value;
      }
      assert activeFilters[..|activeFilters|] == activeFilters;
      r := Ok(current);
      if ShapePreserving(lib) && (forall f :: f in activeFilters ==> f.Valid()) {
        ApplyAllKeepsShape(frame, activeFilters, lib);
      }
    }

    /**
     * One iteration of `run`: take the frame, draw the stickers in list order,
     * apply the active filters in list order, and publish the result.
     */
    method Tick(cameraRead: Option<Frame>, lib: Library) returns (outcome: TickOutcome)
      ensures outcome == TickResult(cameraRead, lib)
      ensures Acquire(cameraRead).None? <==> outcome == NothingPublished
      ensures ShapePreserving(lib) && Acquire(cameraRead).Some? && (forall f :: f in activeFilters ==> f.Valid()) ==>
                outcome.Published? && SameShape(Acquire(cameraRead).value, outcome.frame)
    {
      var frame: Frame;
      if usingCamera {
        if cameraRead.None? {
          return NothingPublished;
        }
        frame := cameraRead.value;
      } else if picture.Some? {
        frame := picture.value;
      } else {
        return NothingPublished;
      }
      var drawn := DrawStickers(frame, lib);
      var filtered := ApplyActiveFilters(drawn, lib);
      match filtered
      case Ok(out) => outcome := Published(out);
      case Err(e) => outcome := Raised(e);
    }

    /**
     * The loop of `run` over a sequence of camera reads, one per tick: a
     * missed frame publishes nothing and the loop goes on; a filter that
     * raises ends the loop.
     */
    method Run(cameraReads: seq<Option<Frame>>, lib: Library) returns (outcomes: seq<TickOutcome>)
      ensures |outcomes| <= |cameraReads|
      ensures forall i :: 0 <= i < |outcomes| ==> outcomes[i] == TickResult(cameraReads[i], lib)
      ensures forall i :: 0 <= i < |outcomes| - 1 ==> !outcomes[i].Raised?
      ensures |outcomes| < |cameraReads| ==> |outcomes| > 0 && outcomes[|outcomes| - 1].Raised?
    {
      outcomes := [];
      var i := 0;
      while i < |cameraReads|
        invariant 0 <= i <= |cameraReads| && |outcomes| == i
        invariant forall j :: 0 <= j < i ==> outcomes[j] == TickResult(cameraReads[j], lib)
        invariant forall j :: 0 <= j < i ==> !outcomes[j].Raised?
      {
        var o := Tick(cameraReads[i], lib);
        outcomes := outcomes + [o];
        if o.Raised? {
          return;
        }
        i := i + 1;
      }
    }
  }

  /**
   * `MainWindow.keyPressEvent`: W, A, S and D move the most recently added
   * sticker by 10 pixels; no other sticker moves, and nothing happens without stickers.
   */
  method KeyPressEvent(w: Worker, key: Key)
    modifies if |w.stickers| > 0 then {w.stickers[|w.stickers| - 1]} else {}
    ensures |w.stickers| > 0 ==>
              var last := w.stickers[|w.stickers| - 1];
              (last.x, last.y) == Nudge(key, old(last.x), old(last.y))
    ensures forall i :: 0 <= i < |w.stickers| && w.stickers[i] != w.stickers[|w.stickers| - 1] ==>
              w.stickers[i].x == old(w.stickers[i].x) && w.stickers[i].y == old(w.stickers[i].y)
  {
    if |w.stickers| > 0 {
      var last := w.stickers[|w.stickers| - 1];
      if key == KeyW {
        last.y := last.y - 10;
      }
      if key == KeyA {
        last.x := last.x - 10;
      }
      if key == KeyS {
        last.y := last.y + 10;
      }
      if key == KeyD {
        last.x := last.x + 10;
      }
    }
  }
}
