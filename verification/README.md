# Image filter app: filters, filter registry and frame worker

This project models the core of a small PyQt desktop program. The program
shows a camera feed or a still picture, draws the user's stickers on it, and
runs every frame through an ordered list of image filters that the user
switches on and off. The parts modelled are:

- **Pixel filters** (`filters.py`): `simple_greyscale`, `greyscale_from_channel`,
  `filter_or`, `negate` and `binarize`, computed on frames of BGR pixels
  (`Frames`, `PixelFilters`).
  - Channel values are bytes, 0..255.
  - Bitwise OR and XOR are defined bit by bit on naturals (`Bits`).
  - `gaussian_blur` coerces its size to an odd number before calling OpenCV.
    That coercion is modelled (`PixelFilters.CoerceOdd`).
- **Filter instances** (`filters.py`, `ImageFilters`):
  - the `ImageFilter` class, whose parameter value is updated in place by the sliders;
  - the dispatch from a filter to its function, given the parameter exactly when one is held;
  - the ways such a call raises before reaching OpenCV: the wrong number of
    arguments, a parameter of the wrong shape, or a channel index out of range.
- **Registry** (`get_image_filter_list`, module `Registry`): the eleven
  filters with their ids, defaults and slider bounds. Each is built fresh,
  and the filter at position i has id i.
- **The worker** (`main.py`, modules `Composition` and `FrameWorker`):
  - `activate_or_deactivate_filter` and the composition text it returns;
  - adding and removing stickers;
  - one iteration of the `run` loop: acquire a frame, draw the stickers in
    order, apply the active filters in order, publish;
  - the W/A/S/D nudge of the newest sticker in `keyPressEvent`.

The toggle is specified as a function on lists (`Composition.Toggle`). The
worker's method performs the same scan and update on its own field and is
proved equal to it. The frame loop is treated the same way:
`FrameWorker.Worker.Tick` runs the loops of `run` and is proved equal to the
function `TickResult`.

Some operations are backed by OpenCV or by `overlays.overlay`:
`weighted_greyscale`, `cv.blur`, `cv.GaussianBlur`, `canny`, `embossed_edges`,
`pencil_sketch` and the sticker overlay. Their code is not part of this model.
They are passed in as function values in an `ImageFilters.Library`. The
shape lemmas assume only that these operations keep a frame's dimensions
(`ImageFilters.ShapePreserving`).

## Model

| member | source | states |
|---|---|---|
| Bits.Or | filters.py:35 | numpy's `\|` on non-negative values: the result is 0 exactly when both operands are 0; its bit-level meaning is `Bits.OrBit` |
| Bits.OrBit | filters.py:35 | bit k of `a \| b` is set exactly when bit k of a or bit k of b is set, for every k |
| Bits.OrAtLeastOperands | filters.py:34-35 | a bitwise OR is at least each of its operands |
| Bits.OrBelowPow2 | filters.py:34-35 | OR of two k-bit values is a k-bit value, so OR of two bytes is a byte |
| Bits.OrZero | filters.py:34-35 | OR with 0 leaves a value unchanged |
| Bits.OrIdempotent | filters.py:34-35 | `(a \| b) \| b == a \| b` |
| Bits.OrOfBytes | filters.py:34-35 | OR of two bytes is a byte, so `astype(np.uint8)` does not change it |
| Bits.Xor | filters.py:39 | numpy's `^` on non-negative values: the result is 0 exactly when the operands are equal; `Bits.XorAllOnes` gives its value against the all-ones mask, which is all `negate` uses |
| Bits.XorAllOnes | filters.py:38-39 | XOR with k one-bits is `2^k - 1 - a`, so `v ^ 255 == 255 - v` on a byte |
| PixelFilters.Mean | filters.py:9-11 | the mean truncated towards zero: three times it is at most the channel sum, and the sum is less than three times it plus 3 |
| PixelFilters.MeanBetweenMinAndMax | filters.py:7-13 | the truncated channel mean lies between the smallest and the largest channel |
| PixelFilters.SimpleGreyscale | filters.py:7-13 | same dimensions; every pixel becomes three copies of its truncated channel mean (`Mean`), which lies between the pixel's min and max channel |
| PixelFilters.GreyscaleFromChannel | filters.py:28-31 | succeeds exactly for channels -3..2; a negative channel counts from the end; the result is the chosen channel in all three slots; dimensions kept |
| PixelFilters.OrChannel | filters.py:35 | one channel ORed with one colour component and cast with `astype(np.uint8)`: never above the OR, and equal to it when the OR fits in a byte |
| PixelFilters.OrChannelBounds | filters.py:34-35 | a byte ORed with a byte colour stays a byte and is at least both |
| PixelFilters.FilterOr | filters.py:34-35 | same dimensions; every pixel's channels become `OrChannel` of the channel and the matching colour component (`Bits.OrBit` gives the bits); the three `FilterOr…` lemmas below add bounds, idempotence and the black identity |
| PixelFilters.FilterOrAtLeastInputAndColour | filters.py:34-35 | every channel of the OR result is at least the input channel and the colour channel |
| PixelFilters.FilterOrIdempotent | filters.py:34-35 | applying the same OR colour twice equals applying it once |
| PixelFilters.FilterOrBlackIsIdentity | filters.py:34-35 | OR with colour (0, 0, 0) returns the frame unchanged |
| PixelFilters.NegateChannel | filters.py:38-39 | `v ^ 255` on a byte is `255 - v` |
| PixelFilters.Negate | filters.py:38-39 | same dimensions; every channel becomes 255 minus itself |
| PixelFilters.NegateInvolutive | filters.py:38-39 | negating twice returns the original frame |
| PixelFilters.Binarize | filters.py:42-44 | dimensions kept only; the pixel values are stated by `PixelFilters.BinarizeIsThreshold` |
| PixelFilters.BinarizeIsThreshold | filters.py:42-44 | every output pixel is grey, either 0 or 255, and 255 exactly when the channel mean exceeds the threshold |
| PixelFilters.BinarizeBoundaryAt127 | filters.py:42-44 | at the default threshold 127, mean 127 maps to black and mean 128 to white |
| PixelFilters.CoerceOdd | filters.py:51-53 | the size is always odd; an odd size is unchanged; an even size drops by one |
| PixelFilters.CoerceOddInSliderRange | filters.py:51-53 | a slider size in 1..200 becomes an odd size in 1..199 |
| PixelFilters.CoerceOddIdempotent | filters.py:51-53 | coercing twice equals coercing once |
| ImageFilters.Call | filters.py:108-112 | the call fails with an argument-count error exactly when a parameter is passed to a one-argument function or withheld from a two-argument one; only `greyscale_from_channel` fails on a channel index |
| ImageFilters.CallWithParameter | filters.py:28-57 | a two-argument function given its parameter never fails on the argument count; a channel-index failure needs an integer channel for `greyscale_from_channel` |
| ImageFilters.Accepts | filters.py:108-112 | an accepted argument is present exactly when the function takes a parameter |
| ImageFilters.CallSucceedsIffAccepted | filters.py:108-112 | a filter function returns exactly on the arguments `Accepts` describes, with the OpenCV operations taken as total; with shape-preserving OpenCV operations the result has the input's dimensions |
| ImageFilters.GaussianBlurEvenSizeActsAsOdd | filters.py:51-53 | a Gaussian blur asked for size 16x16 gives exactly the 15x15 result |
| ImageFilters.AdmissibleIsAccepted | filters.py:92-106 | a parameter of the declared shape within safe slider bounds is one the function accepts |
| ImageFilters.ImageFilter.constructor | filters.py:92-106 | every attribute holds the constructor argument of the same name |
| ImageFilters.ImageFilter.Apply | filters.py:108-112 | no parameter means a one-argument call, and a held parameter is passed as the second argument; the call returns exactly when the held value is accepted; a well-formed filter never raises; dimensions kept |
| ImageFilters.ImageFilter.Str | filters.py:120-124 | `__str__` and `__repr__` give the display name; the composition text is built from it (see `Composition.DescribeSingle`, `Composition.DescribeAppend`) |
| ImageFilters.ImageFilter.UpdateParameterValue | filters.py:114-118 | an `INT_VALUE` parameter is replaced whole, any other has only slot `index` replaced; an in-bounds value keeps the filter well formed |
| Registry.Catalogue | filters.py:129-140 | eleven entries, and entry i has filter id i |
| Registry.CatalogueEntriesValid | filters.py:129-140 | every entry's shape matches its function, its default lies in its slider bounds, and it holds a value exactly when its shape is not `NONE` |
| Registry.GetImageFilterList | filters.py:127-141 | eleven fresh filters in catalogue order, filter i with id i, each well formed |
| Composition.Join | main.py:313 | joining no parts gives the empty text; otherwise the first part is a prefix of the result |
| Composition.JoinSnoc | main.py:313 | joining one more part appends the separator and that part |
| Composition.Describe | main.py:312-315 | every description starts with `Filter compostion: `, followed directly by the first active filter's name when there is one |
| Composition.DescribeEmpty | main.py:312-315 | an empty list describes as `Filter compostion: no filters selected.` |
| Composition.DescribeSingle | main.py:312-313 | one active filter gives the prefix and its name, with no separator |
| Composition.DescribeAppend | main.py:312-313 | appending a filter to a non-empty list appends ` > ` and its name to the text |
| Composition.LastIndexOf | main.py:301-304 | no index exactly when no filter has the id; otherwise an index holding the id with no later one |
| Composition.Toggle | main.py:300-310 | the toggle fails, with `UnknownFilterId(id)`, exactly when the id is inactive and outside the registry; a successful toggle only keeps active filters or adds the registry's filter for the id |
| Composition.ToggleInactiveAppends | main.py:308-310 | toggling an inactive registered id appends that registry filter at the end |
| Composition.ToggleActiveRemoves | main.py:306-307 | toggling an active id removes exactly that filter, keeping the others in order |
| Composition.ToggleUnknownIdFails | main.py:310 | an id outside the registry raises and the list is not changed |
| Composition.ToggleKeepsListValid | main.py:300-310 | a toggle keeps the ids distinct and every active filter the registry's own |
| Composition.ToggleTwiceInactive | main.py:300-310 | toggling an inactive id twice restores the list exactly |
| Composition.ToggleTwiceActive | main.py:300-310 | toggling an active id twice restores the same filters, with that filter moved to the end |
| Composition.ToggleAllKeepsListValid | main.py:300-310 | any sequence of toggles from a valid list leaves a valid list |
| Composition.ToggleAllFromEmpty | main.py:273 | from the empty list of a new worker, no sequence of toggles puts one id in the list twice |
| Composition.ToggleScenario | main.py:300-310 | toggling ids 0, 5 gives [filter 0, filter 5]; toggling 0 once more leaves [filter 5] |
| FrameWorker.Sticker.constructor | main.py:243 | a sticker holds its image and its top-left position |
| FrameWorker.Nudge | main.py:255-262 | a press moves along one axis only, by exactly 10 pixels for W/A/S/D and not at all for any other key |
| FrameWorker.OverlayAllSnoc | main.py:290-291 | drawing one more sticker draws it on top of the frame the others produced |
| FrameWorker.OverlayAll | main.py:290-291 | with shape-preserving overlays, drawing the stickers keeps the frame's dimensions; the drawing order is stated by `FrameWorker.OverlayAllSnoc` |
| FrameWorker.ApplyAll | main.py:292-293 | a successful chain keeps the frame's dimensions under shape-preserving operations; the order and the stop at the first error are stated by `FrameWorker.ApplyAllAppend` |
| FrameWorker.ApplyAllAppend | main.py:292-293 | applying two lists of filters in turn equals applying their concatenation, and an error stops the chain |
| FrameWorker.ApplyAllSnoc | main.py:292-293 | applying one more filter applies it to the result of the others |
| FrameWorker.ApplyAllKeepsShape | main.py:292-293 | well-formed filters over shape-preserving operations never raise and keep the dimensions |
| FrameWorker.GreyscaleThenBinarize | main.py:292-293 | the registry's Simple Greyscale followed by its Binarize (threshold 127) gives binarize at 127 of the grey frame |
| FrameWorker.Worker.constructor | main.py:269-277 | no active filters, no picture, camera in use, no stickers; over a registry indexed by id the state is valid |
| FrameWorker.Worker.ActivateOrDeactivateFilter | main.py:300-315 | the list after the scan-and-update equals `Toggle` of the old list and the result is its description; an unknown id raises and changes nothing; validity is kept |
| FrameWorker.Worker.AddSticker | main.py:317-318 | the sticker is appended at the end |
| FrameWorker.Worker.RemoveSticker | main.py:320-324 | the oldest sticker is dropped when there is one; the hide signal fires exactly when the list is then empty |
| FrameWorker.Worker.Acquire | main.py:284-288 | the frame is the camera read when the camera is in use, and the held picture otherwise |
| FrameWorker.Worker.TickResult | main.py:284-297 | nothing is published exactly when no frame is acquired; a published frame has the acquired frame's dimensions under shape-preserving operations |
| FrameWorker.Worker.DrawStickers | main.py:290-291 | the frame after the sticker loop is every sticker drawn in list order; its dimensions are kept |
| FrameWorker.Worker.ApplyActiveFilters | main.py:292-293 | the filter loop gives the chained application of the active filters, stopping at the first that raises; well-formed filters never raise and keep the dimensions |
| FrameWorker.Worker.Tick | main.py:284-297 | the outcome equals `TickResult`; nothing is published exactly when no frame was acquired; with well-formed filters and shape-preserving operations a frame of the same dimensions is published |
| FrameWorker.Worker.Run | main.py:283-298 | one outcome per read, each equal to `TickResult`; only the last outcome can be an error, and the loop stops early only after an error |
| FrameWorker.KeyPressEvent | main.py:253-262 | W/A/S/D move the newest sticker by 10 pixels; no other sticker moves; nothing happens without stickers |

## Left out

- The Qt user interface is not part of this model, except the sticker nudge of `keyPressEvent`. This covers the window, buttons, sliders, file dialogs, the slider scaling constant and the screen and image size constants.
- QThread concurrency is not modelled; each worker operation is atomic here.
- `ThreadActive` and `stop` are not modelled.
- `cv.VideoCapture`, `camera.release`, the BGR-to-RGB conversion, the `QImage` scaling and the `ImageUpdate` signal are left out, because they are I/O. A camera read is a parameter (`None` for a failed read).
- `FrameWorker.Worker.Tick`: publishes the BGR frame after the filters, before the RGB/`QImage` conversion.
- `FrameWorker.Worker.Run`: a finite sequence of camera reads stands for the unbounded `while self.ThreadActive` loop, and the worker's state does not change between ticks.
- `FrameWorker.Worker.Run`: the switching between camera and picture is left out as UI plumbing. `MainWindow.cancel_feed` and `restart_feed` assign `using_camera`, and `set_selected_image` assigns `picture` and then calls `cancel_feed`. The model holds `usingCamera` and `picture` fixed for the length of one `Run`; between runs they are public fields that a caller may assign.
- `weighted_greyscale`, `cv.blur`, `cv.GaussianBlur`, `canny`, `embossed_edges` and `pencil_sketch` are parameters (`ImageFilters.Library`). Their floating-point and OpenCV code is not modelled. The clamp `np.where(image < 255, image, 255)` in `weighted_greyscale` is one part of that code; it runs after the `uint8` cast and so never changes a value.
- `Frames.Frame`: `|pixels|` is not tied to `height * width`, and the model treats a frame with no pixels like any other. In the source, `cv.cvtColor` in `simple_greyscale`, `greyscale_from_channel` and `binarize` raises on an empty frame. Neither `camera.read()` nor `cv.imread` produces one, so frames are taken as non-empty, and "a well-formed filter never raises" is not claimed for empty frames.
- `overlays.py` (the `Sticker` class and `overlay`) is not part of this model. The sticker is a class with an image and a mutable position. `overlay` is a `Library` parameter.
- `FrameWorker.Sticker.constructor`: a sticker image is a three-channel `Frame`. The source reads stickers with `cv.IMREAD_UNCHANGED`, so they may carry an alpha channel; the alpha blending belongs to `overlay` and is not modelled.
- `get_image_filter_dict` and `test_numpy` are left out. The first is an index by display name that the worker does not use. The second is a debug stub.
- `ImageFilters.Call`: the OpenCV operations are taken as total, and `ImageFilters.Accepts` describes the argument shapes the sliders can produce. `cv.blur` and `cv.GaussianBlur` raise on a non-positive size, and a requested Gaussian size of 0 becomes -1; the model returns `Ok` for these. `cv.Canny` takes float thresholds, which the model rejects as `UnsupportedArgument`. No slider produces these values: the size and threshold bounds are the integers 1..200 and 1..300.
- `ImageFilters.CallWithParameter`: a negative or scalar OR colour is modelled as `UnsupportedArgument`, whereas numpy would broadcast it. The registry's colours are three non-negative ints.
- `ImageFilters.CallWithParameter`: the OR result takes each channel modulo 256, as `astype(np.uint8)` does; wider numpy element types are not modelled.
- `PixelFilters.Binarize`: the threshold is a single number (an int or a scaled float); a vector threshold is modelled as `UnsupportedArgument`.
- `ImageFilters.ImageFilter.UpdateParameterValue`: the index is a natural number, so numpy's negative indexing is not modelled.
- `ImageFilters.ImageFilter.UpdateParameterValue`: numpy's conversion of a float written into an int array is not modelled.
- `ImageFilters.ImageFilter.UpdateParameterValue`: the requires is what the callers guarantee: main.py creates each slider of a vector parameter with its own integer slot index within the vector, and the slider handler passes that index. An index of `None` is not modelled. On a numpy-array parameter (the weights, the OR colour, and the blur and Gaussian sizes), `arr[None] = value` does not raise; it overwrites every slot. Only Canny's plain list raises on it.
- `FrameWorker.Worker.ActivateOrDeactivateFilter`: filter ids are natural numbers, so Python's negative indexing into `available_filters` is not modelled. An id past the registry raises `IndexError` in the source; here it returns `UnknownFilterId`, with the list unchanged in both.
- `Registry.GetImageFilterList`: builds the list by a loop over the catalogue entries instead of one list literal. The result is the same eleven filters in the same order.
