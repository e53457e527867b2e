# gif-rotate: a Dafny model of the frame sweep and the frame sampler

`gif-rotate.py` spins a still image about its y axis, or about its y and z axes
together. It writes one warped JPEG per degree into a work directory. It then
builds a looping GIF from every fourth file of that directory and shrinks it
with gifsicle. This project models the discrete half of that script:

- **`main`'s planning.** The rotation count `rot_range` defaults to 360. The
  target shape `img_shape` is set only when both the width and the height are
  given. The axis mode `img_type` is resolved. Each angle
  `0 .. rot_range-1` gets its parameters for `rotate_along_axis`, and the frame
  is written to the file named by `str(ang).zfill(3)`.
- **`make_gif`.** A loop walks the directory listing with the counter `skip`
  and keeps the entries where `skip % 4 == 0`. The kept list is then passed as
  `frames[0].save(..., append_images=frames[1:], duration=50, loop=0)`, and
  `gifsicle` is called with fixed options.

The image operations are uninterpreted parameters:

- `rotate` stands for `ImageTransformer(img_path, img_shape).rotate_along_axis(...)`.
- `open` stands for `Image.open`.
- The boolean `saveRaisesIOError` says whether the GIF save fails.

Modules:

- `Wrappers`: `Option`.
- `FrameNames`: decimal rendering, `zfill`, frame paths, and parsing names back
  to angles.
- `Sweep`: the defaults, the per-angle schedule, and the sweep loop.
- `Gif`: the sampling loop and the save and optimise calls.
- `Pipeline`: what the animation contains when the listing comes back in sweep
  order.

Behaviour to note:

- **Unrecognised `-t` value.** Anything other than exactly `"y"` (for example
  `"x"` or `"z"`) selects the yz sweep. The help text at gif-rotate.py:49-50 says
  that an invalid value falls back to y.
  `Sweep.UnrecognisedTypeSelectsYZ` states the code's behaviour.
- **Sampling order.** Frames are sampled by their position in the directory
  listing, not by angle. The listing's order is not specified, so the model
  takes it as an arbitrary sequence. The result is "every fourth angle"
  when the listing is in sweep order (`Pipeline`). Name order and angle order
  agree only up to 1000 frames (`FrameNames.NameOrderBreaksAt1000`).
- **Stride.** The stride is the constant 4. It is not configurable.
- **Rotation count.** It is not required to be at least 1. A negative `-r`
  gives an empty sweep.
- **Too few frames.** Fewer than four listed files end in an `IndexError`.
  `except IOError` does not catch it.

## Model

| member | source | states |
|---|---|---|
| `Sweep.RotRange` | gif-rotate.py:118 | a missing or zero `-r` gives 360; any other value is used as given; the result is never 0 |
| `Sweep.ImgShape` | gif-rotate.py:121 | the shape is `(w, h)` exactly when both the width and the height are given and non-zero, and `None` otherwise |
| `Sweep.ResolveMode` | gif-rotate.py:130-133 | the y sweep is chosen exactly when `-t` is omitted or is the string "y"; every other string chooses yz |
| `Sweep.ModeParams` | gif-rotate.py:133-142 | `Sweep.ParamsFor` gives the keyword arguments of each angle: y gives `phi=ang, dx=5` with theta, gamma and dy at 0; yz gives `phi=gamma=ang` with dx and dy at 0; the two modes never pass the same parameters |
| `Sweep.UnrecognisedTypeSelectsYZ` | gif-rotate.py:130-142 | any `-t` other than "y" selects yz, whose parameters differ from the y parameters at every angle |
| `Sweep.AngleCount` | gif-rotate.py:134 | `range(0, rot_range)` visits `rot_range` angles when it is positive and none otherwise |
| `Sweep.RunSweep` | gif-rotate.py:117-144 | the two sweep loops produce a sequence satisfying `Sweep.IsSweepOf`: they make one step per angle of `range(0, rot_range)`, in ascending order; step `i` calls the transformer with the resolved shape and angle `i`'s parameters and writes to angle `i`'s path; no two steps write the same path, and each path parses back to its angle |
| `Sweep.SweepPathsNameTheirAngles` | gif-rotate.py:134-144 | when step `i` writes the path of angle `i`, every path parses back to its step's angle and no two steps share a path |
| `Sweep.DefaultSweepIsFullTurn` | gif-rotate.py:118-140 | without `-r` (or with 0) the sweep visits 360 angles |
| `Sweep.NegativeRotationWritesNothing` | gif-rotate.py:134-140 | a negative `-r` visits no angle at all |
| `FrameNames.Decimal` | gif-rotate.py:138 | `str(ang)` is a non-empty string of digits with no leading zero |
| `FrameNames.ZFill` | gif-rotate.py:138 | `zfill(3)` yields `max(3, len)` characters: the original string as a suffix, with only zeros before it |
| `FrameNames.FrameName` | gif-rotate.py:138 | a frame name is all digits and at least three characters long |
| `FrameNames.FramePathParts` | gif-rotate.py:144 | the path `FrameNames.FramePath` builds is `outdir`, a '/', the frame name, and ".jpg", in that order |
| `FrameNames.ParseName` | gif-rotate.py:138 | reading a name back succeeds exactly on non-empty all-digit strings |
| `FrameNames.ParsePath` | gif-rotate.py:144 | a path that parses is `outdir`, a '/', and a name ending in ".jpg" |
| `FrameNames.ValueOfDecimal` | gif-rotate.py:138 | the decimal rendering of an angle reads back as that angle |
| `FrameNames.ValueOfPadded` | gif-rotate.py:138 | the zeros that `zfill` adds do not change the value read back |
| `FrameNames.FrameNameRoundTrip` | gif-rotate.py:138 | every frame name parses back to its angle |
| `FrameNames.FrameNameInjective` | gif-rotate.py:138 | distinct angles have distinct names |
| `FrameNames.FramePathRoundTrip` | gif-rotate.py:144 | every frame path parses back to its angle |
| `FrameNames.FramePathInjective` | gif-rotate.py:144 | distinct angles write distinct files, so no frame overwrites another |
| `FrameNames.DecimalFits` | gif-rotate.py:138 | `str(n)` has at most `k` digits exactly when `n < 10^k` |
| `FrameNames.FrameNameLength` | gif-rotate.py:138 | a name is exactly three characters long exactly when the angle is below 1000 |
| `FrameNames.NameOrderIsAngleOrder` | gif-rotate.py:138 | below 1000, string order on the names is angle order |
| `FrameNames.FramePathOrder` | gif-rotate.py:144 | below 1000, string order on the paths is angle order |
| `FrameNames.NameOrderBreaksAt1000` | gif-rotate.py:138 | "1000" sorts before "999", so name order and angle order part at 1000 frames |
| `Gif.SelectFrames` | gif-rotate.py:73-84 | the `skip` loop keeps exactly the listing entries at 0-based positions 3, 7, 11, ...: `n/4` frames, the `j`-th opened from position `4j+3`, and every kept position is at index `i/4` |
| `Gif.KeptPositionsExactly` | gif-rotate.py:79-84 | the kept positions increase strictly, lie within the listing, each has `skip % 4 == 0`, and every such position is kept |
| `Gif.SampledIsOrderedSubsequence` | gif-rotate.py:80-83 | the sample is the kept entries of the listing in their relative order |
| `Gif.SampledHasNoDuplicates` | gif-rotate.py:80-83 | if distinct listing entries open to distinct images, no frame appears twice |
| `Gif.FullTurnGives90Frames` | gif-rotate.py:76-84 | a 360-entry listing gives 90 frames, from position 3 to position 359 |
| `Gif.Assemble` | gif-rotate.py:87-97 | an empty frame list raises an uncaught `IndexError`; otherwise a failing save exits through the `IOError` handler; otherwise the save gets the first frame, then the rest as `append_images` (together exactly the list), with `format='GIF'`, `save_all`, `duration=50` and `loop=0`, and gifsicle is called on the output file with `--scale=0.7 -w` |
| `Gif.MakeGif` | gif-rotate.py:71-97 | `make_gif` assembles the sample; it crashes exactly when the listing has fewer than 4 entries; a created GIF has `n/4` frames and starts with the entry at position 3 |
| `Pipeline.SweepOrderListingKeepsEveryFourthAngle` | gif-rotate.py:133-149 | when the listing's entries open, in sweep order, to the images the sweep wrote, the animation has `rot_range/4` frames and frame `j` is the image rotated with angle `4j+3`'s parameters |
| `Pipeline.DefaultRunGives90Frames` | gif-rotate.py:76-78 | with the default rotation and a sweep-order listing, there are 90 frames, for angles 3 to 359 |
| `Pipeline.SweepPathsSortedByName` | gif-rotate.py:138-144 | with at most 1000 angles, the sweep writes its files in strictly increasing name order |

## Left out

- `image_transformer.py` is not part of this model. The focal length, the 3×4
  projection matrix and `cv2.warpPerspective` are floating-point code or
  foreign calls, so the transformer is the opaque `rotate`. One detail of the
  code: line 21 gives `d / (2·sin γ)`, and plain `d` (not `d/2`) when
  `sin γ == 0`. That value is negative for some γ.
- The image type `I` of the sweep is the image as stored in its file, so
  `Pipeline.ListedInSweepOrder` takes opening a written file to give back what
  was written. JPEG encoding is lossy; the model does not capture that loss.
- The `dz` argument of `rotate_along_axis` is not modelled: the function
  always overwrites it with the focal length.
- `check_args` and `error_check` (argparse and `os.path` checks, lines 36-68)
  are not modelled. `Args` holds values after parsing, with `None` for an
  omitted option.
- The directory listing, `glob.glob(outdir + "\\*.jpg")`, is an input
  sequence. Its order and contents are not modelled: they depend on the
  platform and on files already in the directory. With POSIX paths this
  pattern matches none of the written files.
- `Image.open`, JPEG saving, GIF encoding and gifsicle are uninterpreted.
  The save's `IOError` is a boolean input. The gifsicle call is recorded as
  its arguments.
- The printed messages and `exit(1)` are not modelled. The outcome
  constructors of `Gif.GifOutcome` stand for them.
- Directory creation, the 30-second sleep and the cleanup loop (lines 127-128
  and 152-164) are pure I/O and timing.
- `FrameNames.ZFill` does not handle a leading sign, which `str.zfill`
  treats specially. Sweep angles are never negative.
