/**
 * The planning half of `main`: resolving the defaults for the rotation count, the
 * target shape and the axis mode, and the sweep that writes one frame per angle.
 * Loading and warping the image (`ImageTransformer`, `rotate_along_axis`) are
 * uninterpreted: the sweep receives them as the function `rotate`. Saving is recorded
 * as the path and image of each step.
 */
module Sweep {
  import opened Wrappers
  import opened FrameNames

  /** The command-line values `main` reads; `None` is an omitted option. */
  datatype Args = Args(rotation: Option<int>, idealW: Option<int>, idealH: Option<int>, imgType: Option<string>)

  datatype AxisMode = Y | YZ

  /** The keyword arguments passed to `rotate_along_axis`; the ones not passed are 0. */
  datatype RotateParams = RotateParams(theta: int, phi: int, gamma: int, dx: int, dy: int)

  /** One iteration of the sweep: the call made, the file written and the image stored in it. */
  datatype Step<I> = Step(params: RotateParams, path: string, image: I)

  /** `rot_range`: Python's `not rotation` is true for a missing option and for 0. */
  function RotRange(rotation: Option<int>): (r: int)
    ensures r != 0
    ensures rotation.None? ==> r == 360
    ensures rotation == Some(0) ==> r == 360
    ensures rotation.Some? && rotation.value != 0 ==> r == rotation.value
  {
    if rotation.None? || rotation.value == 0 then 360 else rotation.value
  }

  /** `img_shape`: a pair only when both the width and the height are given and non-zero. */
  function ImgShape(idealW: Option<int>, idealH: Option<int>): (r: Option<(int, int)>)
    ensures r.Some? <==> idealW.Some? && idealW.value != 0 && idealH.Some? && idealH.value != 0
    ensures r.Some? ==> r.value == (idealW.value, idealH.value)
  {
    if idealW.None? || idealW.value == 0 || idealH.None? || idealH.value == 0 then None
    else Some((idealW.value, idealH.value))
  }

  /** `img_type`: a missing option becomes "y"; only the exact string "y" selects the y sweep. */
  function ResolveMode(imgType: Option<string>): (m: AxisMode)
    ensures m == Y <==> imgType.None? || imgType.value == "y"
    ensures m == YZ <==> imgType.Some? && imgType.value != "y"
  {
    var t := if imgType.None? then "y" else imgType.value;
    if t == "y" then Y else YZ
  }

  /** The parameters of angle `ang`: `phi=ang, dx=5` in the y sweep, `phi=ang, gamma=ang` otherwise. */
  function ParamsFor(mode: AxisMode, ang: nat): RotateParams
  {
    match mode
    case Y => RotateParams(theta := 0, phi := ang, gamma := 0, dx := 5, dy := 0)
    case YZ => RotateParams(theta := 0, phi := ang, gamma := ang, dx := 0, dy := 0)
  }

  /** How many angles `range(0, rot_range)` visits. */
  function AngleCount(rotRange: int): (n: nat)
    ensures rotRange <= 0 ==> n == 0
    ensures rotRange > 0 ==> n == rotRange
  {
    if rotRange > 0 then rotRange else 0
  }

  /**
   * `steps` is what the sweep performs for these arguments: one step per angle of
   * `range(0, rot_range)`, in ascending order, step `i` calling the transformer with
   * the parameters of angle `i` and writing the result to the path of angle `i`.
   */
  ghost predicate IsSweepOf<I>(args: Args, outdir: string, rotate: (Option<(int, int)>, RotateParams) -> I,
                               steps: seq<Step<I>>)
  {
    && |steps| == AngleCount(RotRange(args.rotation))
    && forall i :: 0 <= i < |steps| ==>
         && steps[i].params == ParamsFor(ResolveMode(args.imgType), i)
         && steps[i].path == FramePath(outdir, i)
         && steps[i].image == rotate(ImgShape(args.idealW, args.idealH), steps[i].params)
  }

  /**
   * The sweep of `main`: resolves the defaults, then for `ang` in `range(0, rot_range)`
   * calls the transformer and writes the result to `outdir/<zfilled ang>.jpg`.
   */
  method RunSweep<I>(args: Args, outdir: string, rotate: (Option<(int, int)>, RotateParams) -> I)
    returns (steps: seq<Step<I>>)
    ensures IsSweepOf(args, outdir, rotate, steps)
    ensures forall i, j :: 0 <= i < j < |steps| ==> steps[i].path != steps[j].path
    ensures forall i :: 0 <= i < |steps| ==> ParsePath(outdir, steps[i].path) == Some(i)
  {
    var rotRange := RotRange(args.rotation);
    var imgShape := ImgShape(args.idealW, args.idealH);
    var imgType := args.imgType;
    if imgType.None? {
      imgType := Some("y");
    }
    ghost var mode := ResolveMode(args.imgType);
    steps := [];
    if imgType.value == "y" {
      assert mode == Y;
      var ang := 0;
      while ang < rotRange
        invariant 0 <= ang <= AngleCount(rotRange) && |steps| == ang
        invariant forall i :: 0 <= i < ang ==>
          steps[i].params == ParamsFor(Y, i) && steps[i].path == FramePath(outdir, i)
          && steps[i].image == rotate(imgShape, steps[i].params)
      {
        var params := RotateParams(theta := 0, phi := ang, gamma := 0, dx := 5, dy := 0);
        assert params == ParamsFor(Y, ang);
        var rotatedImg := rotate(imgShape, params);
        steps := steps + [Step(params, FramePath(outdir, ang), rotatedImg)];
        ang := ang + 1;
      }
    } else {
      assert mode == YZ;
      var ang := 0;
      while ang < rotRange
        invariant 0 <= ang <= AngleCount(rotRange) && |steps| == ang
        invariant forall i :: 0 <= i < ang ==>
          steps[i].params == ParamsFor(YZ, i) && steps[i].path == FramePath(outdir, i)
          && steps[i].image == rotate(imgShape, steps[i].params)
      {
        var params := RotateParams(theta := 0, phi := ang, gamma := ang, dx := 0, dy := 0);
        assert params == ParamsFor(YZ, ang);
        var rotatedImg := rotate(imgShape, params);
        steps := steps + [Step(params, FramePath(outdir, ang), rotatedImg)];
        ang := ang + 1;
      }
    }
    SweepPathsNameTheirAngles(outdir, steps);
    StepsFormSweep(args, outdir, rotate, steps);
  }

  /** `IsSweepOf` unfolded; closing it through this lemma keeps the proof of `RunSweep` cheap. */
  lemma StepsFormSweep<I>(args: Args, outdir: string, rotate: (Option<(int, int)>, RotateParams) -> I,
                          steps: seq<Step<I>>)
    requires |steps| == AngleCount(RotRange(args.rotation))
    requires forall i :: 0 <= i < |steps| ==>
      && steps[i].params == ParamsFor(ResolveMode(args.imgType), i)
      && steps[i].path == FramePath(outdir, i)
      && steps[i].image == rotate(ImgShape(args.idealW, args.idealH), steps[i].params)
    ensures IsSweepOf(args, outdir, rotate, steps)
  {
  }

  /**
   * Steps whose paths are the frame paths of angles 0, 1, 2, ... write distinct
   * files, and each path parses back to its step's angle.
   */
  lemma SweepPathsNameTheirAngles<I>(outdir: string, steps: seq<Step<I>>)
    requires forall i :: 0 <= i < |steps| ==> steps[i].path == FramePath(outdir, i)
    ensures forall i :: 0 <= i < |steps| ==> ParsePath(outdir, steps[i].path) == Some(i)
    ensures forall i, j :: 0 <= i < j < |steps| ==> steps[i].path != steps[j].path
  {
    forall i | 0 <= i < |steps| ensures ParsePath(outdir, steps[i].path) == Some(i) {
      FramePathRoundTrip(outdir, i);
    }
  }

  /** Parameters of every angle in each mode; the two modes never agree (dx is 5 against 0). */
  lemma ModeParams(ang: nat)
    ensures var p := ParamsFor(Y, ang);
      p.phi == ang && p.dx == 5 && p.theta == 0 && p.gamma == 0 && p.dy == 0
    ensures var q := ParamsFor(YZ, ang);
      q.phi == ang && q.gamma == ang && q.theta == 0 && q.dx == 0 && q.dy == 0
    ensures ParamsFor(Y, ang) != ParamsFor(YZ, ang)
  {
  }

  /**
   * Any `-t` value other than "y" (including "z", and the "invalid" values the
   * help text says default to y) selects the yz sweep, whose calls all differ from the y sweep's.
   */
  lemma UnrecognisedTypeSelectsYZ(t: string, ang: nat)
    requires t != "y"
    ensures ResolveMode(Some(t)) == YZ
    ensures ParamsFor(ResolveMode(Some(t)), ang) != ParamsFor(Y, ang)
  {
  }

  /** With no rotation option (or 0) the sweep visits 360 angles, 0 to 359. */
  lemma DefaultSweepIsFullTurn(rotation: Option<int>)
    requires rotation.None? || rotation == Some(0)
    ensures AngleCount(RotRange(rotation)) == 360
  {
  }

  /** A negative rotation count gives an empty `range`, so no frame at all. */
  lemma NegativeRotationWritesNothing(r: int)
    requires r < 0
    ensures AngleCount(RotRange(Some(r))) == 0
  {
  }
}
