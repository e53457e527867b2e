/**
 * The run of `main` from the sweep to the animation, for a directory listing whose
 * entries open, one by one, to the frames in the order they were written. The listed
 * strings themselves are not constrained: `glob` may spell the directory separator
 * differently from the sweep. The listing order of the real program is left open; this
 * module states what holds when it is sweep order.
 */
module Pipeline {
  import opened Wrappers
  import opened FrameNames
  import opened Sweep
  import opened Gif

  /** `imgs` has one entry per step of `steps`, in sweep order: entry `i` opens to the image step `i` wrote. */
  ghost predicate ListedInSweepOrder<I>(steps: seq<Step<I>>, imgs: seq<string>, open: string -> I)
  {
    |imgs| == |steps| && forall i :: 0 <= i < |steps| ==> open(imgs[i]) == steps[i].image
  }

  /**
   * Over a sweep-order listing, the animation holds the frames of angles 3, 7, 11, ...:
   * ⌊rot_range/4⌋ frames, the `j`-th rotated with the parameters of angle `4j+3`.
   */
  lemma SweepOrderListingKeepsEveryFourthAngle<I>(args: Args, outdir: string,
                                                  rotate: (Option<(int, int)>, RotateParams) -> I,
                                                  steps: seq<Step<I>>, imgs: seq<string>, open: string -> I)
    requires IsSweepOf(args, outdir, rotate, steps)
    requires ListedInSweepOrder(steps, imgs, open)
    ensures var r := Sampled(imgs, open);
      && |r| == AngleCount(RotRange(args.rotation)) / 4
      && forall j :: 0 <= j < |r| ==>
           r[j] == rotate(ImgShape(args.idealW, args.idealH), ParamsFor(ResolveMode(args.imgType), KeptIndex(j)))
  {
    var r := Sampled(imgs, open);
    forall j | 0 <= j < |r|
      ensures r[j] == rotate(ImgShape(args.idealW, args.idealH), ParamsFor(ResolveMode(args.imgType), KeptIndex(j)))
    {
      SampledIsOrderedSubsequence(imgs, open);
      assert r[j] == open(imgs[KeptIndex(j)]) == steps[KeptIndex(j)].image;
    }
  }

  /** With the defaults, a sweep-order listing gives 90 frames: angles 3 and 359 first and last. */
  lemma DefaultRunGives90Frames<I>(args: Args, outdir: string,
                                   rotate: (Option<(int, int)>, RotateParams) -> I,
                                   steps: seq<Step<I>>, imgs: seq<string>, open: string -> I)
    requires args.rotation.None? || args.rotation == Some(0)
    requires IsSweepOf(args, outdir, rotate, steps)
    requires ListedInSweepOrder(steps, imgs, open)
    ensures var r := Sampled(imgs, open);
      var shape, mode := ImgShape(args.idealW, args.idealH), ResolveMode(args.imgType);
      |r| == 90 && r[0] == rotate(shape, ParamsFor(mode, 3)) && r[89] == rotate(shape, ParamsFor(mode, 359))
  {
    SweepOrderListingKeepsEveryFourthAngle(args, outdir, rotate, steps, imgs, open);
    assert KeptIndex(0) == 3 && KeptIndex(89) == 359;
  }

  /**
   * With at most 1000 angles, the sweep writes its files in increasing string order
   * of their paths.
   */
  lemma SweepPathsSortedByName<I>(args: Args, outdir: string, rotate: (Option<(int, int)>, RotateParams) -> I,
                                  steps: seq<Step<I>>)
    requires IsSweepOf(args, outdir, rotate, steps)
    requires RotRange(args.rotation) <= 1000
    ensures forall i, j :: 0 <= i < j < |steps| ==> LexLess(steps[i].path, steps[j].path)
  {
    forall i, j | 0 <= i < j < |steps| ensures LexLess(steps[i].path, steps[j].path) {
      FramePathOrder(outdir, i, j);
    }
  }
}
