/**
 * `make_gif`: the frame selection over a directory listing and the shape of the
 * `frames[0].save(...)` and `gifsicle(...)` calls. Opening an image is the
 * uninterpreted function `open`; whether the save raises `IOError` is a parameter.
 */
module Gif {

  /** The counter `skip` is one more than the 0-based position; an entry is kept when `skip % 4 == 0`. */
  predicate IsKeptPosition(i: nat)
  {
    (i + 1) % 4 == 0
  }

  /** The 0-based listing position of the `j`-th kept frame. */
  function KeptIndex(j: nat): nat
  {
    4 * j + 3
  }

  /** Reference definition: the opened images at positions 3, 7, 11, ... of the listing. */
  function Sampled<P, F>(imgs: seq<P>, open: P -> F): seq<F>
  {
    seq(|imgs| / 4, j requires 0 <= j < |imgs| / 4 => open(imgs[KeptIndex(j)]))
  }

  /**
   * The loop of `make_gif`: opens every entry of the listing, in listing order, and
   * appends the opened image to `frames` when the counter `skip` is a multiple of 4.
   */
  method SelectFrames<P, F>(imgs: seq<P>, open: P -> F) returns (frames: seq<F>)
    ensures frames == Sampled(imgs, open)
    ensures |frames| == |imgs| / 4
    ensures forall i :: 0 <= i < |imgs| && IsKeptPosition(i) ==> frames[i / 4] == open(imgs[i])
  {
    frames := [];
    var skip := 1;
    for n := 0 to |imgs|
      invariant skip == n + 1
      invariant |frames| == n / 4
      invariant forall j :: 0 <= j < |frames| ==> frames[j] == open(imgs[KeptIndex(j)])
    {
      var newFrame := open(imgs[n]);
      if skip % 4 == 0 {
        frames := frames + [newFrame];
      }
      skip := skip + 1;
    }
    forall i | 0 <= i < |imgs| && IsKeptPosition(i) ensures i / 4 < |frames| && frames[i / 4] == open(imgs[i]) {
      assert KeptIndex(i / 4) == i;
    }
  }

  /**
   * The listing positions of the kept frames, in the order they are kept: strictly
   * increasing, within the listing, exactly the kept positions and all of them.
   */
  lemma KeptPositionsExactly(n: nat)
    ensures forall j :: 0 <= j < n / 4 ==> KeptIndex(j) < n && IsKeptPosition(KeptIndex(j))
    ensures forall j, k :: 0 <= j < k < n / 4 ==> KeptIndex(j) < KeptIndex(k)
    ensures forall i :: 0 <= i < n && IsKeptPosition(i) ==> i / 4 < n / 4 && KeptIndex(i / 4) == i
  {
  }

  /** The sample is the listing's kept entries in their relative order, each once. */
  lemma SampledIsOrderedSubsequence<P, F>(imgs: seq<P>, open: P -> F)
    ensures var r := Sampled(imgs, open);
      && |r| == |imgs| / 4
      && (forall j :: 0 <= j < |r| ==> KeptIndex(j) < |imgs| && r[j] == open(imgs[KeptIndex(j)]))
      && (forall i :: 0 <= i < |imgs| && IsKeptPosition(i) ==> r[i / 4] == open(imgs[i]))
  {
    KeptPositionsExactly(|imgs|);
  }

  /** When distinct listing entries open to distinct images, the sample holds no duplicates. */
  lemma SampledHasNoDuplicates<P, F>(imgs: seq<P>, open: P -> F)
    requires forall i, k :: 0 <= i < k < |imgs| ==> open(imgs[i]) != open(imgs[k])
    ensures var r := Sampled(imgs, open);
      forall j, k :: 0 <= j < k < |r| ==> r[j] != r[k]
  {
    var r := Sampled(imgs, open);
    forall j, k | 0 <= j < k < |r| ensures r[j] != r[k] {
      assert KeptIndex(j) < KeptIndex(k) < |imgs|;
    }
  }

  /** A listing of 360 entries, one full turn, gives 90 frames: positions 3, 7, ..., 359. */
  lemma FullTurnGives90Frames<P, F>(imgs: seq<P>, open: P -> F)
    requires |imgs| == 360
    ensures |Sampled(imgs, open)| == 90
    ensures Sampled(imgs, open)[0] == open(imgs[3]) && Sampled(imgs, open)[89] == open(imgs[359])
  {
    SampledIsOrderedSubsequence(imgs, open);
    assert KeptIndex(0) == 3 && KeptIndex(89) == 359;
  }

  /** The arguments of `frames[0].save(outfile, format='GIF', append_images=frames[1:], save_all=True, duration=50, loop=0)`. */
  datatype SaveCall<F> = SaveCall(path: string, first: F, appendImages: seq<F>, format: string,
                                  saveAll: bool, duration: nat, loop: nat)

  /** The arguments of the `gifsicle(...)` optimisation call. */
  datatype OptimizeCall = OptimizeCall(sources: seq<string>, destination: string, optimize: bool, options: seq<string>)

  datatype GifOutcome<F> =
    | Created(save: SaveCall<F>, optimize: OptimizeCall)  // "GIF created", then gifsicle
    | CannotOpenOutput                                     // `except IOError`: message, exit(1)
    | UncaughtIndexError                                   // `frames[0]` on an empty list; not caught

  /** The save and optimise steps of `make_gif`, given the selected frames. */
  function Assemble<F>(outfile: string, frames: seq<F>, saveRaisesIOError: bool): (o: GifOutcome<F>)
    ensures o.UncaughtIndexError? <==> frames == []
    ensures o.CannotOpenOutput? <==> frames != [] && saveRaisesIOError
    ensures o.Created? ==> [o.save.first] + o.save.appendImages == frames
    ensures o.Created? ==> o.save.path == outfile && o.save.format == "GIF" && o.save.saveAll
    ensures o.Created? ==> o.save.duration == 50 && o.save.loop == 0
    ensures o.Created? ==> o.optimize == OptimizeCall([outfile], outfile, true, ["--scale=0.7", "-w"])
  {
    if |frames| == 0 then UncaughtIndexError
    else if saveRaisesIOError then CannotOpenOutput
    else Created(SaveCall(outfile, frames[0], frames[1..], "GIF", true, 50, 0),
                 OptimizeCall([outfile], outfile, true, ["--scale=0.7", "-w"]))
  }

  /** `make_gif` over a given listing of the output directory. */
  method MakeGif<P, F>(outfile: string, imgs: seq<P>, open: P -> F, saveRaisesIOError: bool)
    returns (o: GifOutcome<F>)
    ensures o == Assemble(outfile, Sampled(imgs, open), saveRaisesIOError)
    ensures o.UncaughtIndexError? <==> |imgs| < 4
    ensures o.Created? ==> 1 + |o.save.appendImages| == |imgs| / 4
    ensures o.Created? ==> o.save.first == open(imgs[3])
  {
    var frames := SelectFrames(imgs, open);
    o := Assemble(outfile, frames, saveRaisesIOError);
  }
}
