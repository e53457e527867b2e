/**
 * File names of the generated frames: `str(ang).zfill(3)` in `main`,
 * the path `outdir + '/' + name + '.jpg'`, and parsing a name back to its angle.
 */
module FrameNames {
  import opened Wrappers

  predicate IsDigit(c: char) { '0' <= c <= '9' }

  predicate AllDigits(s: string) { forall i :: 0 <= i < |s| ==> IsDigit(s[i]) }

  function DigitChar(d: nat): (c: char)
    requires d < 10
    ensures IsDigit(c) && c as int - '0' as int == d
  {
    ('0' as int + d) as char
  }

  function DigitValue(c: char): (d: nat)
    requires IsDigit(c)
    ensures d < 10 && DigitChar(d) == c
  {
    c as int - '0' as int
  }

  function Pow10(k: nat): (p: nat)
    ensures p >= 1
  {
    if k == 0 then 1 else 10 * Pow10(k - 1)
  }

  /** `str(n)` for a non-negative integer: its decimal digits, most significant first. */
  function Decimal(n: nat): (s: string)
    ensures |s| >= 1 && AllDigits(s)
    ensures |s| > 1 ==> s[0] != '0'
  {
    if n < 10 then [DigitChar(n)] else Decimal(n / 10) + [DigitChar(n % 10)]
  }

  /** The number an all-digit string denotes (leading zeros allowed), as `int(s)` reads it. */
  function ValueOf(s: string): nat
    requires AllDigits(s)
  {
    if s == [] then 0 else ValueOf(s[..|s| - 1]) * 10 + DigitValue(s[|s| - 1])
  }

  function Zeros(k: nat): (z: string)
    ensures |z| == k && AllDigits(z)
    ensures forall i :: 0 <= i < k ==> z[i] == '0'
  {
    seq(k, _ => '0')
  }

  /** `s.zfill(width)` for a string without a sign: `s` left-padded with '0' up to `width` characters. */
  function ZFill(s: string, width: nat): (r: string)
    ensures |r| == if |s| < width then width else |s|
    ensures r[|r| - |s|..] == s
    ensures forall i :: 0 <= i < |r| - |s| ==> r[i] == '0'
  {
    if |s| < width then Zeros(width - |s|) + s else s
  }

  /** The name of the frame for angle `ang`, without directory or extension. */
  function FrameName(ang: nat): (name: string)
    ensures AllDigits(name) && |name| >= 3
  {
    ZFill(Decimal(ang), 3)
  }

  /** The file the sweep writes frame `ang` to. */
  function FramePath(outdir: string, ang: nat): string
  {
    outdir + ("/" + FrameName(ang) + ".jpg")
  }

  /** A frame path is `outdir`, a '/', the frame name and ".jpg", each where it belongs. */
  lemma FramePathParts(outdir: string, ang: nat)
    ensures var p := FramePath(outdir, ang);
      && |p| == |outdir| + 1 + |FrameName(ang)| + 4
      && p[..|outdir|] == outdir && p[|outdir|] == '/'
      && p[|outdir| + 1..|p| - 4] == FrameName(ang)
      && p[|p| - 4..] == ".jpg"
  {
    PathLayout(outdir, FrameName(ang));
  }

  lemma PathLayout(dir: string, name: string)
    ensures var p := dir + ("/" + name + ".jpg");
      && |p| == |dir| + 1 + |name| + 4
      && p[..|dir|] == dir && p[|dir|] == '/'
      && p[|dir| + 1..|p| - 4] == name
      && p[|p| - 4..] == ".jpg"
  {
    var tail := "/" + name + ".jpg";
    var p := dir + tail;
    assert p[|dir|..] == tail;
    assert tail[1..|tail| - 4] == name;
    assert p[|dir| + 1..|p| - 4] == tail[1..|tail| - 4];
    assert tail[|tail| - 4..] == ".jpg";
  }

  /** `int(name)` restricted to non-empty strings of decimal digits; anything else is rejected. */
  function ParseName(name: string): (r: Option<nat>)
    ensures r.Some? <==> |name| > 0 && AllDigits(name)
  {
    if |name| > 0 && AllDigits(name) then Some(ValueOf(name)) else None
  }

  /** Recovers the angle from a path under `outdir` of the form `outdir/<digits>.jpg`. */
  function ParsePath(outdir: string, p: string): (r: Option<nat>)
    ensures r.Some? ==> |p| > |outdir| + 5 && p[..|outdir|] == outdir && p[|outdir|] == '/' && p[|p| - 4..] == ".jpg"
  {
    if |p| >= |outdir| + 5 && p[..|outdir|] == outdir && p[|outdir|] == '/' && p[|p| - 4..] == ".jpg"
    then ParseName(p[|outdir| + 1..|p| - 4])
    else None
  }

  lemma {:induction false} ValueOfDecimal(n: nat)
    ensures ValueOf(Decimal(n)) == n
  {
    if n >= 10 {
      var s := Decimal(n / 10);
      var c := DigitChar(n % 10);
      ValueOfDecimal(n / 10);
      assert (s + [c])[..|s + [c]| - 1] == s;
    }
  }

  lemma {:induction false} ValueOfZeros(k: nat)
    ensures ValueOf(Zeros(k)) == 0
  {
    if k > 0 {
      assert Zeros(k)[..k - 1] == Zeros(k - 1);
      ValueOfZeros(k - 1);
    }
  }

  /** Leading zeros do not change the value: what makes `zfill` reversible. */
  lemma {:induction false} ValueOfPadded(k: nat, s: string)
    requires AllDigits(s)
    ensures AllDigits(Zeros(k) + s) && ValueOf(Zeros(k) + s) == ValueOf(s)
  {
    var t := Zeros(k) + s;
    if s == [] {
      assert t == Zeros(k);
      ValueOfZeros(k);
    } else {
      var init := s[..|s| - 1];
      assert t[..|t| - 1] == Zeros(k) + init;
      assert t[|t| - 1] == s[|s| - 1];
      ValueOfPadded(k, init);
    }
  }

  /** Every frame name parses back to its angle. */
  lemma FrameNameRoundTrip(ang: nat)
    ensures ParseName(FrameName(ang)) == Some(ang)
  {
    var d := Decimal(ang);
    ValueOfDecimal(ang);
    if |d| < 3 {
      ValueOfPadded(3 - |d|, d);
    }
  }

  /** Distinct angles get distinct names, so no frame file overwrites another. */
  lemma FrameNameInjective(a: nat, b: nat)
    ensures FrameName(a) == FrameName(b) ==> a == b
  {
    FrameNameRoundTrip(a);
    FrameNameRoundTrip(b);
  }

  /** Every frame path parses back to its angle. */
  lemma FramePathRoundTrip(outdir: string, ang: nat)
    ensures ParsePath(outdir, FramePath(outdir, ang)) == Some(ang)
  {
    FramePathParts(outdir, ang);
    FrameNameRoundTrip(ang);
  }

  lemma FramePathInjective(outdir: string, a: nat, b: nat)
    ensures FramePath(outdir, a) == FramePath(outdir, b) ==> a == b
  {
    FramePathRoundTrip(outdir, a);
    FramePathRoundTrip(outdir, b);
  }

  /** `str(n)` has at most `k` digits exactly when `n < 10^k`. */
  lemma {:induction false} DecimalFits(n: nat, k: nat)
    requires k >= 1
    ensures |Decimal(n)| <= k <==> n < Pow10(k)
  {
    if n < 10 {
      Pow10AtLeast10(k);
    } else if k == 1 {
      assert |Decimal(n)| == |Decimal(n / 10)| + 1;
    } else {
      DecimalFits(n / 10, k - 1);
    }
  }

  lemma {:induction false} Pow10AtLeast10(k: nat)
    requires k >= 1
    ensures Pow10(k) >= 10
  {
    if k > 1 {
      Pow10AtLeast10(k - 1);
    }
  }

  /** Names have exactly three characters for angles below 1000 and more from 1000 on. */
  lemma FrameNameLength(ang: nat)
    ensures |FrameName(ang)| == 3 <==> ang < 1000
  {
    DecimalFits(ang, 3);
    assert Pow10(3) == 1000;
  }

  /** Python's `<` on strings: lexicographic by code point. */
  predicate LexLess(s: string, t: string)
  {
    if s == [] then t != []
    else if t == [] then false
    else if s[0] != t[0] then s[0] < t[0]
    else LexLess(s[1..], t[1..])
  }

  /** Below 1000 a name is exactly the angle's hundreds, tens and units digits. */
  lemma ThreeDigitName(ang: nat)
    requires ang < 1000
    ensures FrameName(ang) == [DigitChar(ang / 100), DigitChar(ang / 10 % 10), DigitChar(ang % 10)]
  {
    if ang >= 10 {
      if ang >= 100 {
        assert Decimal(ang / 100) == [DigitChar(ang / 100)];
        assert Decimal(ang / 10) == [DigitChar(ang / 100), DigitChar(ang / 10 % 10)];
      } else {
        assert Decimal(ang / 10) == [DigitChar(ang / 10)];
      }
    }
  }

  /**
   * For angles below 1000, ordering the names as strings orders the frames by angle,
   * so a listing sorted by name is in sweep order.
   */
  lemma NameOrderIsAngleOrder(a: nat, b: nat)
    requires a < b < 1000
    ensures LexLess(FrameName(a), FrameName(b))
  {
    ThreeDigitName(a);
    ThreeDigitName(b);
    DigitsOrder(a, b);
    LexLessThree(FrameName(a), FrameName(b));
  }

  /** Comparing three-digit numbers digit by digit, from the most significant. */
  lemma DigitsOrder(a: nat, b: nat)
    requires a < b < 1000
    ensures a / 100 < b / 100
         || (a / 100 == b / 100 && a / 10 % 10 < b / 10 % 10)
         || (a / 100 == b / 100 && a / 10 % 10 == b / 10 % 10 && a % 10 < b % 10)
  {
    assert a == a / 100 * 100 + a / 10 % 10 * 10 + a % 10;
    assert b == b / 100 * 100 + b / 10 % 10 * 10 + b % 10;
  }

  lemma LexLessThree(s: string, t: string)
    requires |s| == 3 && |t| == 3
    requires s[0] < t[0] || (s[0] == t[0] && s[1] < t[1]) || (s[0] == t[0] && s[1] == t[1] && s[2] < t[2])
    ensures LexLess(s, t)
  {
    if s[0] == t[0] {
      assert s[1..][0] == s[1] && t[1..][0] == t[1];
      if s[1] == t[1] {
        assert s[1..][1..] == [s[2]] && t[1..][1..] == [t[2]];
      }
    }
  }

  /** From 1000 on the name order no longer follows the angle: "1000" sorts before "999". */
  lemma NameOrderBreaksAt1000()
    ensures LexLess(FrameName(1000), FrameName(999))
  {
    assert Decimal(1000) == "1000";
    ThreeDigitName(999);
  }

  lemma {:induction false} LexLessCommonPrefix(p: string, a: string, b: string)
    requires LexLess(a, b)
    ensures LexLess(p + a, p + b)
  {
    if p != [] {
      assert (p + a)[0] == p[0] == (p + b)[0];
      assert (p + a)[1..] == p[1..] + a && (p + b)[1..] == p[1..] + b;
      LexLessCommonPrefix(p[1..], a, b);
    } else {
      assert p + a == a && p + b == b;
    }
  }

  lemma {:induction false} LexLessEqualLength(a: string, b: string, x: string, y: string)
    requires |a| == |b| && LexLess(a, b)
    ensures LexLess(a + x, b + y)
  {
    if a[0] == b[0] {
      assert (a + x)[1..] == a[1..] + x && (b + y)[1..] == b[1..] + y;
      LexLessEqualLength(a[1..], b[1..], x, y);
    }
  }

  /** Below 1000 frames, sorting the frame paths by name sorts them by angle. */
  lemma FramePathOrder(outdir: string, a: nat, b: nat)
    requires a < b < 1000
    ensures LexLess(FramePath(outdir, a), FramePath(outdir, b))
  {
    var na, nb := FrameName(a), FrameName(b);
    NameOrderIsAngleOrder(a, b);
    FrameNameLength(a);
    FrameNameLength(b);
    LexLessCommonPrefix("/", na, nb);
    LexLessEqualLength("/" + na, "/" + nb, ".jpg", ".jpg");
    LexLessCommonPrefix(outdir, "/" + na + ".jpg", "/" + nb + ".jpg");
  }
}
