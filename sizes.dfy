/** The size presets and page geometry shared by the document builders, the
    automatic photo size of `calculate_auto_size` and the readable preset
    names of `get_size_option_name`. Python floats are exact reals here. */
module Sizes {
  import opened Common
  import PyText

  /** `SIZE_OPTIONS`: width and height in cm of each preset; `auto` has none. */
  const SizeOptions: map<string, Option<(real, real)>> := map[
    "small" := Some((3.0, 3.0)),
    "medium" := Some((5.0, 5.0)),
    "large" := Some((8.0, 8.0)),
    "auto" := None]

  const A4WidthCm: real := 21.0
  const A4HeightCm: real := 29.7
  const MarginLeftCm: real := 1.0
  const MarginRightCm: real := 1.0
  const MarginTopCm: real := 0.5
  const MarginBottomCm: real := 1.0

  /** `MAX_IMAGE_SIZE` and `DEFAULT_IMAGE_QUALITY`, the defaults of `compress_image`. */
  const MaxImageSize: nat := 1200
  const DefaultImageQuality: int := 70

  /** `max(lo, min(x, hi))`. */
  function Clamp(x: real, lo: real, hi: real): real {
    if x < lo then lo else if x > hi then hi else x
  }

  /** The clamp is the point of `[lo, hi]` nearest to `x`: it lies in the
      interval and no point of the interval is closer. */
  lemma ClampIsNearest(x: real, lo: real, hi: real, y: real)
    requires lo <= hi && lo <= y <= hi
    ensures lo <= Clamp(x, lo, hi) <= hi
    ensures Abs(Clamp(x, lo, hi) - x) <= Abs(y - x)
  {
  }

  function Abs(x: real): real { if x < 0.0 then -x else x }

  /** `calculate_auto_size(rows, cols)` with the default 17 x 25 cm area:
      90% of the smaller of the column width and the row height, kept
      between 2 and 10 cm; a zero dimension makes the division raise. */
  function CalculateAutoSize(rows: int, cols: int): (r: Result<(real, real), PyError>)
    ensures r.Failure? <==> rows == 0 || cols == 0
    ensures r.Success? ==> r.value.0 == r.value.1 && 2.0 <= r.value.0 <= 10.0
  {
    if cols == 0 || rows == 0 then Failure(ZeroDivisionError)
    else
      var size := Clamp(MinReal(17.0 / cols as real, 25.0 / rows as real) * 0.9, 2.0, 10.0);
      Success((size, size))
  }

  function MinReal(a: real, b: real): real { if a <= b then a else b }

  /** Between the clamps the automatic size is exactly 90% of the tighter
      of the two cell dimensions, and it never lets a row of `cols` photos
      overflow the 17 cm width unless the 2 cm floor forces it. */
  lemma AutoSizeFitsPage(rows: nat, cols: nat)
    requires rows > 0 && cols > 0
    ensures var s := CalculateAutoSize(rows, cols).value.0;
      && (s > 2.0 ==> s * cols as real <= 17.0 && s * rows as real <= 25.0)
      && (2.0 < s < 10.0 ==> s == MinReal(17.0 / cols as real, 25.0 / rows as real) * 0.9)
  {
    var w := 17.0 / cols as real;
    var h := 25.0 / rows as real;
    var s := CalculateAutoSize(rows, cols).value.0;
    if s > 2.0 {
      assert s <= MinReal(w, h) * 0.9;
      assert s * cols as real <= w * 0.9 * cols as real;
      assert s * rows as real <= h * 0.9 * rows as real;
    }
  }

  /** `str(x)` for a float holding a whole number, as the presets do. */
  function WholeFloatText(x: real): (t: string)
    requires x >= 0.0 && x.Floor as real == x
  {
    PyText.Decimal(x.Floor) + ".0"
  }

  /** `get_size_option_name(size_key)`. */
  function SizeOptionName(key: string): string {
    if key == "auto" then "автоматический"
    else if key in SizeOptions && SizeOptions[key].Some? then
      WholeFloatText(SizeOptions[key].value.0) + " см"
    else "неизвестный"
  }

  /** The four known keys get four different names, none of them the one
      used for an unknown key. */
  lemma SizeOptionNamesDistinct(a: string, b: string)
    requires a in SizeOptions && b in SizeOptions && a != b
    ensures SizeOptionName(a) != SizeOptionName(b)
    ensures SizeOptionName(a) != "неизвестный"
  {
    NameOf(a);
    NameOf(b);
  }

  lemma NameOf(key: string)
    requires key in SizeOptions
    ensures key == "small" ==> SizeOptionName(key) == "3.0 см"
    ensures key == "medium" ==> SizeOptionName(key) == "5.0 см"
    ensures key == "large" ==> SizeOptionName(key) == "8.0 см"
    ensures key == "small" || key == "medium" || key == "large" || key == "auto"
  {
    assert (3.0).Floor == 3 && (5.0).Floor == 5 && (8.0).Floor == 8;
    assert PyText.Decimal(3) == "3" && PyText.Decimal(5) == "5" && PyText.Decimal(8) == "8";
  }

  /** The fallback name is given exactly to the keys that are not presets. */
  lemma UnknownNameIffUnknownKey(key: string)
    ensures SizeOptionName(key) == "неизвестный" <==> key !in SizeOptions
  {
    if key in SizeOptions {
      NameOf(key);
    }
  }
}
