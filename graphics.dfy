/** Geometry, abstract drawing commands and the character-count ellipsis
    truncation of the widget toolkit (src/graphics.rs). */
module Graphics {
  import opened Common

  datatype Point = Point(x: int, y: int)

  /** An `embedded_graphics` size: two `u32` values. */
  datatype Size = Size(width: nat, height: nat)

  datatype Rect = Rect(topLeft: Point, size: Size)

  /** A monospace font, reduced to its character cell. */
  datatype Font = Font(charWidth: nat, charHeight: nat)

  /** `Rectangle::contains`: the point lies in the half-open box; an empty
      rectangle contains nothing. */
  predicate Contains(r: Rect, p: Point) {
    r.topLeft.x <= p.x < r.topLeft.x + r.size.width &&
    r.topLeft.y <= p.y < r.topLeft.y + r.size.height
  }

  /** What the widgets draw, instead of pixels. */
  datatype DrawCmd =
    | Row(index: nat, x: int, y: int, highlighted: bool, width: nat, text: string)
    | ScrollbarTrack(x: int, y: int, width: nat, height: nat)
    | ScrollbarIndicator
    | RoundedBox(x: int, y: int, width: nat, height: nat, corner: nat)
    | ImageAt(x: int, y: int)
    | TextWithBackground(x: int, y: int, text: string, width: nat)

  const ELLIPSIS: string := "..."

  /** `get_text_with_ellipsis_from_str` (and `_from_string`, which only
      delegates to it): the text is kept when `charWidth * |text|` fits in
      `width`; otherwise only `width / charWidth - 3` characters are kept and
      "..." is appended. When fewer than three characters fit, the `u32`
      subtraction underflows and the firmware panics. */
  function TextWithEllipsis(width: nat, text: string, font: Font): (r: Fallible<string>)
    ensures font.charWidth * |text| <= width <==> r == Ok(text)
    ensures r.Ok? ==> font.charWidth * |r.value| <= width
    ensures font.charWidth * |text| > width ==>
      font.charWidth > 0 &&
      (r.Panic? <==> width / font.charWidth < 3) &&
      (r.Ok? ==>
        3 <= width / font.charWidth < |text| &&
        |r.value| == width / font.charWidth &&
        r.value == text[..width / font.charWidth - 3] + ELLIPSIS)
  {
    var cw := font.charWidth;
    if cw * |text| > width then
      assert cw > 0;
      var visible := width / cw;
      if visible < 3 then Panic
      else
        TruncationBounds(width, cw, |text|);
        var kept := text[..visible - 3] + ELLIPSIS;
        assert |kept| == visible;
        Ok(kept)
    else Ok(text)
  }

  /** Helper: when the text is too wide, the characters that fit are fewer
      than the text's, and that many of them do fit. */
  lemma TruncationBounds(width: nat, cw: nat, n: nat)
    requires cw > 0 && cw * n > width
    ensures width / cw < n
    ensures cw * (width / cw) <= width
  {
    var q := width / cw;
    assert cw * q + width % cw == width;
    if q >= n {
      MulMonotone(cw, n, q);
    }
  }

  /** Helper: multiplication by a natural number is monotone. */
  lemma MulMonotone(c: nat, a: nat, b: nat)
    requires a <= b
    ensures c * a <= c * b
  {
    assert c * b == c * a + c * (b - a);
  }

  /** Truncation is idempotent: a truncated text already fits, so truncating it
      again returns it unchanged. */
  lemma TextWithEllipsisIdempotent(width: nat, text: string, font: Font)
    requires TextWithEllipsis(width, text, font).Ok?
    ensures TextWithEllipsis(width, TextWithEllipsis(width, text, font).value, font)
         == TextWithEllipsis(width, text, font)
  {
  }

  /** A 15-character text in a 100-pixel box of 10-pixel characters keeps 7
      characters and gains the ellipsis. */
  lemma TextWithEllipsisExample()
    ensures TextWithEllipsis(100, "HelloWorldExtra", Font(10, 20)) == Ok("HelloWo...")
  {
    var text := "HelloWorldExtra";
    assert |text| == 15 && 10 * |text| > 100 && 100 / 10 == 10;
    assert text[..7] == "HelloWo";
    assert text[..7] + ELLIPSIS == "HelloWo...";
  }
}
