/** The `Button`, `Label` and `Progress` widgets of src/graphics.rs. */
module Widgets {
  import opened Common
  import opened Graphics

  /** `get_button_size`: every button is 90 by 50 pixels. */
  const BUTTON_SIZE: Size := Size(90, 50)
  /** The background is inset by this margin on every side. */
  const BUTTON_INSET: nat := 5
  const BUTTON_CORNER: nat := 10
  /** `heapless::String<256>`: the capacity of a label's or progress text. */
  const TEXT_CAPACITY: nat := 256

  /** A button; the image it shows is reduced to its size. */
  datatype Button = Button(imageSize: Size, pos: Point, size: Size)

  /** `Button::new`. */
  function NewButton(imageSize: Size, pos: Point): (b: Button)
    ensures b.size == BUTTON_SIZE && b.pos == pos && b.imageSize == imageSize
  {
    Button(imageSize, pos, BUTTON_SIZE)
  }

  /** `Button::draw`: a rounded box inset by 5 pixels, then the image centred
      in it. The `u32` subtractions panic when the image is larger than the
      box (or the box smaller than its inset). */
  function DrawButton(b: Button): (r: Fallible<seq<DrawCmd>>)
    ensures r.Panic? <==>
      b.size.width < 2 * BUTTON_INSET || b.size.height < 2 * BUTTON_INSET ||
      b.imageSize.width + 2 * BUTTON_INSET > b.size.width ||
      b.imageSize.height + 2 * BUTTON_INSET > b.size.height
    ensures r.Ok? ==>
      |r.value| == 2 &&
      r.value[0] == RoundedBox(b.pos.x + BUTTON_INSET, b.pos.y + BUTTON_INSET,
                               b.size.width - 2 * BUTTON_INSET, b.size.height - 2 * BUTTON_INSET,
                               BUTTON_CORNER) &&
      r.value[1].ImageAt? &&
      Centred(r.value[0].x, r.value[0].width, r.value[1].x, b.imageSize.width) &&
      Centred(r.value[0].y, r.value[0].height, r.value[1].y, b.imageSize.height)
  {
    if b.size.width < 2 * BUTTON_INSET || b.size.height < 2 * BUTTON_INSET then Panic
    else
      var visibleX := b.pos.x + BUTTON_INSET;
      var visibleY := b.pos.y + BUTTON_INSET;
      var visibleW := b.size.width - 2 * BUTTON_INSET;
      var visibleH := b.size.height - 2 * BUTTON_INSET;
      if b.imageSize.width > visibleW || b.imageSize.height > visibleH then Panic
      else
        var marginX := (visibleW - b.imageSize.width) / 2;
        var marginY := (visibleH - b.imageSize.height) / 2;
        Ok([RoundedBox(visibleX, visibleY, visibleW, visibleH, BUTTON_CORNER),
            ImageAt(visibleX + marginX, visibleY + marginY)])
  }

  /** An image of extent `len` at `at` lies inside the span `[start, start +
      span)` with equal margins, or one pixel more on the far side. */
  predicate Centred(start: int, span: nat, at: int, len: nat) {
    var before := at - start;
    var after := start + span - (at + len);
    0 <= before && (after == before || after == before + 1)
  }

  /** Every button made by `new` can show any image that fits in 80 by 40. */
  lemma NewButtonDraws(imageSize: Size, pos: Point)
    requires imageSize.width <= 80 && imageSize.height <= 40
    ensures DrawButton(NewButton(imageSize, pos)).Ok?
  {
  }

  /** `display_text_with_background` as `Label::draw` uses it: the label's
      text truncated to its width, over a background box of that width. */
  function DrawLabel(text: string, pos: Point, width: nat, font: Font): (r: Fallible<seq<DrawCmd>>)
    ensures r.Panic? <==> TextWithEllipsis(width, text, font).Panic?
    ensures r.Ok? ==>
      |r.value| == 1 && r.value[0].TextWithBackground? &&
      r.value[0].x == pos.x && r.value[0].y == pos.y && r.value[0].width == width &&
      font.charWidth * |r.value[0].text| <= width &&
      (font.charWidth * |text| <= width ==> r.value[0].text == text)
    ensures r.Ok? && font.charWidth * |text| > width ==>
      font.charWidth > 0 && 3 <= width / font.charWidth < |text| &&
      r.value[0].text == text[..width / font.charWidth - 3] + ELLIPSIS
  {
    match TextWithEllipsis(width, text, font)
    case Panic => Panic
    case Ok(t) => Ok([TextWithBackground(pos.x, pos.y, t, width)])
  }

  /** A one-line text display of fixed width. */
  class Label {
    var text: string
    const pos: Point
    const width: nat
    const font: Font

    ghost predicate Valid()
      reads this
    {
      |text| <= TEXT_CAPACITY
    }

    /** `Label::new`; a text over the capacity makes `String::from` panic. */
    constructor (text: string, pos: Point, width: nat, font: Font)
      requires |text| <= TEXT_CAPACITY
      ensures Valid() && this.text == text && this.pos == pos && this.width == width && this.font == font
    {
      this.text := text;
      this.pos := pos;
      this.width := width;
      this.font := font;
    }

    /** `Label::draw`. */
    method Draw() returns (r: Fallible<seq<DrawCmd>>)
      ensures r == DrawLabel(text, pos, width, font)
    {
      var visible := TextWithEllipsis(width, text, font);
      if visible.Panic? {
        return Panic;
      }
      r := Ok([TextWithBackground(pos.x, pos.y, visible.value, width)]);
    }

    /** `Label::update_text`: replaces the text, then redraws. */
    method UpdateText(newText: string) returns (r: Fallible<seq<DrawCmd>>)
      requires Valid()
      modifies this
      ensures Valid()
      ensures |newText| > TEXT_CAPACITY ==> r == Panic
      ensures |newText| <= TEXT_CAPACITY ==> text == newText && r == DrawLabel(newText, pos, width, font)
    {
      if |newText| > TEXT_CAPACITY {
        return Panic;
      }
      text := newText;
      r := Draw();
    }
  }

  /** A text-and-image overlay; only its text is modelled. */
  class Progress {
    var text: string

    ghost predicate Valid()
      reads this
    {
      |text| <= TEXT_CAPACITY
    }

    constructor (text: string)
      requires |text| <= TEXT_CAPACITY
      ensures Valid() && this.text == text
    {
      this.text := text;
    }

    /** `Progress::update_text`: replaces the text (the redraw that follows
        is not modelled). */
    method UpdateText(newText: string) returns (r: Fallible<()>)
      requires Valid()
      modifies this
      ensures Valid()
      ensures r.Panic? <==> |newText| > TEXT_CAPACITY
      ensures r.Ok? ==> text == newText
    {
      if |newText| > TEXT_CAPACITY {
        return Panic;
      }
      text := newText;
      r := Ok(());
    }
  }
}
