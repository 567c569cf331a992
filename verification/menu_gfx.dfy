/**
 The menu's drawing vocabulary: colours, the fixed palette every widget is
 built with, a widget's position, and the draw calls a menu emits for the
 renderer.
 */
module MenuGfx {
  import opened Base

  /** `Color`: one byte per channel. */
  datatype Color = Color(r: Byte, g: Byte, b: Byte)

  /** `Color::new(r, g, b)`: each channel lands in its own field. */
  function NewColor(r: Byte, g: Byte, b: Byte): (c: Color)
    ensures c.r == r && c.g == g && c.b == b
  {
    Color(r, g, b)
  }

  /** `Color::black`. */
  function Black(): (c: Color)
    ensures c.r == 0 && c.g == 0 && c.b == 0
  {
    NewColor(0, 0, 0)
  }

  /** `Palette`: the six colours a widget draws with. */
  datatype Palette = Palette(primary: Color, secondary: Color, tertiary: Color, quaternary: Color, background: Color, accent: Color)

  /** `Palette::new`: the engine's one palette. */
  function NewPalette(): (p: Palette)
    ensures p.primary == Color(222, 113, 25) && p.secondary == Color(222, 227, 226)
    ensures p.tertiary == Color(17, 105, 121) && p.quaternary == Color(0, 0, 0)
    ensures p.background == Color(255, 255, 255) && p.accent == Color(24, 176, 176)
  {
    Palette(NewColor(222, 113, 25), NewColor(222, 227, 226), NewColor(17, 105, 121),
            NewColor(0, 0, 0), NewColor(255, 255, 255), NewColor(24, 176, 176))
  }

  /** The palette's colours are pairwise distinct, so a toggle's on and off fills differ and hovering is visible. */
  lemma PaletteColoursDistinct()
    ensures var p := NewPalette();
      && p.tertiary != p.background
      && p.accent != p.primary && p.accent != p.tertiary && p.accent != p.background
      && p.quaternary == Black()
  {
  }

  /** `FormPosition`: top-left corner and size, in pixels. */
  datatype FormPosition = FormPosition(x: nat, y: nat, height: nat, width: nat)

  /** `in_position`: the box is closed on all four edges. */
  predicate InPosition(p: FormPosition, x: nat, y: nat)
  {
    x >= p.x && x <= p.x + p.width && y >= p.y && y <= p.y + p.height
  }

  /** `CbMenuDrawVirtualMachine`: one instruction for the renderer. */
  datatype DrawCall =
    | WireframeRect(position: FormPosition, color: Color)
    | FilledRect(position: FormPosition, color: Color)
    | Text(position: FormPosition, color: Color, text: string)
}
