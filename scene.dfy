/**
 * The scene assembly: the two text nodes, the colour animation over the deep-tone
 * palette, and the per-tick fan-out that pushes each interpolated colour into the
 * colour-display text, both text tints and the background.
 */
module Scene {
  import opened Wrappers
  import opened Meshes
  import opened ColorChain

  /** A right angle in radians, as the nearest double to pi / 2. */
  const Degree90: real := 1.5707963267948966

  /** How much the text colour is brightened relative to the background. */
  const BrightenAmount: real := 3.0

  /** The options of the title node. */
  const TitleOptions: Options := Options(
    Some("[ TextGeometry Scene ]\nDEEP TONE COLOR ANIMATION"), None, None, None,
    Some(Vector3(-100.0, 50.0, 0.0)), Some(Vector3(-Degree90, 0.0, 0.0)), Some(Vector3(0.004, 0.004, 0.004)))

  /** The options of the node that shows the current colour as text. */
  const ColorTextOptions: Options := Options(
    None, Some(120.0), Some(5.0), None,
    Some(Vector3(-340.0, -100.0, 0.0)), Some(Vector3(-Degree90, 0.0, 0.0)), Some(Vector3(0.002, 0.002, 0.002)))

  /** The title keeps the default size, height and colour; the colour display starts empty and white. */
  lemma SceneNodeParameters()
    ensures Resolve(Some(TitleOptions)).size == DefaultSize && Resolve(Some(TitleOptions)).height == DefaultHeight
    ensures Resolve(Some(TitleOptions)).color == DefaultColor
    ensures Resolve(Some(ColorTextOptions)).text == DefaultText && Resolve(Some(ColorTextOptions)).color == DefaultColor
    ensures Resolve(Some(ColorTextOptions)).size == 120.0 && Resolve(Some(ColorTextOptions)).height == 5.0
  {
  }

  /** The renderer, reduced to its background clear colour. */
  class Renderer {
    var clearColor: ColorRep

    constructor ()
      ensures clearColor == "#000000"
    {
      clearColor := "#000000";
    }

    method SetClearColor(c: ColorRep)
      modifies this
      ensures clearColor == c
    {
      clearColor := c;
    }
  }

  /** The upper-case form of an ASCII character; other characters are kept. */
  function UpperChar(c: char): char
  {
    if 'a' <= c <= 'z' then (c as int - 32) as char else c
  }

  /**
   * The upper-case form of a string of ASCII characters: the same length, each
   * lower-case letter replaced by its capital, no lower-case letter left and
   * every other character kept.
   */
  function UpperCase(s: string): (r: string)
    ensures |r| == |s|
    ensures forall i :: 0 <= i < |r| ==> !('a' <= r[i] <= 'z')
    ensures forall i :: 0 <= i < |s| && !('a' <= s[i] <= 'z') ==> r[i] == s[i]
    ensures forall i :: 0 <= i < |s| && 'a' <= s[i] <= 'z' ==> r[i] as int == s[i] as int - 32
  {
    if s == [] then [] else [UpperChar(s[0])] + UpperCase(s[1..])
  }

  /**
   * One animation tick: the colour display shows the upper-case hex of the
   * value, both nodes take the same brightened colour, and the background takes
   * the value's own hex.  Only the colour display's geometry is rebuilt.
   * `hex` and `brighten` are the colour library's conversions.
   */
  method OnUpdate(value: Rgb, hex: Rgb -> ColorRep, brighten: (Rgb, real) -> Rgb,
                  colorText: TextMesh, titleText: TextMesh, renderer: Renderer)
    requires colorText.Valid() && titleText.Valid() && colorText.Repr !! titleText.Repr
    modifies colorText, colorText.mesh, colorText.mesh.geometry, colorText.material
    modifies titleText, titleText.material, renderer
    ensures colorText.Valid() && titleText.Valid() && colorText.Repr !! titleText.Repr
    ensures colorText.Tinted() && titleText.Tinted()
    ensures fresh(colorText.Repr - old(colorText.Repr)) && titleText.Repr == old(titleText.Repr)
    ensures colorText.Parameters() ==
            old(colorText.Parameters()).(text := UpperCase(hex(value)), color := hex(brighten(value, BrightenAmount)))
    ensures titleText.Parameters() == old(titleText.Parameters()).(color := hex(brighten(value, BrightenAmount)))
    ensures colorText.material.color == titleText.material.color == Applied(hex(brighten(value, BrightenAmount)))
    ensures old(colorText.mesh.geometry).disposed && fresh(colorText.mesh.geometry)
    ensures titleText.mesh.geometry == old(titleText.mesh.geometry)
    ensures renderer.clearColor == hex(value)
  {
    colorText.SetText(UpperCase(hex(value)));
    colorText.SetColor(hex(brighten(value, BrightenAmount)));
    titleText.SetColor(hex(brighten(value, BrightenAmount)));
    renderer.SetClearColor(hex(value));
  }

  /**
   * Sets the scene up: the two text nodes with their options (neither supplies a
   * colour, so their default white materials show their colour), and the colour
   * animation over the deep-tone palette, chained into a cycle with its first
   * segment playing.
   */
  method SetUp(font: Font) returns (titleText: TextMesh, colorText: TextMesh, tweens: seq<Tween>)
    ensures titleText.Valid() && colorText.Valid() && titleText.Repr !! colorText.Repr
    ensures titleText.Tinted() && colorText.Tinted()
    ensures fresh(titleText.Repr) && fresh(colorText.Repr)
    ensures titleText.Parameters() == Resolve(Some(TitleOptions)) && titleText.font == font
    ensures colorText.Parameters() == Resolve(Some(ColorTextOptions)) && colorText.font == font
    ensures |tweens| == 12 && Distinct(tweens) && Wired(tweens)
    ensures forall i :: 0 <= i < |tweens| ==> tweens[i].AsSegment() == Segments(DeepTone)[i]
    ensures forall i :: 0 <= i < |tweens| ==> (tweens[i].playing <==> i == 0)
  {
    SceneNodeParameters();
    titleText := new TextMesh.AsWritten(font, Some(TitleOptions));
    colorText := new TextMesh.AsWritten(font, Some(ColorTextOptions));
    tweens := Animate(DeepTone);
  }
}
