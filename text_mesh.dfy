/**
 * A scene node that shows one piece of extruded text.  It owns one material and,
 * at any time, exactly one live geometry resource; changing the text builds a new
 * geometry, disposes of the old one and adopts the new one, while changing the
 * colour only retints the material.
 */
module Meshes {
  import opened Wrappers

  /** The shared font asset; it is loaded elsewhere and only passed through. */
  datatype Font = Font(name: string)

  /** A three-component vector; reals stand for the floating-point numbers of the source. */
  datatype Vector3 = Vector3(x: real, y: real, z: real)

  /** A colour as written by a caller, such as "#fff". */
  type ColorRep = string

  const DefaultText: string := ""
  const DefaultSize: real := 10.0
  const DefaultHeight: real := 1.0
  const DefaultColor: ColorRep := "#fff"
  const Origin: Vector3 := Vector3(0.0, 0.0, 0.0)
  const UnitScale: Vector3 := Vector3(1.0, 1.0, 1.0)

  /** The construction options; each field may be left out. */
  datatype Options = Options(
    text: Option<string>,
    size: Option<real>,
    height: Option<real>,
    color: Option<ColorRep>,
    translate: Option<Vector3>,
    rotate: Option<Vector3>,
    scale: Option<Vector3>)

  const NoOptions: Options := Options(None, None, None, None, None, None, None)

  /** The node's parameters once every option has been filled in. */
  datatype Params = Params(
    text: string,
    size: real,
    height: real,
    color: ColorRep,
    translate: Vector3,
    rotate: Vector3,
    scale: Vector3)

  const Defaults: Params := Params(DefaultText, DefaultSize, DefaultHeight, DefaultColor, Origin, Origin, UnitScale)

  /**
   * Fills in the options given to the constructor.  Each omitted option takes its
   * own default and each supplied option decides its own field and no other.  A
   * supplied value is kept even when it is "falsy" (an empty text, a size of 0).
   */
  function Resolve(options: Option<Options>): (p: Params)
    ensures options.None? ==> p == Defaults
    ensures options.Some? ==>
      var o := options.value;
      (o.text.None? ==> p.text == DefaultText) && (o.text.Some? ==> p.text == o.text.value) &&
      (o.size.None? ==> p.size == DefaultSize) && (o.size.Some? ==> p.size == o.size.value) &&
      (o.height.None? ==> p.height == DefaultHeight) && (o.height.Some? ==> p.height == o.height.value) &&
      (o.color.None? ==> p.color == DefaultColor) && (o.color.Some? ==> p.color == o.color.value) &&
      (o.translate.None? ==> p.translate == Origin) && (o.translate.Some? ==> p.translate == o.translate.value) &&
      (o.rotate.None? ==> p.rotate == Origin) && (o.rotate.Some? ==> p.rotate == o.rotate.value) &&
      (o.scale.None? ==> p.scale == UnitScale) && (o.scale.Some? ==> p.scale == o.scale.value)
  {
    var o := options.GetOr(NoOptions);
    Params(
      o.text.GetOr(DefaultText),
      o.size.GetOr(DefaultSize),
      o.height.GetOr(DefaultHeight),
      o.color.GetOr(DefaultColor),
      o.translate.GetOr(Origin),
      o.rotate.GetOr(Origin),
      o.scale.GetOr(UnitScale))
  }

  /** Passing no options at all is the same as passing an empty options object. */
  lemma ResolveWithoutOptions()
    ensures Resolve(None) == Resolve(Some(NoOptions)) == Defaults
  {
  }

  /** Two option objects that agree on one field resolve that field alike, whatever the others hold. */
  lemma ResolveFieldsIndependent(a: Options, b: Options)
    ensures a.text == b.text ==> Resolve(Some(a)).text == Resolve(Some(b)).text
    ensures a.size == b.size ==> Resolve(Some(a)).size == Resolve(Some(b)).size
    ensures a.height == b.height ==> Resolve(Some(a)).height == Resolve(Some(b)).height
    ensures a.color == b.color ==> Resolve(Some(a)).color == Resolve(Some(b)).color
    ensures a.translate == b.translate ==> Resolve(Some(a)).translate == Resolve(Some(b)).translate
    ensures a.rotate == b.rotate ==> Resolve(Some(a)).rotate == Resolve(Some(b)).rotate
    ensures a.scale == b.scale ==> Resolve(Some(a)).scale == Resolve(Some(b)).scale
  {
  }

  /** One in-place transformation of a geometry, recorded rather than computed. */
  datatype Transform =
    | Translate(offset: Vector3)
    | RotateX(angle: real)
    | RotateY(angle: real)
    | RotateZ(angle: real)
    | Scale(factors: Vector3)

  /** Where a geometry's vertices came from: the default shape of a `ShapeGeometry` built without arguments, or glyphs of a text. */
  datatype Source =
    | DefaultShape
    | Glyphs(text: string, font: Font, size: real, height: real)

  /** A geometry's content: its source and the transformations applied to it, in order. */
  datatype Shape = Shape(source: Source, transforms: seq<Transform>)

  /** The content of the placeholder geometry a node holds before its first build. */
  const PlaceholderShape: Shape := Shape(DefaultShape, [])

  /**
   * The geometry a build produces: the glyphs of `text` at the given size and
   * height, translated, then rotated about X, Y and Z, then scaled.
   */
  function BuiltShape(text: string, font: Font, size: real, height: real,
                      translate: Vector3, rotate: Vector3, scale: Vector3): Shape
  {
    Shape(Glyphs(text, font, size, height),
          [Translate(translate), RotateX(rotate.x), RotateY(rotate.y), RotateZ(rotate.z), Scale(scale)])
  }

  /** The transformation parameters that `BuiltShape` recorded. */
  function TransformsOf(s: Shape): Option<(Vector3, Vector3, Vector3)>
  {
    if |s.transforms| == 5 && s.transforms[0].Translate? && s.transforms[1].RotateX? &&
       s.transforms[2].RotateY? && s.transforms[3].RotateZ? && s.transforms[4].Scale?
    then Some((s.transforms[0].offset,
               Vector3(s.transforms[1].angle, s.transforms[2].angle, s.transforms[3].angle),
               s.transforms[4].factors))
    else None
  }

  /**
   * A built geometry determines every parameter it was built from: two builds
   * agree exactly when their text, font, size, height, translation, rotation and
   * scale agree, and a built geometry is never the placeholder.
   */
  lemma BuiltShapeDeterminesParams(text: string, font: Font, size: real, height: real,
                                   translate: Vector3, rotate: Vector3, scale: Vector3,
                                   text': string, font': Font, size': real, height': real,
                                   translate': Vector3, rotate': Vector3, scale': Vector3)
    ensures BuiltShape(text, font, size, height, translate, rotate, scale) != PlaceholderShape
    ensures TransformsOf(BuiltShape(text, font, size, height, translate, rotate, scale)) == Some((translate, rotate, scale))
    ensures BuiltShape(text, font, size, height, translate, rotate, scale) ==
            BuiltShape(text', font', size', height', translate', rotate', scale')
        <==> (text, font, size, height, translate, rotate, scale) ==
             (text', font', size', height', translate', rotate', scale')
  {
    var s := BuiltShape(text, font, size, height, translate, rotate, scale);
    var s' := BuiltShape(text', font', size', height', translate', rotate', scale');
    if s == s' {
      assert TransformsOf(s) == TransformsOf(s');
    }
  }

  /** A geometry resource: its content is transformed in place until it is disposed of. */
  class Geometry {
    var shape: Shape
    var disposed: bool

    /** The `ShapeGeometry`, built without arguments, that a mesh starts with. */
    constructor Placeholder()
      ensures shape == PlaceholderShape && !disposed
    {
      shape := PlaceholderShape;
      disposed := false;
    }

    /** Raw extruded glyphs of `text`, not yet transformed. */
    constructor Text(text: string, font: Font, size: real, height: real)
      ensures shape == Shape(Glyphs(text, font, size, height), []) && !disposed
    {
      shape := Shape(Glyphs(text, font, size, height), []);
      disposed := false;
    }

    method Translate(x: real, y: real, z: real)
      modifies this
      ensures shape == old(shape).(transforms := old(shape.transforms) + [Transform.Translate(Vector3(x, y, z))])
      ensures disposed == old(disposed)
    {
      shape := shape.(transforms := shape.transforms + [Transform.Translate(Vector3(x, y, z))]);
    }

    method RotateX(angle: real)
      modifies this
      ensures shape == old(shape).(transforms := old(shape.transforms) + [Transform.RotateX(angle)])
      ensures disposed == old(disposed)
    {
      shape := shape.(transforms := shape.transforms + [Transform.RotateX(angle)]);
    }

    method RotateY(angle: real)
      modifies this
      ensures shape == old(shape).(transforms := old(shape.transforms) + [Transform.RotateY(angle)])
      ensures disposed == old(disposed)
    {
      shape := shape.(transforms := shape.transforms + [Transform.RotateY(angle)]);
    }

    method RotateZ(angle: real)
      modifies this
      ensures shape == old(shape).(transforms := old(shape.transforms) + [Transform.RotateZ(angle)])
      ensures disposed == old(disposed)
    {
      shape := shape.(transforms := shape.transforms + [Transform.RotateZ(angle)]);
    }

    method Scale(x: real, y: real, z: real)
      modifies this
      ensures shape == old(shape).(transforms := old(shape.transforms) + [Transform.Scale(Vector3(x, y, z))])
      ensures disposed == old(disposed)
    {
      shape := shape.(transforms := shape.transforms + [Transform.Scale(Vector3(x, y, z))]);
    }

    /** Releases the resource; its content is left as it was. */
    method Dispose()
      modifies this
      ensures disposed && shape == old(shape)
    {
      disposed := true;
    }
  }

  /** A material's colour: the material's own default (white) or a colour set on it. */
  datatype Tint = MaterialDefault | Applied(color: ColorRep)

  /** Whether a material tint displays the colour `c`; the default white displays "#fff". */
  predicate Shows(t: Tint, c: ColorRep)
  {
    t == Applied(c) || (t == MaterialDefault && c == DefaultColor)
  }

  /** A basic material; only its colour matters here. */
  class Material {
    var color: Tint

    constructor ()
      ensures color == MaterialDefault
    {
      color := MaterialDefault;
    }

    /** Sets the colour from a colour representation. */
    method Set(c: ColorRep)
      modifies this
      ensures color == Applied(c)
    {
      color := Applied(c);
    }
  }

  /** A mesh: a replaceable geometry drawn with a fixed material. */
  class Mesh {
    var geometry: Geometry
    const material: Material

    constructor (geometry: Geometry, material: Material)
      ensures this.geometry == geometry && this.material == material
    {
      this.geometry := geometry;
      this.material := material;
    }
  }

  class TextMesh {
    const font: Font
    const material: Material
    const mesh: Mesh
    var text: string
    var size: real
    var height: real
    var color: ColorRep
    var translate: Vector3
    var rotate: Vector3
    var scale: Vector3

    /** The placeholder geometry the mesh was created with. */
    ghost const placeholder: Geometry
    /** Every geometry the mesh has ever held, the current one included. */
    ghost var owned: set<Geometry>
    ghost var Repr: set<object>

    /** The node's parameters as the getters and the builder see them. */
    function Parameters(): Params
      reads this
    {
      Params(text, size, height, color, translate, rotate, scale)
    }

    /** The geometries that have not been disposed of. */
    ghost function Live(): set<Geometry>
      reads this, owned
    {
      set g | g in owned && !g.disposed
    }

    /**
     * Ownership: the node's objects are its footprint, the mesh draws with the
     * node's material, and of all the geometries it has held only the current
     * one is undisposed.
     */
    ghost predicate Owns()
      reads this, Repr
    {
      this in Repr && material in Repr && mesh in Repr && owned <= Repr &&
      Repr == {this, material, mesh} + owned &&
      mesh.material == material &&
      placeholder in owned && placeholder.shape == PlaceholderShape &&
      mesh.geometry in owned &&
      (forall g :: g in owned ==> (g.disposed <==> g != mesh.geometry))
    }

    /** The current geometry is the build of the current parameters. */
    ghost predicate Congruent()
      reads this, mesh, mesh.geometry
    {
      mesh.geometry.shape == BuiltShape(text, font, size, height, translate, rotate, scale)
    }

    /**
     * The node's invariant once its constructor has returned: ownership, the
     * geometry matching the parameters, and the placeholder replaced.
     */
    ghost predicate Valid()
      reads this, Repr
    {
      Owns() && Congruent() && placeholder != mesh.geometry
    }

    /** The material shows the node's stored colour. */
    ghost predicate Tinted()
      reads this, material
    {
      Shows(material.color, color)
    }

    /** Exactly one geometry is live, and it is the current one. */
    lemma OneLiveGeometry()
      requires Owns()
      ensures Live() == {mesh.geometry}
    {
    }

    /**
     * Builds the node: every option is filled in, the geometry is built once and
     * the placeholder is disposed of.  The resolved colour is also applied to the
     * material (see `AsWritten` for the constructor without that step).
     */
    constructor (font: Font, options: Option<Options>)
      ensures Valid() && Tinted() && fresh(Repr)
      ensures this.font == font && Parameters() == Resolve(options)
      ensures material.color == Applied(color)
      ensures placeholder.disposed && owned == {placeholder, mesh.geometry}
    {
      var m := new Material();
      var g := new Geometry.Placeholder();
      var p := Resolve(options);
      this.font := font;
      material := m;
      mesh := new Mesh(g, m);
      text, size, height, color := p.text, p.size, p.height, p.color;
      translate, rotate, scale := p.translate, p.rotate, p.scale;
      placeholder := g;
      owned := {g};
      Repr := {this, m, mesh, g};
      new;
      UpdateText();
      material.Set(color);
    }

    /**
     * The constructor as the source writes it: the resolved colour is stored
     * but never applied to the material, which keeps its default white.
     */
    constructor AsWritten(font: Font, options: Option<Options>)
      ensures Valid() && fresh(Repr)
      ensures this.font == font && Parameters() == Resolve(options)
      ensures material.color == MaterialDefault
      ensures Tinted() <==> color == DefaultColor
      ensures placeholder.disposed && owned == {placeholder, mesh.geometry}
    {
      var m := new Material();
      var g := new Geometry.Placeholder();
      var p := Resolve(options);
      this.font := font;
      material := m;
      mesh := new Mesh(g, m);
      text, size, height, color := p.text, p.size, p.height, p.color;
      translate, rotate, scale := p.translate, p.rotate, p.scale;
      placeholder := g;
      owned := {g};
      Repr := {this, m, mesh, g};
      new;
      UpdateText();
    }

    /** The text setter: stores the text and rebuilds the geometry. */
    method SetText(value: string)
      requires Valid()
      modifies this, mesh, mesh.geometry
      ensures Valid() && fresh(Repr - old(Repr)) && Tinted() == old(Tinted())
      ensures Parameters() == old(Parameters()).(text := value)
      ensures fresh(mesh.geometry) && owned == old(owned) + {mesh.geometry}
      ensures old(mesh.geometry).disposed
      ensures material.color == old(material.color)
    {
      text := value;
      UpdateText();
    }

    /** The colour setter: stores the colour and retints the material, nothing more. */
    method SetColor(value: ColorRep)
      requires Valid()
      modifies this, material
      ensures Valid() && Tinted() && Repr == old(Repr) && owned == old(owned)
      ensures Parameters() == old(Parameters()).(color := value)
      ensures material.color == Applied(value)
      ensures mesh.geometry == old(mesh.geometry) && unchanged(mesh.geometry)
    {
      color := value;
      material.Set(color);
    }

    /**
     * Builds a geometry from the current parameters, disposes of the geometry the
     * mesh holds and adopts the new one.
     */
    method UpdateText()
      requires Owns()
      modifies this`owned, this`Repr, mesh, mesh.geometry
      ensures Owns() && Congruent() && Repr == old(Repr) + {mesh.geometry}
      ensures fresh(mesh.geometry) && owned == old(owned) + {mesh.geometry}
      ensures old(mesh.geometry).disposed
      ensures material.color == old(material.color)
    {
      var geometry := new Geometry.Text(text, font, size, height);
      geometry.Translate(translate.x, translate.y, translate.z);
      geometry.RotateX(rotate.x);
      geometry.RotateY(rotate.y);
      geometry.RotateZ(rotate.z);
      geometry.Scale(scale.x, scale.y, scale.z);

      mesh.geometry.Dispose();
      mesh.geometry := geometry;
      owned := owned + {geometry};
      Repr := Repr + {geometry};
    }
  }

  /**
   * The constructor as written leaves a supplied colour unshown: a node built
   * with colour "#f00" reports that colour while its material stays white.
   */
  method AsWrittenColorOptionUnshown() returns (node: TextMesh)
    ensures node.color == "#f00" && node.material.color == MaterialDefault
    ensures !Shows(node.material.color, node.color)
  {
    node := new TextMesh.AsWritten(Font("droid_sans_mono_regular"), Some(NoOptions.(color := Some("#f00"))));
  }

  /**
   * Any number of text assignments in a row: afterwards exactly one geometry is
   * live and it is the build of the last text with the parameters unchanged;
   * every geometry held before, the placeholder included, is disposed of.
   */
  method AssignTexts(node: TextMesh, texts: seq<string>)
    requires node.Valid()
    modifies node.Repr
    ensures node.Valid() && fresh(node.Repr - old(node.Repr)) && node.Tinted() == old(node.Tinted())
    ensures node.Live() == {node.mesh.geometry}
    ensures forall g :: g in old(node.owned) && |texts| > 0 ==> g.disposed
    ensures node.Parameters() == if |texts| == 0 then old(node.Parameters()) else old(node.Parameters()).(text := texts[|texts| - 1])
  {
    var i := 0;
    while i < |texts|
      invariant 0 <= i <= |texts|
      invariant node.Valid() && fresh(node.Repr - old(node.Repr)) && node.Tinted() == old(node.Tinted())
      invariant old(node.owned) <= node.owned
      invariant node.Parameters() == if i == 0 then old(node.Parameters()) else old(node.Parameters()).(text := texts[i - 1])
      invariant i > 0 ==> node.mesh.geometry !in old(node.owned)
    {
      node.SetText(texts[i]);
      i := i + 1;
    }
    node.OneLiveGeometry();
  }
}
