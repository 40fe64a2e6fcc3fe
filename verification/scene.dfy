/** The top level of the page that uses the core: the default mesh, the draw
    count `sphere.length / 3`, and the uniforms set once before drawing. */
module Scene {
  import opened Wrappers
  import opened Vertices
  import opened Mesh
  import opened SuperShape
  import opened Uniforms

  /** `count = sphere.length / 3`: JavaScript division of the float array's
      length, so a length that is not a multiple of three would give a
      fraction. */
  function DrawCount(length: nat): (c: real)
    ensures 3.0 * c == length as real
  {
    length as real / 3.0
  }

  /** The mesh `createSuperShape()` builds with its default arguments. On
      this square grid the written stride and the row width coincide, so the
      corrected generator is used. */
  function Sphere<F>(sample: (nat, nat) -> Point<F>): (r: Result<seq<F>, MeshError>)
    ensures r == CreateSuperShape(sample, 70, 70)
  {
    CreateSuperShapeByRowWidth(sample, 70, 70)
  }

  /** Whenever `createSuperShape` returns, the draw count is a whole number:
      six vertices for each of the `parallels * meridians` cells. */
  lemma DrawCountIsVertexCount<F>(sample: (nat, nat) -> Point<F>, meridians: int, parallels: int)
    ensures CreateSuperShape(sample, meridians, parallels).Success? ==>
      DrawCount(|CreateSuperShape(sample, meridians, parallels).value|) ==
        (6 * (ExclusiveCount(parallels) * ExclusiveCount(meridians))) as real
  {
    if CreateSuperShape(sample, meridians, parallels).Success? {
      CreateSuperShapeLength(sample, meridians, parallels);
    }
  }

  /** With the row-width stride every grid size returns, so the draw count is
      that whole number for every grid size. */
  lemma DrawCountRowWidth<F>(sample: (nat, nat) -> Point<F>, meridians: int, parallels: int)
    ensures CreateSuperShapeByRowWidth(sample, meridians, parallels).Success?
    ensures DrawCount(|CreateSuperShapeByRowWidth(sample, meridians, parallels).value|) ==
      (6 * (ExclusiveCount(parallels) * ExclusiveCount(meridians))) as real
  {
    CreateSuperShapeByRowWidthSucceeds(sample, meridians, parallels);
  }

  /** The default call returns 88200 numbers, and `drawArrays` is asked for
      29400 vertices: 2 triangles in each of the 70 by 70 cells. */
  lemma DefaultSphere<F>(sample: (nat, nat) -> Point<F>)
    ensures Sphere(sample).Success?
    ensures |Sphere(sample).value| == 88200
    ensures DrawCount(|Sphere(sample).value|) == 29400.0
  {
    var out := CreateSuperShapeByRowWidth(sample, 70, 70);
    CreateSuperShapeByRowWidthSucceeds(sample, 70, 70);
    assert |out.value| == 18 * (70 * 70);
  }

  /** The GLSL types the shader sources declare for their uniforms. */
  datatype GlslType = Float | Vec3 | Vec4 | Mat4

  /** The declared type of each uniform the page sets, after the `Light` and
      `Material` struct members are spelled out as `light.*` and `material.*`. */
  function Declared(name: string): Option<GlslType>
  {
    if name in {"modelMat", "viewMat", "projMat", "normalMat"} then Some(Mat4)
    else if name in {"camera", "light.direction", "light.ambient", "light.diffuse", "light.specular",
                     "material.ambient", "material.diffuse", "material.specular"} then Some(Vec3)
    else if name == "light.position" then Some(Vec4)
    else if name in {"light.cutOff", "light.outerCutOff", "light.constant", "light.linear",
                     "light.quadratic", "material.shininess"} then Some(Float)
    else None
  }

  /** The upload call that a GLSL type needs. */
  function KindFor(t: GlslType): nat
  {
    match t
    case Float => 1
    case Vec3 => 3
    case Vec4 => 4
    case Mat4 => 16
  }

  /** One `getAndSetUniform` call of the page: the uniform's name and the value passed. */
  datatype Setting = Setting(name: string, data: Value)

  /** The seventeen calls made once before drawing, in source order. The view
      and projection matrices come from glMatrix and the two cut-off cosines
      from `Math.cos`; all four are parameters here. */
  function SceneSettings(view: seq<real>, proj: seq<real>, cutOff: real, outerCutOff: real): (s: seq<Setting>)
    ensures |s| == 17
    ensures forall k :: 0 <= k < |s| ==> Declared(s[k].name).Some?
  {
    [ Setting("camera", Arr([0.0, 0.0, 10.0])),
      Setting("light.position", Arr([0.0, 0.0, 10.0, 1.0])),
      Setting("light.direction", Arr([0.0, 0.0, 10.0])),
      Setting("light.ambient", Arr([0.3, 0.3, 0.3])),
      Setting("light.diffuse", Arr([1.0, 1.0, 1.0])),
      Setting("light.specular", Arr([1.0, 1.0, 1.0])),
      Setting("light.cutOff", Num(cutOff)),
      Setting("light.outerCutOff", Num(outerCutOff)),
      Setting("light.constant", Num(1.0)),
      Setting("light.linear", Num(0.007)),
      Setting("light.quadratic", Num(0.0002)),
      Setting("material.ambient", Arr([0.04, 0.68, 0.26])),
      Setting("material.diffuse", Arr([0.04, 0.68, 0.26])),
      Setting("material.specular", Arr([1.0, 1.0, 1.0])),
      Setting("material.shininess", Num(60.0)),
      Setting("viewMat", Arr(view)),
      Setting("projMat", Arr(proj)) ]
  }

  /** The device calls of a list of `getAndSetUniform` calls, one after the other. */
  function SetAll<L>(locate: string -> L, settings: seq<Setting>): seq<Call<L>>
  {
    if |settings| == 0 then []
    else GetAndSetUniform(locate, settings[0].name, settings[0].data).calls + SetAll(locate, settings[1..])
  }

  /** Each setting makes its own lookup and its own upload, in order: calls
      `2k` and `2k + 1` are those of setting `k`. */
  lemma {:induction false} SetAllLayout<L>(locate: string -> L, settings: seq<Setting>)
    ensures |SetAll(locate, settings)| == 2 * |settings|
    ensures forall k :: 0 <= k < |settings| ==>
      SetAll(locate, settings)[2 * k] == GetUniformLocation(settings[k].name) &&
      SetAll(locate, settings)[2 * k + 1] == Send(UploadFor(locate(settings[k].name), settings[k].data))
  {
    if |settings| > 0 {
      var head := GetAndSetUniform(locate, settings[0].name, settings[0].data).calls;
      var rest := SetAll(locate, settings[1..]);
      SetAllLayout(locate, settings[1..]);
      forall k | 0 < k < |settings|
        ensures (head + rest)[2 * k] == GetUniformLocation(settings[k].name)
        ensures (head + rest)[2 * k + 1] == Send(UploadFor(locate(settings[k].name), settings[k].data))
      {
        assert settings[k] == settings[1..][k - 1];
        assert 2 * k == 2 + 2 * (k - 1);
      }
    }
  }

  /** Every uniform the page sets before drawing is uploaded with the call
      its declared GLSL type needs, given matrices of sixteen entries as
      glMatrix makes them. */
  lemma SceneUploadsMatchDeclarations<L>(locate: string -> L, view: seq<real>, proj: seq<real>, cutOff: real, outerCutOff: real)
    requires |view| == 16 && |proj| == 16
    ensures var s := SceneSettings(view, proj, cutOff, outerCutOff);
      forall k :: 0 <= k < |s| ==>
        KindOf(UploadFor(locate(s[k].name), s[k].data)) == KindFor(Declared(s[k].name).value)
  {
  }
}
