/** `getAndSetUniform`: one location lookup, then exactly one of four upload
    calls, chosen by the shape of the value alone. */
module Uniforms {
  import opened Wrappers

  /** What the scene passes as `data`: a plain number or an array of numbers
      (a literal array or a glMatrix `Float32Array`). */
  datatype Value = Num(n: real) | Arr(items: seq<real>)

  /** `data.length`: an array's element count; a number has no `length`
      property, so it reads as `undefined`. */
  function Length(v: Value): (r: Option<nat>)
    ensures r.None? <==> v.Num?
    ensures r.Some? ==> r.value == |v.items|
  {
    match v
    case Num(_) => None
    case Arr(items) => Some(|items|)
  }

  /** `!data.length`: `undefined` and `0` are both falsy. */
  predicate LengthIsFalsy(v: Value)
  {
    match Length(v)
    case None => true
    case Some(n) => n == 0
  }

  /** The four WebGL upload calls the dispatch can make. `uniform1f` receives
      `data` itself; the vector calls receive a `Float32Array` copy of the
      elements; `uniformMatrix4fv` receives `transpose` and `data` itself. */
  datatype Upload<L> =
    | Uniform1f(location: L, scalar: Value)
    | Uniform3fv(location: L, elements: seq<real>)
    | Uniform4fv(location: L, elements: seq<real>)
    | UniformMatrix4fv(location: L, transpose: bool, elements: seq<real>)

  /** The device calls one dispatch makes, in order. */
  datatype Call<L> = GetUniformLocation(name: string) | Send(upload: Upload<L>)

  /** What one call leaves behind: the location it returns and the device calls it made. */
  datatype Dispatch<L> = Dispatch(location: L, calls: seq<Call<L>>)

  /** The upload a value of this shape gets, sent to `loc`. */
  function UploadFor<L>(loc: L, data: Value): (u: Upload<L>)
    ensures u.location == loc
    ensures u.Uniform1f? <==> LengthIsFalsy(data)
    ensures u.Uniform3fv? <==> Length(data) == Some(3)
    ensures u.Uniform4fv? <==> Length(data) == Some(4)
    ensures u.UniformMatrix4fv? <==> data.Arr? && |data.items| !in {0, 3, 4}
    ensures u.Uniform1f? ==> u.scalar == data
    ensures !u.Uniform1f? ==> data.Arr? && u.elements == data.items
    ensures u.UniformMatrix4fv? ==> !u.transpose
  {
    if LengthIsFalsy(data) then Uniform1f(loc, data)
    else if |data.items| == 3 then Uniform3fv(loc, data.items)
    else if |data.items| == 4 then Uniform4fv(loc, data.items)
    else UniformMatrix4fv(loc, false, data.items)
  }

  /** `getAndSetUniform(gl, program, name, data)`, with the program's
      `getUniformLocation` given as `locate`: look the name up once, upload
      once to that location, and return it. */
  function GetAndSetUniform<L>(locate: string -> L, name: string, data: Value): (r: Dispatch<L>)
    ensures r.location == locate(name)
    ensures |r.calls| == 2
    ensures r.calls[0] == GetUniformLocation(name)
    ensures r.calls[1].Send? && r.calls[1].upload.location == r.location
  {
    var a := locate(name);
    Dispatch(a, [GetUniformLocation(name), Send(UploadFor(a, data))])
  }

  /** Which upload a value of a given length takes, written independently as
      a table of element counts. */
  function UploadKind(length: Option<nat>): (k: nat)
  {
    match length
    case None => 1
    case Some(n) => if n == 0 then 1 else if n == 3 || n == 4 then n else 16
  }

  /** The kind of an upload call: 1, 3, 4 or 16 floats. */
  function KindOf<L>(u: Upload<L>): nat
  {
    match u
    case Uniform1f(_, _) => 1
    case Uniform3fv(_, _) => 3
    case Uniform4fv(_, _) => 4
    case UniformMatrix4fv(_, _, _) => 16
  }

  /** The dispatch agrees with the length table, for every value: the upload
      depends on nothing but `data.length`. */
  lemma DispatchFollowsLength<L>(locate: string -> L, name: string, data: Value)
    ensures KindOf(GetAndSetUniform(locate, name, data).calls[1].upload) == UploadKind(Length(data))
  {
  }

  /** Two values of the same length take the same upload call. */
  lemma SameLengthSameUpload<L>(locate: string -> L, name: string, v: Value, w: Value)
    requires Length(v) == Length(w)
    ensures KindOf(GetAndSetUniform(locate, name, v).calls[1].upload) == KindOf(GetAndSetUniform(locate, name, w).calls[1].upload)
  {
    DispatchFollowsLength(locate, name, v);
    DispatchFollowsLength(locate, name, w);
  }

  /** Short arrays are not treated as scalars or vectors: a one- or
      two-element array goes to `uniformMatrix4fv`. */
  lemma ShortArraysTakeMatrixPath<L>(locate: string -> L, name: string, x: real, y: real)
    ensures GetAndSetUniform(locate, name, Arr([x])).calls[1].upload == UniformMatrix4fv(locate(name), false, [x])
    ensures GetAndSetUniform(locate, name, Arr([x, y])).calls[1].upload == UniformMatrix4fv(locate(name), false, [x, y])
  {
  }
}
