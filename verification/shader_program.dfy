/** `createShader`, `createProgram` and `createProgramFromString`: the order
    in which they drive the WebGL context, and where they stop and throw.
    The context is an oracle that answers the compile and link status
    queries and supplies the info logs. */
module ShaderProgram {
  import opened Wrappers

  datatype Stage = VertexStage | FragmentStage

  /** The context calls made, in order. Shader objects are named by their
      stage: each run creates one of each. */
  datatype Event =
    | CreateShader(stage: Stage)
    | ShaderSource(stage: Stage, source: string)
    | CompileShader(stage: Stage)
    | GetCompileStatus(stage: Stage)
    | GetShaderInfoLog(stage: Stage)
    | CreateProgram
    | AttachShader(stage: Stage)
    | LinkProgram
    | GetLinkStatus
    | GetProgramInfoLog
    | UseProgram
    | DeleteShader(stage: Stage)

  /** The context's answers. Whether a stage compiles and what its log says
      depend on the stage and its source; linking depends on both sources. */
  datatype Device = Device(
    compiles: (Stage, string) -> bool,
    shaderLog: (Stage, string) -> string,
    links: (string, string) -> bool,
    programLog: (string, string) -> string)

  /** What the functions throw. */
  datatype PipelineError =
    | CompileFailed(stage: Stage, source: string, log: string)
    | LinkFailed(log: string)

  /** The thrown string. */
  function Message(e: PipelineError): (m: string)
    ensures e.CompileFailed? ==> m == "could not compile shader:" + e.source + e.log
    ensures e.LinkFailed? ==> m == "program failed to link:" + e.log
  {
    match e
    case CompileFailed(_, source, log) => "could not compile shader:" + source + log
    case LinkFailed(log) => "program failed to link:" + log
  }

  /** A compiled shader object. */
  datatype Shader = Shader(stage: Stage, source: string)

  /** A linked program object. */
  datatype Program = Program(vertex: string, fragment: string)

  /** The outcome of a call together with the context calls it made. */
  datatype Run<T> = Run(result: Result<T, PipelineError>, trace: seq<Event>)

  /** The calls `createShader` always makes: create, set the source,
      compile, query the status. */
  function ShaderCalls(stage: Stage, source: string): seq<Event>
  {
    [CreateShader(stage), ShaderSource(stage, source), CompileShader(stage), GetCompileStatus(stage)]
  }

  /** The calls `createProgram` always makes: create, attach both, link,
      query the status. */
  function ProgramCalls(vertex: Stage, fragment: Stage): seq<Event>
  {
    [CreateProgram, AttachShader(vertex), AttachShader(fragment), LinkProgram, GetLinkStatus]
  }

  /** `createShader(gl, type, source)`. */
  function CreateShaderRun(dev: Device, stage: Stage, source: string): (r: Run<Shader>)
    ensures r.result.Success? <==> dev.compiles(stage, source)
    ensures r.result.Success? ==> r.result.value == Shader(stage, source)
    ensures r.result.Failure? ==> r.result.error == CompileFailed(stage, source, dev.shaderLog(stage, source))
    ensures r.trace == ShaderCalls(stage, source) + if r.result.Success? then [] else [GetShaderInfoLog(stage)]
  {
    if dev.compiles(stage, source) then Run(Success(Shader(stage, source)), ShaderCalls(stage, source))
    else Run(Failure(CompileFailed(stage, source, dev.shaderLog(stage, source))), ShaderCalls(stage, source) + [GetShaderInfoLog(stage)])
  }

  /** `createProgram(gl, vertex, fragment)`. */
  function CreateProgramRun(dev: Device, vertex: Shader, fragment: Shader): (r: Run<Program>)
    ensures r.result.Success? <==> dev.links(vertex.source, fragment.source)
    ensures r.result.Success? ==> r.result.value == Program(vertex.source, fragment.source)
    ensures r.result.Failure? ==> r.result.error == LinkFailed(dev.programLog(vertex.source, fragment.source))
    ensures r.trace == ProgramCalls(vertex.stage, fragment.stage) + if r.result.Success? then [] else [GetProgramInfoLog]
  {
    var calls := ProgramCalls(vertex.stage, fragment.stage);
    if dev.links(vertex.source, fragment.source) then Run(Success(Program(vertex.source, fragment.source)), calls)
    else Run(Failure(LinkFailed(dev.programLog(vertex.source, fragment.source))), calls + [GetProgramInfoLog])
  }

  /** The calls after a successful link. */
  const Finish := [UseProgram, DeleteShader(VertexStage), DeleteShader(FragmentStage)]

  /** `createProgramFromString(gl, vertex, fragment)`: compile the vertex
      stage, then the fragment stage, then link; on success make the program
      current and delete both shader objects. The first throw ends the run. */
  function CreateProgramFromString(dev: Device, vertex: string, fragment: string): (r: Run<Program>)
    ensures r.result.Success? <==>
      dev.compiles(VertexStage, vertex) && dev.compiles(FragmentStage, fragment) && dev.links(vertex, fragment)
    ensures r.result.Success? ==> r.result.value == Program(vertex, fragment)
    ensures !dev.compiles(VertexStage, vertex) ==>
      r.result == Failure(CompileFailed(VertexStage, vertex, dev.shaderLog(VertexStage, vertex)))
    ensures dev.compiles(VertexStage, vertex) && !dev.compiles(FragmentStage, fragment) ==>
      r.result == Failure(CompileFailed(FragmentStage, fragment, dev.shaderLog(FragmentStage, fragment)))
    ensures dev.compiles(VertexStage, vertex) && dev.compiles(FragmentStage, fragment) && !dev.links(vertex, fragment) ==>
      r.result == Failure(LinkFailed(dev.programLog(vertex, fragment)))
  {
    var vs := CreateShaderRun(dev, VertexStage, vertex);
    match vs.result
    case Failure(e) => Run(Failure(e), vs.trace)
    case Success(v) =>
      var fs := CreateShaderRun(dev, FragmentStage, fragment);
      match fs.result
      case Failure(e) => Run(Failure(e), vs.trace + fs.trace)
      case Success(f) =>
        var ps := CreateProgramRun(dev, v, f);
        match ps.result
        case Failure(e) => Run(Failure(e), vs.trace + fs.trace + ps.trace)
        case Success(p) =>
          Run(Success(p), vs.trace + fs.trace + ps.trace + Finish)
  }

  /** The shader object a call concerns, if any. */
  function StageOf(e: Event): Option<Stage>
  {
    match e
    case CreateShader(st) => Some(st)
    case ShaderSource(st, _) => Some(st)
    case CompileShader(st) => Some(st)
    case GetCompileStatus(st) => Some(st)
    case GetShaderInfoLog(st) => Some(st)
    case AttachShader(st) => Some(st)
    case DeleteShader(st) => Some(st)
    case _ => None
  }

  /** The whole trace in each of the four ways a run can end. */
  lemma TraceCases(dev: Device, vertex: string, fragment: string)
    ensures var t := CreateProgramFromString(dev, vertex, fragment).trace;
      !dev.compiles(VertexStage, vertex) ==> t == ShaderCalls(VertexStage, vertex) + [GetShaderInfoLog(VertexStage)]
    ensures var t := CreateProgramFromString(dev, vertex, fragment).trace;
      dev.compiles(VertexStage, vertex) && !dev.compiles(FragmentStage, fragment) ==>
        t == ShaderCalls(VertexStage, vertex) + ShaderCalls(FragmentStage, fragment) + [GetShaderInfoLog(FragmentStage)]
    ensures var t := CreateProgramFromString(dev, vertex, fragment).trace;
      dev.compiles(VertexStage, vertex) && dev.compiles(FragmentStage, fragment) && !dev.links(vertex, fragment) ==>
        t == ShaderCalls(VertexStage, vertex) + ShaderCalls(FragmentStage, fragment) +
             ProgramCalls(VertexStage, FragmentStage) + [GetProgramInfoLog]
    ensures var t := CreateProgramFromString(dev, vertex, fragment).trace;
      dev.compiles(VertexStage, vertex) && dev.compiles(FragmentStage, fragment) && dev.links(vertex, fragment) ==>
        t == ShaderCalls(VertexStage, vertex) + ShaderCalls(FragmentStage, fragment) +
             ProgramCalls(VertexStage, FragmentStage) + Finish
  {
    var fs := CreateShaderRun(dev, FragmentStage, fragment);
    assert fs.result.Success? ==> fs.trace == ShaderCalls(FragmentStage, fragment) + [];
    var ps := CreateProgramRun(dev, Shader(VertexStage, vertex), Shader(FragmentStage, fragment));
    assert ps.result.Success? ==> ps.trace == ProgramCalls(VertexStage, FragmentStage) + [];
    var vs := CreateShaderRun(dev, VertexStage, vertex);
    assert vs.result.Success? ==> vs.trace == ShaderCalls(VertexStage, vertex) + [];
  }

  /** A run whose vertex stage fails to compile makes five calls, all on
      the vertex shader. */
  lemma VertexCompileFailure(dev: Device, vertex: string, fragment: string)
    requires !dev.compiles(VertexStage, vertex)
    ensures var t := CreateProgramFromString(dev, vertex, fragment).trace;
      |t| == 5 && t[2] == CompileShader(VertexStage) && forall k :: 0 <= k < |t| ==> StageOf(t[k]) == Some(VertexStage)
    ensures var t := CreateProgramFromString(dev, vertex, fragment).trace;
      forall k :: 0 <= k < |t| ==> t[k] != LinkProgram && t[k] != UseProgram && !t[k].DeleteShader?
  {
    TraceCases(dev, vertex, fragment);
  }

  /** A run whose fragment stage fails to compile makes nine calls, all on
      the two shaders, the vertex ones first. */
  lemma FragmentCompileFailure(dev: Device, vertex: string, fragment: string)
    requires dev.compiles(VertexStage, vertex) && !dev.compiles(FragmentStage, fragment)
    ensures var t := CreateProgramFromString(dev, vertex, fragment).trace;
      |t| == 9 && t[2] == CompileShader(VertexStage) && t[6] == CompileShader(FragmentStage) &&
      (forall k :: 0 <= k < 4 ==> StageOf(t[k]) == Some(VertexStage)) &&
      (forall k :: 4 <= k < 9 ==> StageOf(t[k]) == Some(FragmentStage))
    ensures var t := CreateProgramFromString(dev, vertex, fragment).trace;
      forall k :: 0 <= k < |t| ==> t[k] != LinkProgram && t[k] != UseProgram && !t[k].DeleteShader?
  {
    TraceCases(dev, vertex, fragment);
  }

  /** A run whose link fails makes fourteen calls and stops after the
      program log query. */
  lemma LinkFailure(dev: Device, vertex: string, fragment: string)
    requires dev.compiles(VertexStage, vertex) && dev.compiles(FragmentStage, fragment) && !dev.links(vertex, fragment)
    ensures var t := CreateProgramFromString(dev, vertex, fragment).trace;
      |t| == 14 && t[2] == CompileShader(VertexStage) && t[6] == CompileShader(FragmentStage) &&
      t[11] == LinkProgram && t[13] == GetProgramInfoLog &&
      forall k :: 0 <= k < |t| ==> t[k] != UseProgram && !t[k].DeleteShader?
  {
    TraceCases(dev, vertex, fragment);
    var t := CreateProgramFromString(dev, vertex, fragment).trace;
    forall k | 0 <= k < |t|
      ensures t[k] != UseProgram && !t[k].DeleteShader?
    {
      if k < 8 {
        assert t[k] == (ShaderCalls(VertexStage, vertex) + ShaderCalls(FragmentStage, fragment))[k];
      } else {
        assert t[k] == (ProgramCalls(VertexStage, FragmentStage) + [GetProgramInfoLog])[k - 8];
      }
    }
  }

  /** A successful run makes sixteen calls, linking at call 11 and ending
      with `useProgram`, delete vertex, delete fragment. */
  lemma Linked(dev: Device, vertex: string, fragment: string)
    requires dev.compiles(VertexStage, vertex) && dev.compiles(FragmentStage, fragment) && dev.links(vertex, fragment)
    ensures var t := CreateProgramFromString(dev, vertex, fragment).trace;
      |t| == 16 && t[2] == CompileShader(VertexStage) && t[6] == CompileShader(FragmentStage) &&
      t[11] == LinkProgram && t[13..] == [UseProgram, DeleteShader(VertexStage), DeleteShader(FragmentStage)]
  {
    TraceCases(dev, vertex, fragment);
  }

  /** Where the run stops, and what it never does after stopping:
      the vertex stage is compiled before the fragment stage; a vertex
      compile failure never touches the fragment stage; a compile failure
      never links; a link failure never makes the program current; only a
      successful run deletes shaders, and it ends with `useProgram` and the
      two deletions in that order. */
  lemma CreateProgramFromStringOrder(dev: Device, vertex: string, fragment: string)
    ensures var t := CreateProgramFromString(dev, vertex, fragment).trace;
      |t| >= 4 && t[2] == CompileShader(VertexStage) &&
      (dev.compiles(VertexStage, vertex) ==> |t| >= 8 && t[6] == CompileShader(FragmentStage))
    ensures var t := CreateProgramFromString(dev, vertex, fragment).trace;
      !dev.compiles(VertexStage, vertex) ==> forall k :: 0 <= k < |t| ==> StageOf(t[k]) == Some(VertexStage)
    ensures var t := CreateProgramFromString(dev, vertex, fragment).trace;
      !(dev.compiles(VertexStage, vertex) && dev.compiles(FragmentStage, fragment)) ==> LinkProgram !in t
    ensures var t := CreateProgramFromString(dev, vertex, fragment).trace;
      !dev.links(vertex, fragment) ==> UseProgram !in t
    ensures var r := CreateProgramFromString(dev, vertex, fragment);
      r.result.Failure? ==> forall k :: 0 <= k < |r.trace| ==> !r.trace[k].DeleteShader? && r.trace[k] != UseProgram
    ensures var r := CreateProgramFromString(dev, vertex, fragment);
      r.result.Success? ==>
        (|r.trace| == 16 && r.trace[13..] == [UseProgram, DeleteShader(VertexStage), DeleteShader(FragmentStage)])
  {
    if !dev.compiles(VertexStage, vertex) {
      VertexCompileFailure(dev, vertex, fragment);
    } else if !dev.compiles(FragmentStage, fragment) {
      FragmentCompileFailure(dev, vertex, fragment);
    } else if !dev.links(vertex, fragment) {
      LinkFailure(dev, vertex, fragment);
    } else {
      Linked(dev, vertex, fragment);
    }
  }

  // ---------------------------------------------------------------------
  // Reference: the lifetime of the context's shader and program objects.
  // ---------------------------------------------------------------------

  /** What the context knows about the objects one run creates: the source
      and compile outcome of each shader, what is attached, the link
      outcome, whether the program is current and which shaders are deleted. */
  datatype Objects = Objects(
    created: set<Stage>,
    sources: map<Stage, string>,
    compiled: map<Stage, bool>,
    program: bool,
    attached: set<Stage>,
    linked: Option<bool>,
    current: bool,
    deleted: set<Stage>)

  const Fresh := Objects({}, map[], map[], false, {}, None, false, {})

  /** One context call against the objects, or `None` when the call is out
      of order: a shader used before it is created or after it is deleted,
      compiled before it has a source, attached unless it compiled, a
      program linked before both stages are attached, or made current
      unless it linked. */
  function Step(dev: Device, o: Objects, e: Event): Option<Objects>
  {
    match e
    case CreateShader(st) =>
      if st in o.created then None else Some(o.(created := o.created + {st}))
    case ShaderSource(st, src) =>
      if st !in o.created || st in o.deleted then None else Some(o.(sources := o.sources[st := src]))
    case CompileShader(st) =>
      if st !in o.sources || st in o.deleted then None
      else Some(o.(compiled := o.compiled[st := dev.compiles(st, o.sources[st])]))
    case GetCompileStatus(st) =>
      if st !in o.compiled || st in o.deleted then None else Some(o)
    case GetShaderInfoLog(st) =>
      if st !in o.compiled || st in o.deleted then None else Some(o)
    case CreateProgram =>
      if o.program then None else Some(o.(program := true))
    case AttachShader(st) =>
      if !o.program || st !in o.compiled || !o.compiled[st] || st in o.attached || st in o.deleted then None
      else Some(o.(attached := o.attached + {st}))
    case LinkProgram =>
      if !o.program || o.attached != {VertexStage, FragmentStage} ||
         VertexStage !in o.sources || FragmentStage !in o.sources then None
      else Some(o.(linked := Some(dev.links(o.sources[VertexStage], o.sources[FragmentStage]))))
    case GetLinkStatus =>
      if o.linked.None? then None else Some(o)
    case GetProgramInfoLog =>
      if o.linked.None? then None else Some(o)
    case UseProgram =>
      if o.linked != Some(true) then None else Some(o.(current := true))
    case DeleteShader(st) =>
      if st !in o.created || st in o.deleted then None else Some(o.(deleted := o.deleted + {st}))
  }

  /** The objects after a sequence of calls, or `None` if one is out of order. */
  function Replay(dev: Device, o: Objects, t: seq<Event>): Option<Objects>
    decreases |t|
  {
    if |t| == 0 then Some(o)
    else match Step(dev, o, t[0])
      case None => None
      case Some(o') => Replay(dev, o', t[1..])
  }

  /** Replaying two pieces is replaying the first and then the second from where it left off. */
  lemma {:induction false} ReplayAppend(dev: Device, o: Objects, a: seq<Event>, b: seq<Event>)
    ensures Replay(dev, o, a + b) ==
      match Replay(dev, o, a)
      case None => None
      case Some(o') => Replay(dev, o', b)
    decreases |a|
  {
    if |a| > 0 {
      assert (a + b)[0] == a[0];
      assert (a + b)[1..] == a[1..] + b;
      match Step(dev, o, a[0])
      case None =>
      case Some(o') => ReplayAppend(dev, o', a[1..], b);
    } else {
      assert a + b == b;
    }
  }

  /** Replaying a call followed by more calls. */
  lemma ReplayStep(dev: Device, o: Objects, e: Event, t: seq<Event>, o': Objects)
    requires Step(dev, o, e) == Some(o')
    ensures Replay(dev, o, [e] + t) == Replay(dev, o', t)
  {
    assert ([e] + t)[0] == e;
    assert ([e] + t)[1..] == t;
  }

  /** `createShader` on a stage not yet created leaves that shader created,
      holding its source and its compile outcome, and nothing else changed. */
  lemma ShaderRunReplay(dev: Device, o: Objects, stage: Stage, source: string)
    requires stage !in o.created && stage !in o.deleted
    ensures Replay(dev, o, CreateShaderRun(dev, stage, source).trace) ==
      Some(o.(created := o.created + {stage}, sources := o.sources[stage := source],
              compiled := o.compiled[stage := dev.compiles(stage, source)]))
  {
    var o1 := o.(created := o.created + {stage});
    var o2 := o1.(sources := o.sources[stage := source]);
    var o3 := o2.(compiled := o.compiled[stage := dev.compiles(stage, source)]);
    var tail: seq<Event> := if dev.compiles(stage, source) then [] else [GetShaderInfoLog(stage)];
    assert CreateShaderRun(dev, stage, source).trace ==
      [CreateShader(stage)] + ([ShaderSource(stage, source)] + ([CompileShader(stage)] + ([GetCompileStatus(stage)] + tail)));
    ReplayStep(dev, o, CreateShader(stage), [ShaderSource(stage, source)] + ([CompileShader(stage)] + ([GetCompileStatus(stage)] + tail)), o1);
    ReplayStep(dev, o1, ShaderSource(stage, source), [CompileShader(stage)] + ([GetCompileStatus(stage)] + tail), o2);
    ReplayStep(dev, o2, CompileShader(stage), [GetCompileStatus(stage)] + tail, o3);
    ReplayStep(dev, o3, GetCompileStatus(stage), tail, o3);
    if !dev.compiles(stage, source) {
      assert tail == [GetShaderInfoLog(stage)] + [];
      ReplayStep(dev, o3, GetShaderInfoLog(stage), [], o3);
    }
  }

  /** Attaching a compiled shader that is not yet attached. */
  lemma StepAttach(dev: Device, o: Objects, st: Stage)
    requires o.program && st in o.compiled && o.compiled[st] && st !in o.attached && st !in o.deleted
    ensures Step(dev, o, AttachShader(st)) == Some(o.(attached := o.attached + {st}))
  {
  }

  /** Linking once both stages are attached. */
  lemma StepLink(dev: Device, o: Objects)
    requires o.program && o.attached == {VertexStage, FragmentStage}
    requires VertexStage in o.sources && FragmentStage in o.sources
    ensures Step(dev, o, LinkProgram) == Some(o.(linked := Some(dev.links(o.sources[VertexStage], o.sources[FragmentStage]))))
  {
  }

  /** Creating the program and attaching both compiled shaders. */
  lemma AttachReplay(dev: Device, o: Objects, t: seq<Event>)
    requires !o.program && o.attached == {} && o.deleted == {}
    requires VertexStage in o.compiled && o.compiled[VertexStage]
    requires FragmentStage in o.compiled && o.compiled[FragmentStage]
    ensures Replay(dev, o, [CreateProgram, AttachShader(VertexStage), AttachShader(FragmentStage)] + t) ==
      Replay(dev, o.(program := true, attached := {VertexStage, FragmentStage}), t)
  {
    var o1 := o.(program := true);
    var o2 := o1.(attached := {VertexStage});
    var o3 := o2.(attached := {VertexStage, FragmentStage});
    assert [CreateProgram, AttachShader(VertexStage), AttachShader(FragmentStage)] + t ==
      [CreateProgram] + ([AttachShader(VertexStage)] + ([AttachShader(FragmentStage)] + t));
    ReplayStep(dev, o, CreateProgram, [AttachShader(VertexStage)] + ([AttachShader(FragmentStage)] + t), o1);
    StepAttach(dev, o1, VertexStage);
    assert o1.attached + {VertexStage} == {VertexStage};
    ReplayStep(dev, o1, AttachShader(VertexStage), [AttachShader(FragmentStage)] + t, o2);
    StepAttach(dev, o2, FragmentStage);
    assert o2.attached + {FragmentStage} == {VertexStage, FragmentStage};
    ReplayStep(dev, o2, AttachShader(FragmentStage), t, o3);
  }

  /** Linking and the status query, then the log query on failure. */
  lemma LinkReplay(dev: Device, o: Objects, tail: seq<Event>)
    requires o.program && o.attached == {VertexStage, FragmentStage}
    requires VertexStage in o.sources && FragmentStage in o.sources
    requires tail == [] || tail == [GetProgramInfoLog]
    ensures Replay(dev, o, [LinkProgram, GetLinkStatus] + tail) ==
      Some(o.(linked := Some(dev.links(o.sources[VertexStage], o.sources[FragmentStage]))))
  {
    var o4 := o.(linked := Some(dev.links(o.sources[VertexStage], o.sources[FragmentStage])));
    assert [LinkProgram, GetLinkStatus] + tail == [LinkProgram] + ([GetLinkStatus] + tail);
    StepLink(dev, o);
    ReplayStep(dev, o, LinkProgram, [GetLinkStatus] + tail, o4);
    ReplayStep(dev, o4, GetLinkStatus, tail, o4);
    if tail != [] {
      assert tail == [GetProgramInfoLog] + [];
      ReplayStep(dev, o4, GetProgramInfoLog, [], o4);
    }
  }

  /** `createProgram` on two compiled shaders leaves the program created,
      both attached and its link outcome recorded. */
  lemma ProgramRunReplay(dev: Device, o: Objects, vertex: string, fragment: string)
    requires !o.program && o.attached == {}
    requires VertexStage in o.sources && o.sources[VertexStage] == vertex
    requires FragmentStage in o.sources && o.sources[FragmentStage] == fragment
    requires VertexStage in o.compiled && o.compiled[VertexStage]
    requires FragmentStage in o.compiled && o.compiled[FragmentStage]
    requires o.deleted == {}
    ensures Replay(dev, o, CreateProgramRun(dev, Shader(VertexStage, vertex), Shader(FragmentStage, fragment)).trace) ==
      Some(o.(program := true, attached := {VertexStage, FragmentStage}, linked := Some(dev.links(vertex, fragment))))
  {
    var tail: seq<Event> := if dev.links(vertex, fragment) then [] else [GetProgramInfoLog];
    var rest := [LinkProgram, GetLinkStatus] + tail;
    assert CreateProgramRun(dev, Shader(VertexStage, vertex), Shader(FragmentStage, fragment)).trace ==
      [CreateProgram, AttachShader(VertexStage), AttachShader(FragmentStage)] + rest;
    AttachReplay(dev, o, rest);
    LinkReplay(dev, o.(program := true, attached := {VertexStage, FragmentStage}), tail);
  }

  /** After a successful link the program becomes current and both shaders
      are deleted. */
  lemma FinishReplay(dev: Device, o: Objects)
    requires o.linked == Some(true) && o.created == {VertexStage, FragmentStage} && o.deleted == {}
    ensures Replay(dev, o, Finish) == Some(o.(current := true, deleted := {VertexStage, FragmentStage}))
  {
    var o1 := o.(current := true);
    var o2 := o1.(deleted := {VertexStage});
    var o3 := o2.(deleted := {VertexStage, FragmentStage});
    assert Step(dev, o, Finish[0]) == Some(o1);
    assert o1.deleted + {VertexStage} == {VertexStage};
    assert Step(dev, o1, Finish[1]) == Some(o2);
    assert o2.deleted + {FragmentStage} == {VertexStage, FragmentStage};
    assert Step(dev, o2, Finish[2]) == Some(o3);
    assert Finish[1..][1..] == [DeleteShader(FragmentStage)];
    assert Replay(dev, o2, Finish[1..][1..]) == Some(o3);
  }

  /** Every call `createProgramFromString` makes is in order for the
      context's objects, whatever the context answers. Afterwards the
      program is current exactly when the run returned, it was linked
      exactly when both stages compiled, and the shaders are deleted
      exactly when the run returned. */
  lemma {:induction false} CreateProgramFromStringLifecycle(dev: Device, vertex: string, fragment: string)
    ensures Replay(dev, Fresh, CreateProgramFromString(dev, vertex, fragment).trace).Some?
    ensures var r := CreateProgramFromString(dev, vertex, fragment);
      var o := Replay(dev, Fresh, r.trace).value;
      (o.current <==> r.result.Success?) &&
      (o.linked.Some? <==> dev.compiles(VertexStage, vertex) && dev.compiles(FragmentStage, fragment)) &&
      o.deleted == (if r.result.Success? then {VertexStage, FragmentStage} else {})
  {
    var vs := CreateShaderRun(dev, VertexStage, vertex);
    ShaderRunReplay(dev, Fresh, VertexStage, vertex);
    var oV := Replay(dev, Fresh, vs.trace).value;
    if dev.compiles(VertexStage, vertex) {
      var fs := CreateShaderRun(dev, FragmentStage, fragment);
      ShaderRunReplay(dev, oV, FragmentStage, fragment);
      ReplayAppend(dev, Fresh, vs.trace, fs.trace);
      var oF := Replay(dev, oV, fs.trace).value;
      if dev.compiles(FragmentStage, fragment) {
        var ps := CreateProgramRun(dev, Shader(VertexStage, vertex), Shader(FragmentStage, fragment));
        ProgramRunReplay(dev, oF, vertex, fragment);
        ReplayAppend(dev, Fresh, vs.trace + fs.trace, ps.trace);
        var oP := Replay(dev, oF, ps.trace).value;
        if dev.links(vertex, fragment) {
          FinishReplay(dev, oP);
          ReplayAppend(dev, Fresh, vs.trace + fs.trace + ps.trace, Finish);
        }
      }
    }
  }
}
