/**
 * The graphics context as the core sees it: a recorder of the state-changing
 * calls issued against it, in order, plus the diagnostic channel
 * (`console.error`) as a log of tagged entries.
 */
module Recorder {
  import opened GL
  import opened GLTypes

  /** One state-changing WebGL call, with the arguments gl4u.js passes. */
  datatype Call =
    | CreateShader(kind: int)
    | ShaderSource(shader: Handle, source: string)
    | CompileShader(shader: Handle)
    | CreateProgram(program: Handle)
    | AttachShader(program: Handle, shader: Handle)
    | LinkProgram(program: Handle)
    | UseProgram(program: Handle)
    | EnableVertexAttribArray(index: int)
    | BindBuffer(target: int, buffer: Handle)
    | VertexAttribPointer(index: int, size: Size, componentType: int, normalized: bool, stride: int, offset: int)
    | DrawArrays(mode: int, first: int, count: int)
    | DisableVertexAttribArray(index: int)

  /** One `console.error` report. */
  datatype LogEntry =
    | ShaderCompileError(infoLog: string)
    | ProgramLinkError(infoLog: string)
    | AttribTypeMismatch(attrib: string)
  {
    /** The text the report prints. */
    function Message(): string {
      match this
      case ShaderCompileError(info) => "shader compile error:\n" + info
      case ProgramLinkError(info) => "program link error:\n" + info
      case AttribTypeMismatch(name) => "buffer and attrib \"" + name + "\" type mismatch"
    }
  }

  /** Text placed between a fixed prefix and suffix can be read back from the whole. */
  lemma {:induction false} Affixed(pre: string, w: string, post: string)
    ensures (pre + w + post)[|pre|..|pre| + |w|] == w
  {
    var t := pre + w + post;
    forall k | 0 <= k < |w| ensures t[|pre|..|pre| + |w|][k] == w[k] {
      assert t[|pre| + k] == w[k];
    }
  }

  /**
   * Different reports print different texts: the three messages start with
   * different letters, and each carries its log or attribute name verbatim
   * between fixed text, so the printed log determines the reports.
   */
  lemma {:induction false} MessageInjective(e1: LogEntry, e2: LogEntry)
    requires e1.Message() == e2.Message()
    ensures e1 == e2
  {
    var m := e1.Message();
    assert m[0] == (if e1.ShaderCompileError? then 's' else if e1.ProgramLinkError? then 'p' else 'b');
    assert e2.Message()[0] == (if e2.ShaderCompileError? then 's' else if e2.ProgramLinkError? then 'p' else 'b');
    match e1
    case ShaderCompileError(info) =>
      Affixed("shader compile error:\n", info, "");
      Affixed("shader compile error:\n", e2.infoLog, "");
    case ProgramLinkError(info) =>
      Affixed("program link error:\n", info, "");
      Affixed("program link error:\n", e2.infoLog, "");
    case AttribTypeMismatch(name) =>
      Affixed("buffer and attrib \"", name, "\" type mismatch");
      Affixed("buffer and attrib \"", e2.attrib, "\" type mismatch");
  }

  class Context {
    var trace: seq<Call>
    var errors: seq<LogEntry>

    constructor ()
      ensures trace == [] && errors == []
    {
      trace, errors := [], [];
    }

    /** Issues one call. */
    method Issue(c: Call)
      modifies this`trace
      ensures trace == old(trace) + [c]
    {
      trace := trace + [c];
    }

    /** Reports one diagnostic through `console.error`. */
    method Report(e: LogEntry)
      modifies this`errors
      ensures errors == old(errors) + [e]
    {
      errors := errors + [e];
    }
  }
}
