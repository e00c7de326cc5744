/**
 * The `Shader` constructor: creates and compiles one shader stage and, when
 * compilation succeeds, records the declarations its source makes.
 */
module Shaders {
  import opened GL
  import opened Recorder
  import opened Chars
  import opened Declarations

  class Shader {
    /** The stage, `gl.VERTEX_SHADER` or `gl.FRAGMENT_SHADER`, as passed in. */
    const kind: int
    /** The handle `gl.createShader` returned. */
    const id: Handle
    const compiled: bool
    /** `self.attribs`: the attribute declarations of a vertex stage, in source order. */
    const attribs: seq<Decl>
    /** `self.uniforms`: the uniform declarations, in source order. */
    const uniforms: seq<Decl>

    /**
     * `new Shader(kind, source)`. The handle `gl.createShader` returns, the
     * compile status and the info log are the context's answers, given as
     * parameters. A shader that fails to compile leaves `attribs` and
     * `uniforms` undefined, which a `for ... in` loop walks as if empty.
     */
    constructor (ctx: Context, kind: int, source: string, id: Handle, compileOk: bool, infoLog: string)
      modifies ctx
      ensures this.kind == kind && this.id == id && compiled == compileOk
      ensures ctx.trace == old(ctx.trace) + [CreateShader(kind), ShaderSource(id, source), CompileShader(id)]
      ensures ctx.errors == old(ctx.errors) + (if compileOk then [] else [ShaderCompileError(infoLog)])
      ensures attribs == if compileOk && kind == VERTEX_SHADER then Scan(source, AttributeQualifiers) else []
      ensures uniforms == if compileOk then Scan(source, UniformQualifiers) else []
      ensures forall i | 0 <= i < |attribs| :: IsWord(attribs[i].token) && IsWord(attribs[i].name)
      ensures forall i | 0 <= i < |uniforms| :: IsWord(uniforms[i].token) && IsWord(uniforms[i].name)
    {
      this.kind, this.id, compiled := kind, id, compileOk;
      ctx.Issue(CreateShader(kind));
      ctx.Issue(ShaderSource(id, source));
      ctx.Issue(CompileShader(id));
      if !compileOk {
        ctx.Report(ShaderCompileError(infoLog));
        attribs, uniforms := [], [];
      } else {
        var found: seq<Decl> := [];
        if kind == VERTEX_SHADER {
          found := ScanDeclarations(source, AttributeQualifiers);
        }
        var declared := ScanDeclarations(source, UniformQualifiers);
        attribs, uniforms := found, declared;
      }
    }
  }
}
