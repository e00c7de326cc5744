# gl4u.js core, modelled in Dafny

gl4u.js is a thin wrapper over WebGL. This project models its core:

- `__parseGLType`, which maps a GLSL type token such as `vec3` or `mat4` to a
  descriptor `[base, size(, rows, cols)]`, or to `null`;
- the declaration scan of the `Shader` constructor, which runs the global
  regular expressions `(attribute|in)\s+(\w+)\s+(\w+)\s*;` (vertex stages
  only) and `(uniform)\s+(\w+)\s+(\w+)\s*;` over the source;
- the `Program` constructor, which attaches and links the stages and then
  merges every stage's declarations into the name-keyed tables
  `self.attribs` and `self.uniforms`;
- `Program.exec`, which enables every attribute, binds each attribute's
  buffer and sets its pointer, draws, and disables every attribute.

The WebGL context is a `Recorder.Context` object. It records each
state-changing call in order (`trace`) and each `console.error` report
(`errors`). The answers WebGL gives are parameters of the constructors:

- the handles from `createShader` and `createProgram`;
- the compile and link status, and the info logs;
- the attribute and uniform location queries.

Modules:

- `Chars`: the regular-expression character classes, and greedy runs.
- `GLTypes`: `__parseGLType`.
- `Declarations`: the declaration scan, and the canonical declaration syntax
  it inverts.
- `Shaders`: the `Shader` class.
- `Tables`: JavaScript objects used as dictionaries. A key sequence in
  insertion order (the `for ... in` order) plus a map.
- `Programs`: the `Program` class, with the merge and `exec`.
- `Recorder` and `GL`: the context and the constants.
- `Sequences`: facts about concatenation and slicing shared by the proofs.

The model follows the code as written, including these behaviours a reader may not expect:

- A `-1` attribute location (a name the linker dropped) is not skipped. It
  is passed to `enableVertexAttribArray`, `vertexAttribPointer` and
  `disableVertexAttribArray` as it is.
- A record without a buffer, or with a `null` type descriptor, makes `exec`
  throw a TypeError. At that point the attributes it already enabled stay
  enabled, and nothing is drawn or disabled.
- `exec` does not unbind the program at the end.
- `exec(mode, begin, end)` passes `end` to `drawArrays` as its third argument,
  which WebGL reads as a vertex count. The model calls the parameters
  `first` and `count`.
- A type mismatch between a buffer and an attribute is only reported. The
  pointer call still goes out with the attribute's declared base type.
- The second merge loop walks `self.shaders` but reads `shaders[i]`, the
  constructor's argument. For an array argument without holes the two hold
  the same stages at the same indices, so the model uses the one sequence.
- A type token in which `[A-Za-z_]` never occurs makes `__parseGLType` read
  `res[1]` of a `null` match. That throw out of the `Program` constructor is
  the status `Aborted`.

## Model

| member | source | states |
|---|---|---|
| Chars.IsLetter | gl4u.js:88 | the class `[A-Za-z_]`: the ASCII letters and `_` |
| Chars.IsDigit | gl4u.js:88 | the class `\d`: the ASCII digits `0`-`9` |
| Chars.IsWordChar | gl4u.js:66 | the class `\w`: `[A-Za-z0-9_]` |
| Chars.IsSpace | gl4u.js:66 | the class `\s`: TAB, LF, VT, FF, CR, space, NBSP, U+1680, U+2000-U+200A, LS, PS, U+202F, U+205F, U+3000 and BOM |
| Chars.RunEnd | gl4u.js:66 | a greedy `+`/`*` run of one class from a position: it ends at or after the start and within the text |
| Chars.RunEndIsRun | gl4u.js:66 | the greedy run covers only characters of its class, and the character after it is not of the class |
| Chars.RunEndOf | gl4u.js:66 | a run of the class that is followed by the end or by a character outside the class is exactly the greedy run |
| GLTypes.FindName | gl4u.js:88-91 | `re.exec(type)` for `/([A-Za-z_]+)(\d*)/`: no match exactly when no `[A-Za-z_]` occurs in the token; otherwise the captures `res[1]` and `res[2]` |
| GLTypes.FindNameFrom | gl4u.js:88-91 | no result exactly when no `[A-Za-z_]` character occurs from the start position on; a result's name is a non-empty letter run |
| GLTypes.FindNameOf | gl4u.js:88-91 | the unanchored match starts at the first letter and takes the whole letter run and then the whole digit run |
| GLTypes.NameAndSuffix | gl4u.js:88-91 | a letter name followed by digits splits into exactly that name and that suffix |
| GLTypes.NameSuffixRest | gl4u.js:88-91 | text after the letter and digit runs does not change the captured name and suffix |
| GLTypes.ParseGLType | gl4u.js:87-111 | throws (NoMatch) exactly when the token has no letter; a descriptor's base is FLOAT or INT; a matrix descriptor has equal row and column counts and size rows*cols |
| GLTypes.TypeOf | gl4u.js:139-148 | the record's `type` field: the descriptor `__parseGLType` returned, or `null` |
| GLTypes.DecimalValue | gl4u.js:99 | JavaScript's conversion of a captured digit string to a number, as `td*td` applies it; `''` converts to 0 |
| GLTypes.SizeValue | gl4u.js:173 | the number WebGL reads from `attr.type[1]`: the stored number, or the value of the stored digit string |
| GLTypes.ScalarTypes | gl4u.js:92-103 | `float` gives `[FLOAT, 1]` (lines 92-94) and `int` gives `[INT, 1]` (lines 101-103) |
| GLTypes.VectorTypes | gl4u.js:95-106 | `vecN` (lines 95-97) and `ivecN` (lines 104-106) give base FLOAT and INT and keep the suffix string `N`, whose numeric value is N |
| GLTypes.MatrixTypes | gl4u.js:98-109 | `matN` (lines 98-100) and `imatN` (lines 107-109) give base FLOAT and INT, size N*N, and `N` as rows and columns |
| GLTypes.MissingSuffix | gl4u.js:95-100 | `vec` keeps the empty suffix (numerically 0); `mat` gets size `'' * ''`, that is 0 |
| GLTypes.UnknownTypes | gl4u.js:110 | every other letter name, with any suffix and rest, gives `null` |
| GLTypes.SamplerTypes | gl4u.js:110 | `sampler2D` and `samplerCube` give `null` |
| GLTypes.DecimalValueOfDecimal | gl4u.js:95-100 | the decimal numeral of N converts back to N, as `td * td` and the size argument convert it |
| Declarations.AttributeQualifiers | gl4u.js:66 | the qualifier alternatives `attribute` and then `in`, in the order the regex tries them |
| Declarations.UniformQualifiers | gl4u.js:77 | the single alternative `(uniform)` |
| Declarations.DeclTailAt | gl4u.js:66 | a match of `\s+(\w+)\s+(\w+)\s*;` consumes at least one character and ends within the text |
| Declarations.DeclTailWords | gl4u.js:66 | both captures of a tail match are `\w+` words |
| Declarations.MatchAt | gl4u.js:66 | a match of the whole expression at a position consumes at least one character and ends within the text |
| Declarations.MatchWords | gl4u.js:66 | both captures of a match of the whole expression are words |
| Declarations.ScanWords | gl4u.js:67-73 | every declaration found has a word as its type and a word as its name |
| Declarations.ScanFrom | gl4u.js:68-73 | the declarations repeated `re.exec` calls find from `lastIndex` on: a match at the current position is recorded and the search resumes at its end; otherwise it moves on by one |
| Declarations.Scan | gl4u.js:66-84 | every declaration a global expression finds in the whole source, from position 0 |
| Declarations.ScanDeclarations | gl4u.js:64-84 | the `re.exec` loop returns exactly the matches `Scan` specifies, in source order, each made of words |
| Declarations.ScanSound | gl4u.js:67-73 | every declaration found is the match of the expression at some position of the source |
| Declarations.ScanEmptyIff | gl4u.js:68-73 | the loop records nothing exactly when the expression matches at no position of the text |
| Declarations.ScanLeftmost | gl4u.js:68-73 | the first declaration recorded is the leftmost match, with no match at any earlier position, and the search resumes where that match ends |
| Declarations.NoSemicolonNoDecls | gl4u.js:66 | source without a `;` declares nothing |
| Declarations.DeclTailRuns | gl4u.js:66 | over ` T N;` the greedy runs stop at each single space, at the end of each word and at the `;` |
| Declarations.DeclTailOf | gl4u.js:66 | the tail ` T N;` matches, captures T and N, and ends after its `;` |
| Declarations.DeclTailMatches | gl4u.js:66 | any text `\s+(\w+)\s+(\w+)\s*;` at a position, with any `\s` characters in each whitespace run, is the tail match there, with exactly those captures and ending after its `;`; so the match at a position is unique |
| Declarations.DeclTailSound | gl4u.js:66 | a tail match is text of that form: non-empty whitespace, the captured type, non-empty whitespace, the captured name, possibly empty whitespace and `;` |
| Declarations.WhitespaceDeclaration | gl4u.js:66-73 | a declaration with the first qualifier alternative, written with any whitespace, as in `attribute\tvec3\n  pos ;`, is found and is the only one |
| Declarations.MatchAtDeclare | gl4u.js:66 | `q T N;` written at a position matches there with the alternative q |
| Declarations.NoMatchAtSpace | gl4u.js:66 | no match begins at a `\s` character |
| Declarations.ScanFromRender | gl4u.js:67-73 | canonical declarations written one after another are all found again, in order |
| Declarations.ScanRender | gl4u.js:64-84 | scanning rendered declarations gives them back: the scan inverts the rendering |
| Declarations.AttributeRoundTrip | gl4u.js:66-73 | declarations written with `attribute`, or all with `in`, are recovered exactly by the attribute expression |
| Declarations.UniformRoundTrip | gl4u.js:76-84 | uniform declarations are recovered exactly by the uniform expression |
| Declarations.ScanTwoUniforms | gl4u.js:76-84 | `uniform float a; uniform vec3 b;` gives `{float, a}` then `{vec3, b}` |
| Declarations.UnanchoredQualifier | gl4u.js:66 | in `pin vec2 uv;` the unanchored attribute expression matches from the `in` inside `pin` |
| Recorder.LogEntry.Message | gl4u.js:170 | the text each `console.error` report prints: the compile error (line 60), the link error (line 125) and the type mismatch (line 170) |
| Recorder.MessageInjective | gl4u.js:60-170 | two reports printing the same text are the same report, so the printed log determines the reports |
| Recorder.Context.Issue | gl4u.js:115-123 | a WebGL call, such as `createProgram`, `attachShader` and `linkProgram`, is appended to the recorded trace and nothing else changes |
| Recorder.Context.Report | gl4u.js:124-125 | a `console.error` report is appended to the recorded log and nothing else changes |
| Shaders.Shader.constructor | gl4u.js:51-85 | issues `createShader`, `shaderSource`, `compileShader`; on a compile failure reports the info log and records no declarations; otherwise records the attribute scan for a vertex stage only, and the uniform scan for every stage |
| Tables.Table.Put | gl4u.js:132-149 | assignment to a property: the map is updated; a new key is appended to the enumeration order, an existing key keeps its place |
| Tables.Table.PutValid | gl4u.js:132-149 | assignment keeps the object well formed: every enumerated key is distinct and has a property, and every property is enumerated |
| Tables.Table.Values | gl4u.js:162-181 | the records in `for ... in` order, one per key |
| Tables.EmptyTable | gl4u.js:129-130 | `{}` is well formed and has no keys |
| Programs.SlotFor | gl4u.js:134-139 | the record `{id, data, name, type}` stored for one declaration: the location query's answer, `data` null, the declared name, and `__parseGLType` of the declared type |
| Programs.Resolve | gl4u.js:129-149 | the merged table: starting from `{}`, one property assignment `table[decl.name] = record` per declaration, in order |
| Programs.Names | gl4u.js:132-149 | the declared names, position by position |
| Programs.FirstIndex | gl4u.js:132-149 | the first declaration of a name |
| Programs.LastIndex | gl4u.js:132-149 | the last declaration of a name |
| Programs.ResolveKeys | gl4u.js:129-149 | the merged table is well formed and its properties are exactly the declared names |
| Programs.ResolveLastWins | gl4u.js:132-149 | the property for a name holds the record of its last declaration: its location, its parsed type, its name, and no buffer |
| Programs.OrderSnoc | gl4u.js:132-149 | one more declaration keeps the keys in first-declaration order, whether it adds a new key or reassigns an old one |
| Programs.ResolveOrder | gl4u.js:129-149 | properties are enumerated in the order of their first declarations |
| Programs.ResolveFirstKey | gl4u.js:129-149 | the first property enumerated is the first declared name |
| Programs.AttachCalls | gl4u.js:116-120 | one `attachShader(program, shader)` per stage, in order |
| Programs.Parses | gl4u.js:132-149 | no type token of one stage's declarations makes `__parseGLType` throw |
| Programs.ParsesStep | gl4u.js:132-149 | one more type token keeps every type parsing exactly when that token has a type name; a throwing token means not all parse |
| Programs.AttribDecls | gl4u.js:130-140 | the attribute declarations the outer loop walks: every stage's, stage by stage, each stage's in source order |
| Programs.UniformDecls | gl4u.js:130-149 | the uniform declarations the outer loop walks: every stage's, stage by stage |
| Programs.Parsable | gl4u.js:138-147 | no declared type of any stage makes `__parseGLType` throw |
| Programs.PutAll | gl4u.js:132-149 | one inner merge loop fails exactly when some type token parses to a throw; otherwise it yields the table the merge specification gives |
| Programs.Merge | gl4u.js:129-151 | the nested merge loops succeed exactly when every stage's types parse, and then build the attribute and uniform tables of the merge specification |
| Programs.Program.constructor | gl4u.js:113-151 | issues `createProgram`, one `attachShader` per stage and `linkProgram`; a link failure is reported with its log and leaves no tables; a parse throw aborts; otherwise the tables are the merged declarations |
| Programs.Program.BindData | gl4u.js:137 | the caller's `attribs[name].data = buffer` changes only that record's buffer and keeps the enumeration order |
| Programs.Ready | gl4u.js:169-173 | a record the second loop gets through: `attr.data` is not null (read at line 169) and `attr.type` is not null (read at lines 169 and 173) |
| Programs.ReadyPrefix | gl4u.js:167-174 | how many records the second loop gets through: all before it are ready, the one at it is not |
| Programs.Enables | gl4u.js:162-165 | one call per record |
| Programs.Disables | gl4u.js:178-181 | one call per record |
| Programs.CallsAt | gl4u.js:162-181 | the k-th enable is `enableVertexAttribArray` and the k-th disable is `disableVertexAttribArray` of the k-th record's location |
| Programs.PointerCalls | gl4u.js:172-173 | for one record: `bindBuffer(ARRAY_BUFFER, data.id)`, then `vertexAttribPointer(id, type[1], type[0], false, 0, 0)` |
| Programs.Pointers | gl4u.js:167-174 | two calls per record |
| Programs.PointersAt | gl4u.js:167-174 | calls 2k and 2k+1 are the k-th record's bind and pointer call |
| Programs.Mismatched | gl4u.js:169 | the test `attr.data.type != attr.type[0]`: the buffer's element type differs from the base type |
| Programs.Mismatches | gl4u.js:169-171 | one `type mismatch` report per record whose buffer type differs from its base type, in order |
| Programs.ExecCalls | gl4u.js:157-182 | the calls `exec` issues: `useProgram`, the enables, the pointer pairs of the records before the first one that throws, and, only when none throws, the draw and the disables |
| Programs.ExecErrors | gl4u.js:167-174 | the reports `exec` makes: the mismatches among the records before the first one that throws |
| Programs.ExecOutcome | gl4u.js:167-176 | how `exec` ends: it reaches the draw when every record has a buffer and a descriptor; otherwise the TypeError at the first record without a buffer (NullData) or without a descriptor (NullType) |
| Programs.StopsAt | gl4u.js:167-174 | `exec` throws at the first record that is not ready: NullData without a buffer, NullType without a descriptor |
| Programs.GetsThrough | gl4u.js:167-176 | when every record is ready, `exec` reaches the draw |
| Programs.SetupCalls | gl4u.js:158-174 | the calls before the draw are only `useProgram`, enables, binds and pointer calls |
| Programs.ReadyCalls | gl4u.js:157-182 | with every record ready, the calls are `useProgram`, the enables, the pointer pairs, the draw and the disables |
| Programs.ExecLayout | gl4u.js:157-182 | with every record ready, 4n+2 calls: `useProgram` at 0, the enables, the pointer pairs, the draw with the caller's arguments at 3n+1, then the disables |
| Programs.ExecCallsFor | gl4u.js:162-181 | the enable, bind, pointer and disable calls for one record, with its location, buffer, size and base type |
| Programs.DrawOnceAt | gl4u.js:176 | set-up calls, a draw and then disables hold exactly one draw |
| Programs.SingleDraw | gl4u.js:176 | with every record ready, exactly one draw is issued, at position 3n+1 |
| Programs.ExecThrows | gl4u.js:167-174 | when some record is not ready, `exec` does not return normally, every attribute stays enabled, and no draw and no disable is issued |
| Programs.MismatchesLogged | gl4u.js:169-171 | over ready records, a name is reported as a mismatch exactly when one of its records has a buffer type different from its base type |
| Programs.MismatchReported | gl4u.js:169-171 | `exec` reports a mismatch for a name exactly when a record it got through has that name and mismatched types |
| Programs.ThrowsAtFirst | gl4u.js:162-172 | a first record without a buffer throws right after the enables, with no reports |
| Programs.FreshFirstSlot | gl4u.js:132-140 | the first record of a freshly merged table is the first declared name, with no buffer |
| Programs.UnboundExecThrows | gl4u.js:132-172 | `exec` before any buffer is bound throws at the first declared attribute, right after the enables |
| Programs.PointAttrib | gl4u.js:168-173 | the second loop's body: the mismatch report, the buffer's `bind`, and the pointer call with the record's location, size and base type |
| Programs.EnableAll | gl4u.js:162-165 | the first loop issues exactly the enables |
| Programs.PointAll | gl4u.js:167-174 | the second loop issues the pointer pairs of the ready prefix, makes its reports, and ends as `ExecOutcome` says |
| Programs.DisableAll | gl4u.js:178-181 | the last loop issues exactly the disables |
| Programs.Draw | gl4u.js:157-182 | the whole body of `exec`: its outcome, its calls and its reports |
| Programs.Program.Exec | gl4u.js:153-182 | `exec` is missing on a program that did not link; otherwise it is `Draw` on the attribute table |

## Left out

- A `shaders` argument that is a sparse array or a plain object is not modelled. There `push` at line 119 re-indexes `self.shaders`, so `shaders[i]` at line 132 can be another stage or `undefined`, and `shader.attribs` at line 133 then throws.

- `initGL` (lines 3-15) only obtains the context. The context is the `Context` object instead.
- `Buffer.buffer` and the `bufferData` upload (lines 26-48) are not modelled. They involve typed-array conversion and floating point. A buffer is its handle and its type tag.
- `Buffer.bind` is modelled only inside `PointAttrib`, as a `bindBuffer(ARRAY_BUFFER, id)` call.
- `exec` does not upload uniforms (the source marks this as a TODO), so the model has no uniform upload. The uniform table is built and its locations are kept.
- `use` is modelled only as the `useProgram` call that `exec` makes.
- The answers of WebGL (handles, compile and link status, info logs, attribute and uniform locations) are parameters of the constructors. They are not computed.
- `Tables.Table`: JavaScript objects enumerate integer-like keys first, in numeric order. A `__proto__` key is special. The model uses pure insertion order for every name.
- `GLTypes.Size`: the suffix string is passed to WebGL unconverted for vectors, while `td*td` converts it to a number. The model keeps both forms. It does not model JavaScript number precision.
- Buffer type tags other than numbers are not modelled. The `!=` comparison at line 169 is modelled as an integer comparison.
- The `Aborted` status: the partially built tables are not kept, because the throwing constructor never hands the object to its caller.
- `Programs.Program.BindData`: writing `data` for a name that is not an attribute, or on a program that did not link, throws in JavaScript. The model returns `false` and changes nothing.
- Concurrency and asynchronous compilation are not modelled. WebGL answers are taken as they come back.
