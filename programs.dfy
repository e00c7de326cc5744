/**
 * The `Program` constructor, which links shader stages and merges their
 * declarations into name-keyed tables, and `Program.exec`, which draws with
 * the attribute table.
 */
module Programs {
  import opened Wrappers
  import opened GL
  import opened GLTypes
  import opened Declarations
  import opened Recorder
  import opened Shaders
  import opened Tables
  import opened Sequences

  /** The part of a `Buffer` that `exec` uses: its handle and its element type tag (`self.type`). */
  datatype DataBuffer = DataBuffer(id: Handle, elementType: int)

  /** What `gl.getUniformLocation` answers: a location object, or `null`. */
  datatype UniformLoc = NoUniform | UniformAt(handle: nat)

  /** `{id, data, name, type}`: one record of `self.attribs` or `self.uniforms`. */
  datatype Slot<L> = Slot(id: L, data: Option<DataBuffer>, name: string, glType: Option<TypeDesc>)

  /** How the constructor ended. */
  datatype Status =
    | Linked      // linked, tables built, `use` and `exec` defined
    | LinkFailed  // returned after the link error report: no tables, no `exec`
    | Aborted     // threw while building the tables: `new Program` does not return

  /** What a call to `exec` does. */
  datatype ExecResult =
    | Drawn                    // returned normally
    | NoExecMethod             // `exec` is not defined on a program that did not link
    | NullData(attrib: string) // TypeError at `attr.data.type`: no buffer bound
    | NullType(attrib: string) // TypeError at `attr.type[0]`: the type has no descriptor

  /** The record the constructor stores for declaration `d`; `loc` answers the location query. */
  function SlotFor<L>(d: Decl, loc: string -> L): Slot<L> {
    Slot(loc(d.name), None, d.name, TypeOf(ParseGLType(d.token)))
  }

  /** The declared names, in order. */
  function Names(ds: seq<Decl>): (ns: seq<string>)
    ensures |ns| == |ds| && forall i | 0 <= i < |ds| :: ns[i] == ds[i].name
  {
    if ds == [] then [] else Names(ds[..|ds| - 1]) + [ds[|ds| - 1].name]
  }

  /** Where `k` is first declared. */
  function FirstIndex(ds: seq<Decl>, k: string): (r: nat)
    requires k in Names(ds)
    ensures r < |ds| && ds[r].name == k && forall j | 0 <= j < r :: ds[j].name != k
  {
    if ds[0].name == k then 0
    else
      assert k in Names(ds[1..]) by {
        var i :| 0 <= i < |ds| && Names(ds)[i] == k;
        assert Names(ds[1..])[i - 1] == k;
      }
      var r := FirstIndex(ds[1..], k);
      assert forall j | 1 <= j <= 1 + r :: ds[j] == ds[1..][j - 1];
      1 + r
  }

  /** Where `k` is last declared. */
  function LastIndex(ds: seq<Decl>, k: string): (r: nat)
    requires k in Names(ds)
    ensures r < |ds| && ds[r].name == k && forall j | r < j < |ds| :: ds[j].name != k
  {
    var n := |ds| - 1;
    if ds[n].name == k then n
    else
      assert k in Names(ds[..n]) by {
        var i :| 0 <= i < |ds| && Names(ds)[i] == k;
        assert Names(ds[..n])[i] == k;
      }
      LastIndex(ds[..n], k)
  }

  /**
   * `self.attribs[attr.name] = {...}` for each declaration in turn, starting
   * from `{}`: each name becomes a property and the last declaration of a
   * name wins.
   */
  function Resolve<L>(ds: seq<Decl>, loc: string -> L): Table<Slot<L>> {
    if ds == [] then EmptyTable()
    else
      var d := ds[|ds| - 1];
      Resolve(ds[..|ds| - 1], loc).Put(d.name, SlotFor(d, loc))
  }

  /** Storing one more declaration is one more property assignment. */
  lemma {:induction false} ResolveSnoc<L>(ds: seq<Decl>, d: Decl, loc: string -> L)
    ensures Resolve(ds + [d], loc) == Resolve(ds, loc).Put(d.name, SlotFor(d, loc))
  {
    assert (ds + [d])[..|ds|] == ds;
  }

  /** The table is well formed and its properties are exactly the declared names. */
  lemma {:induction false} ResolveKeys<L>(ds: seq<Decl>, loc: string -> L)
    ensures Resolve(ds, loc).Valid()
    ensures forall k :: k in Resolve(ds, loc).entries <==> k in Names(ds)
  {
    if ds != [] {
      var d := ds[|ds| - 1];
      ResolveKeys(ds[..|ds| - 1], loc);
      assert Names(ds) == Names(ds[..|ds| - 1]) + [d.name];
    }
  }

  /** The property for a name holds the record of its last declaration. */
  lemma {:induction false} ResolveLastWins<L>(ds: seq<Decl>, loc: string -> L, k: string)
    requires k in Names(ds)
    ensures k in Resolve(ds, loc).entries
    ensures Resolve(ds, loc).entries[k] == SlotFor(ds[LastIndex(ds, k)], loc)
    ensures Resolve(ds, loc).entries[k].name == k && Resolve(ds, loc).entries[k].data.None?
  {
    var n := |ds| - 1;
    var p := ds[..n];
    assert Names(ds) == Names(p) + [ds[n].name];
    ResolveKeys(p, loc);
    if ds[n].name != k {
      ResolveLastWins(p, loc, k);
      var r := LastIndex(p, k);
      assert ds[r] == p[r];
    }
  }

  /** Declaring one more name leaves the first declarations of the earlier names where they were. */
  lemma {:induction false} FirstIndexExtend(ds: seq<Decl>, k: string)
    requires |ds| > 0 && k in Names(ds[..|ds| - 1])
    ensures k in Names(ds) && FirstIndex(ds, k) == FirstIndex(ds[..|ds| - 1], k)
  {
    var p := ds[..|ds| - 1];
    var r := FirstIndex(p, k);
    assert ds[r] == p[r];
    assert Names(ds)[r] == k;
    var r' := FirstIndex(ds, k);
    assert p[r'] == ds[r'];
  }

  /** A name not declared before is first declared last. */
  lemma {:induction false} FirstIndexNew(ds: seq<Decl>)
    requires |ds| > 0 && ds[|ds| - 1].name !in Names(ds[..|ds| - 1])
    ensures ds[|ds| - 1].name in Names(ds) && FirstIndex(ds, ds[|ds| - 1].name) == |ds| - 1
  {
    var n := |ds| - 1;
    var p := ds[..n];
    assert Names(ds)[n] == ds[n].name;
    forall j | 0 <= j < n ensures ds[j].name != ds[n].name {
      assert Names(p)[j] == ds[j].name;
    }
  }

  /**
   * Keys listed in first-declaration order stay so when one more declaration
   * leaves them as they are or appends a name declared for the first time.
   */
  lemma {:induction false} OrderSnoc(ds: seq<Decl>, a: seq<string>, b: seq<string>)
    requires |ds| > 0
    requires forall i | 0 <= i < |a| :: a[i] in Names(ds[..|ds| - 1])
    requires forall i, j | 0 <= i < j < |a| :: FirstIndex(ds[..|ds| - 1], a[i]) < FirstIndex(ds[..|ds| - 1], a[j])
    requires b == a || (b == a + [ds[|ds| - 1].name] && ds[|ds| - 1].name !in Names(ds[..|ds| - 1]))
    ensures forall i | 0 <= i < |b| :: b[i] in Names(ds)
    ensures forall i, j | 0 <= i < j < |b| :: FirstIndex(ds, b[i]) < FirstIndex(ds, b[j])
  {
    forall i | 0 <= i < |b| ensures b[i] in Names(ds) {
      if i < |a| {
        assert b[i] == a[i];
        FirstIndexExtend(ds, b[i]);
      } else {
        FirstIndexNew(ds);
      }
    }
    forall i, j | 0 <= i < j < |b| ensures FirstIndex(ds, b[i]) < FirstIndex(ds, b[j]) {
      assert b[i] == a[i];
      FirstIndexExtend(ds, b[i]);
      if j < |a| {
        assert b[j] == a[j];
        FirstIndexExtend(ds, b[j]);
      } else {
        FirstIndexNew(ds);
      }
    }
  }

  /** The properties are enumerated in the order of their first declarations. */
  lemma {:induction false} ResolveOrder<L>(ds: seq<Decl>, loc: string -> L)
    ensures var t := Resolve(ds, loc);
      t.Valid() && forall k | k in t.keys :: k in Names(ds)
    ensures var t := Resolve(ds, loc);
      forall i, j | 0 <= i < j < |t.keys| :: FirstIndex(ds, t.keys[i]) < FirstIndex(ds, t.keys[j])
  {
    ResolveKeys(ds, loc);
    if ds != [] {
      var n := |ds| - 1;
      var p := ds[..n];
      var d := ds[n];
      var t0 := Resolve(p, loc);
      ResolveOrder(p, loc);
      ResolveKeys(p, loc);
      assert Resolve(ds, loc) == t0.Put(d.name, SlotFor(d, loc));
      OrderSnoc(ds, t0.keys, Resolve(ds, loc).keys);
    }
  }

  /** The first property is the first declared name. */
  lemma {:induction false} ResolveFirstKey<L>(ds: seq<Decl>, loc: string -> L)
    requires |ds| > 0
    ensures |Resolve(ds, loc).keys| > 0 && Resolve(ds, loc).keys[0] == ds[0].name
  {
    var t := Resolve(ds, loc);
    ResolveKeys(ds, loc);
    assert ds[0].name == Names(ds)[0];
    assert ds[0].name in t.entries;
    var m :| 0 <= m < |t.keys| && t.keys[m] == ds[0].name;
    ResolveOrder(ds, loc);
  }

  /** The attribute declarations of all stages, stage by stage. */
  function AttribDecls(shaders: seq<Shader>): seq<Decl> {
    if shaders == [] then [] else AttribDecls(shaders[..|shaders| - 1]) + shaders[|shaders| - 1].attribs
  }

  /** The uniform declarations of all stages, stage by stage. */
  function UniformDecls(shaders: seq<Shader>): seq<Decl> {
    if shaders == [] then [] else UniformDecls(shaders[..|shaders| - 1]) + shaders[|shaders| - 1].uniforms
  }

  /** `gl.attachShader(id, shader.id)` for each stage in order. */
  function AttachCalls(id: Handle, shaders: seq<Shader>): (cs: seq<Call>)
    ensures |cs| == |shaders| && forall i | 0 <= i < |shaders| :: cs[i] == AttachShader(id, shaders[i].id)
  {
    if shaders == [] then [] else AttachCalls(id, shaders[..|shaders| - 1]) + [AttachShader(id, shaders[|shaders| - 1].id)]
  }

  /** Every type in `ds` has a type name, so `__parseGLType` returns for each of them. */
  predicate Parses(ds: seq<Decl>) {
    forall m | 0 <= m < |ds| :: !ParseGLType(ds[m].token).NoMatch?
  }

  /** The first `j + 1` types parse exactly when the first `j` do and the next one does; a throw means not all parse. */
  lemma {:induction false} ParsesStep(ds: seq<Decl>, j: nat)
    requires j < |ds| && Parses(ds[..j])
    ensures Parses(ds[..j + 1]) == !ParseGLType(ds[j].token).NoMatch?
    ensures ParseGLType(ds[j].token).NoMatch? ==> !Parses(ds)
  {
    var q, r := ds[..j + 1], ds[..j];
    assert q[j] == ds[j];
    if !ParseGLType(ds[j].token).NoMatch? {
      forall m | 0 <= m < |q| ensures !ParseGLType(q[m].token).NoMatch? {
        if m < j {
          assert q[m] == r[m];
        }
      }
    }
  }

  /** No declared type of any stage makes `__parseGLType` throw. */
  predicate Parsable(shaders: seq<Shader>) {
    forall i | 0 <= i < |shaders| :: Parses(shaders[i].attribs) && Parses(shaders[i].uniforms)
  }

  /**
   * One inner loop of the constructor: each declaration of `ds` in turn is
   * stored under its name in `t`, which holds the records of `prior`; `ok` is
   * false when `__parseGLType` threw.
   */
  method PutAll<L>(t: Table<Slot<L>>, ghost prior: seq<Decl>, ds: seq<Decl>, loc: string -> L)
    returns (t': Table<Slot<L>>, ok: bool)
    requires t == Resolve(prior, loc)
    ensures ok == Parses(ds)
    ensures ok ==> t' == Resolve(prior + ds, loc)
  {
    t' := t;
    var j := 0;
    ghost var done := prior;
    assert prior + ds[..0] == prior;
    while j < |ds|
      invariant 0 <= j <= |ds| && done == prior + ds[..j]
      invariant Parses(ds[..j])
      invariant t' == Resolve(done, loc)
    {
      var d := ds[j];
      var p := ParseGLType(d.token);
      ParsesStep(ds, j);
      if p.NoMatch? {
        return t', false;
      }
      ResolveSnoc(done, d, loc);
      SnocSlice(prior, ds, j);
      t' := t'.Put(d.name, Slot(loc(d.name), None, d.name, TypeOf(p)));
      done := done + [d];
      j := j + 1;
    }
    assert ds[..j] == ds;
    ok := true;
  }

  /**
   * The nested loops after a successful link: for each stage, its
   * attributes, then its uniforms, each stored under its name with its
   * location and its parsed type; `ok` is false when `__parseGLType` threw.
   */
  method Merge(shaders: seq<Shader>, attribLoc: string -> int, uniformLoc: string -> UniformLoc)
    returns (at: Table<Slot<int>>, un: Table<Slot<UniformLoc>>, ok: bool)
    ensures ok == Parsable(shaders)
    ensures ok ==> at == Resolve(AttribDecls(shaders), attribLoc)
    ensures ok ==> un == Resolve(UniformDecls(shaders), uniformLoc)
  {
    at, un := EmptyTable(), EmptyTable();
    var i := 0;
    while i < |shaders|
      invariant 0 <= i <= |shaders|
      invariant Parsable(shaders[..i])
      invariant at == Resolve(AttribDecls(shaders[..i]), attribLoc)
      invariant un == Resolve(UniformDecls(shaders[..i]), uniformLoc)
    {
      var sh := shaders[i];
      assert shaders[..i + 1][..i] == shaders[..i];
      var okA, okU;
      at, okA := PutAll(at, AttribDecls(shaders[..i]), sh.attribs, attribLoc);
      if !okA {
        return at, un, false;
      }
      un, okU := PutAll(un, UniformDecls(shaders[..i]), sh.uniforms, uniformLoc);
      if !okU {
        return at, un, false;
      }
      i := i + 1;
    }
    assert shaders[..i] == shaders;
    ok := true;
  }

  /** An attribute record `exec` can draw with: a buffer is bound and the type has a descriptor. */
  predicate Ready(a: Slot<int>) {
    a.data.Some? && a.glType.Some?
  }

  /** How many records, from the first, `exec` gets through before it throws. */
  function ReadyPrefix(s: seq<Slot<int>>): (n: nat)
    ensures n <= |s| && (forall k | 0 <= k < n :: Ready(s[k])) && (n < |s| ==> !Ready(s[n]))
  {
    if s == [] || !Ready(s[0]) then 0 else 1 + ReadyPrefix(s[1..])
  }

  /** `gl.enableVertexAttribArray(attr.id)` for each record. */
  function Enables(s: seq<Slot<int>>): (cs: seq<Call>)
    ensures |cs| == |s|
  {
    if s == [] then [] else Enables(s[..|s| - 1]) + [EnableVertexAttribArray(s[|s| - 1].id)]
  }

  /** `gl.disableVertexAttribArray(attr.id)` for each record. */
  function Disables(s: seq<Slot<int>>): (cs: seq<Call>)
    ensures |cs| == |s|
  {
    if s == [] then [] else Disables(s[..|s| - 1]) + [DisableVertexAttribArray(s[|s| - 1].id)]
  }

  /** `attr.data.bind()` and `gl.vertexAttribPointer(attr.id, attr.type[1], attr.type[0], false, 0, 0)`. */
  function PointerCalls(a: Slot<int>): seq<Call>
    requires Ready(a)
  {
    [BindBuffer(ARRAY_BUFFER, a.data.value.id),
     VertexAttribPointer(a.id, a.glType.value.size, a.glType.value.base, false, 0, 0)]
  }

  /** The bind and pointer calls for each record, two per record. */
  function Pointers(s: seq<Slot<int>>): (cs: seq<Call>)
    requires forall k | 0 <= k < |s| :: Ready(s[k])
    ensures |cs| == 2 * |s|
  {
    if s == [] then [] else Pointers(s[..|s| - 1]) + PointerCalls(s[|s| - 1])
  }

  /** The buffer's element type differs from the attribute's base type. */
  predicate Mismatched(a: Slot<int>)
    requires Ready(a)
  {
    a.data.value.elementType != a.glType.value.base
  }

  /** A type-mismatch report for each mismatched record, in order. */
  function Mismatches(s: seq<Slot<int>>): seq<LogEntry>
    requires forall k | 0 <= k < |s| :: Ready(s[k])
  {
    if s == [] then []
    else Mismatches(s[..|s| - 1]) + (if Mismatched(s[|s| - 1]) then [AttribTypeMismatch(s[|s| - 1].name)] else [])
  }

  /** The `k`-th enable and the `k`-th disable are for the location of the `k`-th record. */
  lemma {:induction false} CallsAt(s: seq<Slot<int>>, k: nat)
    requires k < |s|
    ensures Enables(s)[k] == EnableVertexAttribArray(s[k].id)
    ensures Disables(s)[k] == DisableVertexAttribArray(s[k].id)
    decreases |s|
  {
    var n := |s| - 1;
    if k < n {
      CallsAt(s[..n], k);
      assert s[..n][k] == s[k];
    }
  }

  /** The calls at `2k` and `2k+1` are the bind and the pointer call of the `k`-th record. */
  lemma {:induction false} PointersAt(s: seq<Slot<int>>, k: nat)
    requires forall j | 0 <= j < |s| :: Ready(s[j])
    requires k < |s|
    ensures Pointers(s)[2 * k] == PointerCalls(s[k])[0]
    ensures Pointers(s)[2 * k + 1] == PointerCalls(s[k])[1]
    decreases |s|
  {
    var n := |s| - 1;
    if k < n {
      PointersAt(s[..n], k);
      assert s[..n][k] == s[k];
    }
  }

  lemma {:induction false} EnablesStep(s: seq<Slot<int>>, i: nat)
    requires i < |s|
    ensures Enables(s[..i + 1]) == Enables(s[..i]) + [EnableVertexAttribArray(s[i].id)]
    ensures Disables(s[..i + 1]) == Disables(s[..i]) + [DisableVertexAttribArray(s[i].id)]
  {
    assert s[..i + 1][..i] == s[..i];
  }

  lemma {:induction false} PointersStep(s: seq<Slot<int>>, i: nat)
    requires i < |s| && forall k | 0 <= k <= i :: Ready(s[k])
    ensures Pointers(s[..i + 1]) == Pointers(s[..i]) + PointerCalls(s[i])
    ensures Mismatches(s[..i + 1]) ==
            Mismatches(s[..i]) + (if Mismatched(s[i]) then [AttribTypeMismatch(s[i].name)] else [])
  {
    assert s[..i + 1][..i] == s[..i];
  }

  /**
   * The calls `exec(mode, first, count)` issues on a linked program whose
   * attribute records are `s`, in enumeration order.
   */
  function ExecCalls(id: Handle, s: seq<Slot<int>>, mode: int, first: int, count: int): seq<Call> {
    var n := ReadyPrefix(s);
    [UseProgram(id)] + Enables(s) + Pointers(s[..n]) +
      (if n == |s| then [DrawArrays(mode, first, count)] + Disables(s) else [])
  }

  /** The reports `exec` makes on a linked program whose attribute records are `s`. */
  function ExecErrors(s: seq<Slot<int>>): seq<LogEntry> {
    Mismatches(s[..ReadyPrefix(s)])
  }

  /** How `exec` ends on a linked program whose attribute records are `s`. */
  function ExecOutcome(s: seq<Slot<int>>): ExecResult {
    var n := ReadyPrefix(s);
    if n == |s| then Drawn
    else if s[n].data.None? then NullData(s[n].name)
    else NullType(s[n].name)
  }

  /** `exec` throws at the first record that is not ready. */
  lemma {:induction false} StopsAt(s: seq<Slot<int>>, i: nat)
    requires i < |s| && !Ready(s[i]) && forall k | 0 <= k < i :: Ready(s[k])
    ensures ReadyPrefix(s) == i
    ensures ExecOutcome(s) == if s[i].data.None? then NullData(s[i].name) else NullType(s[i].name)
    ensures ExecErrors(s) == Mismatches(s[..i])
  {
  }

  /** `exec` gets through the second loop when every record is ready. */
  lemma {:induction false} GetsThrough(s: seq<Slot<int>>)
    requires forall k | 0 <= k < |s| :: Ready(s[k])
    ensures ReadyPrefix(s) == |s| && ExecOutcome(s) == Drawn
    ensures s[..ReadyPrefix(s)] == s && ExecErrors(s) == Mismatches(s)
  {
    assert s[..|s|] == s;
  }

  /** Every call in `cs` belongs to the set-up part of `exec`: no draw and no disable. */
  predicate SetupOnly(cs: seq<Call>) {
    forall j | 0 <= j < |cs| ::
      cs[j].UseProgram? || cs[j].EnableVertexAttribArray? || cs[j].BindBuffer? || cs[j].VertexAttribPointer?
  }

  /** The calls `exec` issues before its draw are set-up calls. */
  lemma {:induction false} SetupCalls(id: Handle, s: seq<Slot<int>>, n: nat)
    requires n <= |s| && forall k | 0 <= k < n :: Ready(s[k])
    ensures SetupOnly([UseProgram(id)] + Enables(s) + Pointers(s[..n]))
  {
    var e, p := Enables(s), Pointers(s[..n]);
    var c := [UseProgram(id)] + e + p;
    forall j | 0 <= j < |c|
      ensures c[j].UseProgram? || c[j].EnableVertexAttribArray? || c[j].BindBuffer? || c[j].VertexAttribPointer?
    {
      if 1 + |e| <= j {
        var k := (j - 1 - |e|) / 2;
        assert 0 <= k < n && (j - 1 - |e| == 2 * k || j - 1 - |e| == 2 * k + 1);
        assert c[j] == p[j - 1 - |e|];
        PointersAt(s[..n], k);
      } else if 0 < j {
        assert c[j] == e[j - 1];
        CallsAt(s, j - 1);
      }
    }
  }

  /** In set-up calls, a draw and then disables, the draw is the only draw. */
  lemma {:induction false} DrawOnceAt(x: seq<Call>, y: Call, d: seq<Call>)
    requires SetupOnly(x) && y.DrawArrays?
    requires forall j | 0 <= j < |d| :: !d[j].DrawArrays?
    ensures forall j | 0 <= j < |x + ([y] + d)| :: (x + ([y] + d))[j].DrawArrays? <==> j == |x|
  {
    var c := x + ([y] + d);
    forall j | 0 <= j < |c| ensures c[j].DrawArrays? <==> j == |x| {
      if j < |x| {
        assert c[j] == x[j];
      } else if j > |x| {
        assert c[j] == d[j - |x| - 1];
      }
    }
  }

  /** When every record is ready, `exec` gets through all its loops. */
  lemma {:induction false} ReadyCalls(id: Handle, s: seq<Slot<int>>, mode: int, first: int, count: int)
    requires forall k | 0 <= k < |s| :: Ready(s[k])
    ensures ExecOutcome(s) == Drawn && ExecErrors(s) == Mismatches(s)
    ensures ExecCalls(id, s, mode, first, count) ==
            [UseProgram(id)] + Enables(s) + Pointers(s) + ([DrawArrays(mode, first, count)] + Disables(s))
  {
    GetsThrough(s);
  }

  /**
   * When every record is ready, `exec` issues `useProgram`, one enable per
   * attribute, then a bind and a pointer call per attribute, then the draw
   * with the caller's arguments, then one disable per attribute.
   */
  lemma {:induction false} ExecLayout(id: Handle, s: seq<Slot<int>>, mode: int, first: int, count: int, c: seq<Call>)
    requires forall k | 0 <= k < |s| :: Ready(s[k])
    requires c == ExecCalls(id, s, mode, first, count)
    ensures ExecOutcome(s) == Drawn
    ensures |c| == 4 * |s| + 2 && c[0] == UseProgram(id)
    ensures c[1..1 + |s|] == Enables(s)
    ensures c[1 + |s|..1 + 3 * |s|] == Pointers(s)
    ensures c[1 + 3 * |s|] == DrawArrays(mode, first, count)
    ensures c[2 + 3 * |s|..] == Disables(s)
  {
    ReadyCalls(id, s, mode, first, count);
    var e, p, t := Enables(s), Pointers(s), [DrawArrays(mode, first, count)] + Disables(s);
    assert |e| == |s| && |p| == 2 * |s| && t[0] == DrawArrays(mode, first, count) && t[1..] == Disables(s);
    Slices([UseProgram(id)], e, p, t, c);
  }

  /**
   * The calls for attribute `k` in a full run of `exec`: its enable, its bind
   * and pointer calls with its location, size and base type, and its disable.
   * Locations are passed as they are, `-1` included.
   */
  lemma {:induction false} ExecCallsFor(id: Handle, s: seq<Slot<int>>, mode: int, first: int, count: int, k: nat)
    requires forall j | 0 <= j < |s| :: Ready(s[j])
    requires k < |s|
    ensures var c := ExecCalls(id, s, mode, first, count);
      |c| == 4 * |s| + 2 &&
      c[1 + k] == EnableVertexAttribArray(s[k].id) &&
      c[1 + |s| + 2 * k] == BindBuffer(ARRAY_BUFFER, s[k].data.value.id) &&
      c[2 + |s| + 2 * k] == VertexAttribPointer(s[k].id, s[k].glType.value.size, s[k].glType.value.base, false, 0, 0) &&
      c[2 + 3 * |s| + k] == DisableVertexAttribArray(s[k].id)
  {
    var c := ExecCalls(id, s, mode, first, count);
    ExecLayout(id, s, mode, first, count, c);
    CallsAt(s, k);
    PointersAt(s, k);
    assert c[1 + k] == c[1..1 + |s|][k];
    assert c[1 + |s| + 2 * k] == c[1 + |s|..1 + 3 * |s|][2 * k];
    assert c[2 + |s| + 2 * k] == c[1 + |s|..1 + 3 * |s|][2 * k + 1];
    assert c[2 + 3 * |s| + k] == c[2 + 3 * |s|..][k];
  }

  /** When every record is ready, `exec` draws exactly once, between the pointer calls and the disables. */
  lemma {:induction false} SingleDraw(id: Handle, s: seq<Slot<int>>, mode: int, first: int, count: int, c: seq<Call>)
    requires forall k | 0 <= k < |s| :: Ready(s[k])
    requires c == ExecCalls(id, s, mode, first, count)
    ensures forall j | 0 <= j < |c| :: c[j].DrawArrays? <==> j == 1 + 3 * |s|
  {
    ReadyCalls(id, s, mode, first, count);
    SetupCalls(id, s, |s|);
    assert s[..|s|] == s;
    forall j | 0 <= j < |s| ensures !Disables(s)[j].DrawArrays? {
      CallsAt(s, j);
    }
    DrawOnceAt([UseProgram(id)] + Enables(s) + Pointers(s), DrawArrays(mode, first, count), Disables(s));
  }

  /**
   * When some record is not ready, `exec` throws in the second loop: every
   * attribute stays enabled, the bind and pointer calls stop before that
   * record, and neither the draw nor any disable is issued.
   */
  lemma {:induction false} ExecThrows(id: Handle, s: seq<Slot<int>>, mode: int, first: int, count: int)
    requires exists k | 0 <= k < |s| :: !Ready(s[k])
    ensures ReadyPrefix(s) < |s| && ExecOutcome(s) != Drawn
    ensures var c := ExecCalls(id, s, mode, first, count);
      |c| == 1 + |s| + 2 * ReadyPrefix(s) && c[0] == UseProgram(id) && c[1..1 + |s|] == Enables(s)
    ensures var c := ExecCalls(id, s, mode, first, count);
      forall j | 0 <= j < |c| :: !c[j].DrawArrays? && !c[j].DisableVertexAttribArray?
  {
    var n := ReadyPrefix(s);
    var e, p := Enables(s), Pointers(s[..n]);
    assert |e| == |s| && |p| == 2 * n;
    var c := [UseProgram(id)] + e + p;
    assert ExecCalls(id, s, mode, first, count) == c + [];
    assert c + [] == c;
    SetupCalls(id, s, n);
    Slices([UseProgram(id)], e, p, [], c);
  }

  /** A name is reported as a type mismatch exactly when one of its records is mismatched. */
  lemma {:induction false} MismatchesLogged(s: seq<Slot<int>>, name: string)
    requires forall k | 0 <= k < |s| :: Ready(s[k])
    ensures AttribTypeMismatch(name) in Mismatches(s) <==>
            exists k | 0 <= k < |s| :: s[k].name == name && Mismatched(s[k])
  {
    if s != [] {
      var n := |s| - 1;
      MismatchesLogged(s[..n], name);
      if exists k | 0 <= k < n :: s[..n][k].name == name && Mismatched(s[..n][k]) {
        var k :| 0 <= k < n && s[..n][k].name == name && Mismatched(s[..n][k]);
        assert s[k] == s[..n][k];
      }
      if exists k | 0 <= k < |s| :: s[k].name == name && Mismatched(s[k]) {
        var k :| 0 <= k < |s| && s[k].name == name && Mismatched(s[k]);
        if k < n {
          assert s[..n][k] == s[k];
        }
      }
    }
  }

  /**
   * `exec` reports a type mismatch for a name exactly when a record it got
   * through has that name and a buffer whose element type differs from the
   * attribute's base type.
   */
  lemma {:induction false} MismatchReported(s: seq<Slot<int>>, name: string)
    ensures AttribTypeMismatch(name) in ExecErrors(s) <==>
            exists k | 0 <= k < ReadyPrefix(s) :: s[k].name == name && Mismatched(s[k])
  {
    var n := ReadyPrefix(s);
    MismatchesLogged(s[..n], name);
    if exists k | 0 <= k < n :: s[k].name == name && Mismatched(s[k]) {
      var k :| 0 <= k < n && s[k].name == name && Mismatched(s[k]);
      assert s[..n][k] == s[k];
    }
  }

  /** `exec` throws at a first record that has no buffer, right after enabling every attribute. */
  lemma {:induction false} ThrowsAtFirst(id: Handle, s: seq<Slot<int>>, mode: int, first: int, count: int)
    requires |s| > 0 && s[0].data.None?
    ensures ExecOutcome(s) == NullData(s[0].name)
    ensures ExecCalls(id, s, mode, first, count) == [UseProgram(id)] + Enables(s)
    ensures ExecErrors(s) == []
  {
    assert ReadyPrefix(s) == 0;
    assert s[..0] == [];
    assert [UseProgram(id)] + Enables(s) + [] + [] == [UseProgram(id)] + Enables(s);
  }

  /** The first record of a freshly built table is that of the first declared name, with no buffer. */
  lemma {:induction false} FreshFirstSlot<L>(ds: seq<Decl>, loc: string -> L)
    requires |ds| > 0
    ensures Resolve(ds, loc).Valid()
    ensures var s := Resolve(ds, loc).Values();
      |s| > 0 && s[0].name == ds[0].name && s[0].data.None?
  {
    ResolveKeys(ds, loc);
    ResolveFirstKey(ds, loc);
    ResolveLastWins(ds, loc, ds[0].name);
  }

  /**
   * Before the caller binds any buffer, `exec` on a program with attributes
   * throws at the first declared attribute, right after enabling them all.
   */
  lemma {:induction false} UnboundExecThrows(id: Handle, ds: seq<Decl>, loc: string -> int, mode: int, first: int, count: int)
    requires |ds| > 0
    ensures Resolve(ds, loc).Valid()
    ensures var s := Resolve(ds, loc).Values();
      ExecOutcome(s) == NullData(ds[0].name) &&
      ExecCalls(id, s, mode, first, count) == [UseProgram(id)] + Enables(s) &&
      ExecErrors(s) == []
  {
    FreshFirstSlot(ds, loc);
    ThrowsAtFirst(id, Resolve(ds, loc).Values(), mode, first, count);
  }

  /** The body of the second loop of `exec`, for a record with a buffer and a descriptor. */
  method PointAttrib(ctx: Context, attr: Slot<int>)
    requires Ready(attr)
    modifies ctx
    ensures ctx.trace == old(ctx.trace) + PointerCalls(attr)
    ensures ctx.errors == old(ctx.errors) + (if Mismatched(attr) then [AttribTypeMismatch(attr.name)] else [])
  {
    if attr.data.value.elementType != attr.glType.value.base {
      ctx.Report(AttribTypeMismatch(attr.name));
    }
    ctx.Issue(BindBuffer(ARRAY_BUFFER, attr.data.value.id));
    ctx.Issue(VertexAttribPointer(attr.id, attr.glType.value.size, attr.glType.value.base, false, 0, 0));
  }

  /** The first loop of `exec`: `gl.enableVertexAttribArray(attr.id)` for each attribute. */
  method EnableAll(ctx: Context, attribs: Table<Slot<int>>)
    requires attribs.Listed()
    modifies ctx`trace
    ensures ctx.trace == old(ctx.trace) + Enables(attribs.Values())
  {
    ghost var s := attribs.Values();
    var i := 0;
    while i < |attribs.keys|
      invariant 0 <= i <= |s|
      invariant ctx.trace == old(ctx.trace) + Enables(s[..i])
    {
      var attr := attribs.entries[attribs.keys[i]];
      EnablesStep(s, i);
      Associative(old(ctx.trace), Enables(s[..i]), [EnableVertexAttribArray(attr.id)]);
      ctx.Issue(EnableVertexAttribArray(attr.id));
      i := i + 1;
    }
    assert s[..i] == s;
  }

  /**
   * The second loop of `exec`: for each attribute, the type check, the
   * buffer bind and the pointer call, until a record without a buffer or
   * without a descriptor throws.
   */
  method PointAll(ctx: Context, attribs: Table<Slot<int>>) returns (r: ExecResult)
    requires attribs.Listed()
    modifies ctx
    ensures r == ExecOutcome(attribs.Values())
    ensures ctx.trace == old(ctx.trace) + Pointers(attribs.Values()[..ReadyPrefix(attribs.Values())])
    ensures ctx.errors == old(ctx.errors) + ExecErrors(attribs.Values())
  {
    ghost var s := attribs.Values();
    var i := 0;
    while i < |attribs.keys|
      invariant 0 <= i <= |s|
      invariant forall k | 0 <= k < i :: Ready(s[k])
      invariant ctx.trace == old(ctx.trace) + Pointers(s[..i])
      invariant ctx.errors == old(ctx.errors) + Mismatches(s[..i])
    {
      var attr := attribs.entries[attribs.keys[i]];
      assert attr == s[i];
      if attr.data.None? || attr.glType.None? {
        StopsAt(s, i);
        assert Pointers(s[..ReadyPrefix(s)]) == Pointers(s[..i]);
        r := if attr.data.None? then NullData(attr.name) else NullType(attr.name);
        return;
      }
      PointersStep(s, i);
      Associative(old(ctx.trace), Pointers(s[..i]), PointerCalls(attr));
      Associative(old(ctx.errors), Mismatches(s[..i]), if Mismatched(attr) then [AttribTypeMismatch(attr.name)] else []);
      PointAttrib(ctx, attr);
      i := i + 1;
    }
    GetsThrough(s);
    assert Pointers(s[..ReadyPrefix(s)]) == Pointers(s[..i]);
    r := Drawn;
  }

  /** The last loop of `exec`: `gl.disableVertexAttribArray(attr.id)` for each attribute. */
  method DisableAll(ctx: Context, attribs: Table<Slot<int>>)
    requires attribs.Listed()
    modifies ctx`trace
    ensures ctx.trace == old(ctx.trace) + Disables(attribs.Values())
  {
    ghost var s := attribs.Values();
    var i := 0;
    while i < |attribs.keys|
      invariant 0 <= i <= |s|
      invariant ctx.trace == old(ctx.trace) + Disables(s[..i])
    {
      var attr := attribs.entries[attribs.keys[i]];
      EnablesStep(s, i);
      Associative(old(ctx.trace), Disables(s[..i]), [DisableVertexAttribArray(attr.id)]);
      ctx.Issue(DisableVertexAttribArray(attr.id));
      i := i + 1;
    }
    assert s[..i] == s;
  }

  /** The body of `exec` on a linked program with handle `id` and attribute table `attribs`. */
  method Draw(ctx: Context, id: Handle, attribs: Table<Slot<int>>, mode: int, first: int, count: int)
    returns (r: ExecResult)
    requires attribs.Listed()
    modifies ctx
    ensures r == ExecOutcome(attribs.Values())
    ensures ctx.trace == old(ctx.trace) + ExecCalls(id, attribs.Values(), mode, first, count)
    ensures ctx.errors == old(ctx.errors) + ExecErrors(attribs.Values())
  {
    ghost var s := attribs.Values();
    ghost var n := ReadyPrefix(s);
    ghost var t0 := ctx.trace;
    ghost var calls := [UseProgram(id)] + Enables(s) + Pointers(s[..n]);
    ctx.Issue(UseProgram(id));
    EnableAll(ctx, attribs);
    r := PointAll(ctx, attribs);
    Associative(t0, [UseProgram(id)], Enables(s));
    Associative(t0, [UseProgram(id)] + Enables(s), Pointers(s[..n]));
    assert ctx.trace == t0 + calls;
    if r != Drawn {
      assert calls + [] == calls;
      return;
    }
    ghost var tail := [DrawArrays(mode, first, count)] + Disables(s);
    ghost var logged := ctx.errors;
    ctx.Issue(DrawArrays(mode, first, count));
    DisableAll(ctx, attribs);
    assert ctx.errors == logged;
    Associative(t0, calls, tail);
    Associative(t0 + calls, [DrawArrays(mode, first, count)], Disables(s));
  }

  class Program {
    /** The handle `gl.createProgram` returned. */
    const id: Handle
    /** `self.shaders`: the stages, in the order given. */
    const shaders: seq<Shader>
    var status: Status
    /** `self.attribs` */
    var attribs: Table<Slot<int>>
    /** `self.uniforms` */
    var uniforms: Table<Slot<UniformLoc>>

    predicate Valid()
      reads this
    {
      attribs.Valid() && uniforms.Valid()
    }

    /**
     * `new Program(shaders)`. The handle, the link status, the info log and
     * the location queries are the context's answers, given as parameters.
     */
    constructor (ctx: Context, id: Handle, shaders: seq<Shader>, linkOk: bool, linkLog: string,
                 attribLoc: string -> int, uniformLoc: string -> UniformLoc)
      modifies ctx
      ensures this.id == id && this.shaders == shaders && Valid()
      ensures ctx.trace == old(ctx.trace) + [CreateProgram(id)] + AttachCalls(id, shaders) + [LinkProgram(id)]
      ensures ctx.errors == old(ctx.errors) + (if linkOk then [] else [ProgramLinkError(linkLog)])
      ensures status == if !linkOk then LinkFailed else if Parsable(shaders) then Linked else Aborted
      ensures status == Linked ==> attribs == Resolve(AttribDecls(shaders), attribLoc)
      ensures status == Linked ==> uniforms == Resolve(UniformDecls(shaders), uniformLoc)
      ensures status != Linked ==> attribs == EmptyTable() && uniforms == EmptyTable()
    {
      this.id, this.shaders := id, shaders;
      ctx.Issue(CreateProgram(id));
      var i := 0;
      while i < |shaders|
        invariant 0 <= i <= |shaders|
        invariant ctx.trace == old(ctx.trace) + [CreateProgram(id)] + AttachCalls(id, shaders[..i])
        invariant ctx.errors == old(ctx.errors)
      {
        assert shaders[..i + 1][..i] == shaders[..i];
        ctx.Issue(AttachShader(id, shaders[i].id));
        i := i + 1;
      }
      assert shaders[..i] == shaders;
      ctx.Issue(LinkProgram(id));
      if !linkOk {
        ctx.Report(ProgramLinkError(linkLog));
        status, attribs, uniforms := LinkFailed, EmptyTable(), EmptyTable();
      } else {
        var at, un, ok := Merge(shaders, attribLoc, uniformLoc);
        if ok {
          ResolveKeys(AttribDecls(shaders), attribLoc);
          ResolveKeys(UniformDecls(shaders), uniformLoc);
          status, attribs, uniforms := Linked, at, un;
        } else {
          status, attribs, uniforms := Aborted, EmptyTable(), EmptyTable();
        }
      }
    }

    /** The caller's `program.attribs[name].data = buffer`. */
    method BindData(name: string, buffer: DataBuffer) returns (ok: bool)
      requires Valid()
      modifies this`attribs
      ensures Valid() && attribs.keys == old(attribs.keys)
      ensures ok == (status == Linked && name in old(attribs.entries))
      ensures ok ==> attribs.entries == old(attribs.entries)[name := old(attribs.entries)[name].(data := Some(buffer))]
      ensures !ok ==> attribs == old(attribs)
    {
      ok := status == Linked && name in attribs.entries;
      if ok {
        attribs := attribs.Put(name, attribs.entries[name].(data := Some(buffer)));
      }
    }

    /** `program.exec(mode, begin, end)` */
    method Exec(ctx: Context, mode: int, first: int, count: int) returns (r: ExecResult)
      requires Valid()
      modifies ctx
      ensures status != Linked ==> r == NoExecMethod && ctx.trace == old(ctx.trace) && ctx.errors == old(ctx.errors)
      ensures status == Linked ==> r == ExecOutcome(attribs.Values())
      ensures status == Linked ==> ctx.trace == old(ctx.trace) + ExecCalls(id, attribs.Values(), mode, first, count)
      ensures status == Linked ==> ctx.errors == old(ctx.errors) + ExecErrors(attribs.Values())
    {
      if status != Linked {
        return NoExecMethod;
      }
      r := Draw(ctx, id, attribs, mode, first, count);
    }
  }
}
