/**
 Shader-name bookkeeping: the package-level maps from vertex-shader path,
 fragment-shader path and program name to OpenGL ids, the set of names
 already warned about, and the program last made current.

 OpenGL and the file system are not modelled; what they answer is given as
 input (GlOutcomes), and the ids that glCreateShader and glCreateProgram
 hand out come from a counter.
 */
module Shaders {

  datatype Option<T> = None | Some(value: T)

  /** A shader record of the "shaders" registry. */
  datatype ShaderDef = ShaderDef(name: string, vertexPath: string, fragmentPath: string)

  /**
   What the environment answers: which files can be read, which vertex and
   fragment sources compile, and which vertex/fragment pairs link.
   */
  datatype GlOutcomes = GlOutcomes(
    readable: set<string>,
    vertexCompiles: set<string>,
    fragmentCompiles: set<string>,
    links: set<(string, string)>)

  /** The failures InitShaders reports through Error(). */
  datatype LoadFailure =
    | VertexUnreadable(path: string)
    | FragmentUnreadable(path: string)
    | VertexCompileFailed(path: string)
    | FragmentCompileFailed(path: string)
    | LinkFailed(name: string)

  /** The three id maps and the next id OpenGL will hand out. */
  datatype Tables = Tables(
    vertex: map<string, nat>,
    fragment: map<string, nat>,
    progs: map<string, nat>,
    nextId: nat)

  function Empty(nextId: nat): Tables
  {
    Tables(map[], map[], map[], nextId)
  }

  /** Loading d into t succeeds: both files read, both shaders compiled or already known, and the pair linked. */
  predicate Loads(t: Tables, d: ShaderDef, o: GlOutcomes)
  {
    && d.vertexPath in o.readable
    && d.fragmentPath in o.readable
    && (d.vertexPath in t.vertex || d.vertexPath in o.vertexCompiles)
    && (d.fragmentPath in t.fragment || d.fragmentPath in o.fragmentCompiles)
    && (d.vertexPath, d.fragmentPath) in o.links
  }

  datatype Loaded = Loaded(tables: Tables, failure: Option<LoadFailure>)

  /** One iteration of the InitShaders loop; LoadShaderContract states what it does. */
  function LoadShader(t: Tables, d: ShaderDef, o: GlOutcomes): Loaded
  {
    var vp, fp := d.vertexPath, d.fragmentPath;
    if vp !in o.readable then Loaded(t, Some(VertexUnreadable(vp)))
    else if fp !in o.readable then Loaded(t, Some(FragmentUnreadable(fp)))
    else
      var vid := if vp in t.vertex then t.vertex[vp] else t.nextId;
      var n1 := if vp in t.vertex then t.nextId else t.nextId + 1;
      if vp !in t.vertex && vp !in o.vertexCompiles then
        Loaded(t.(nextId := n1), Some(VertexCompileFailed(vp)))
      else
        var fid := if fp in t.fragment then t.fragment[fp] else n1;
        var n2 := if fp in t.fragment then n1 else n1 + 1;
        if fp !in t.fragment && fp !in o.fragmentCompiles then
          Loaded(t.(nextId := n2), Some(FragmentCompileFailed(fp)))
        else
          var pid := n2;
          if (vp, fp) !in o.links then
            Loaded(t.(nextId := n2 + 1), Some(LinkFailed(d.name)))
          else
            Loaded(Tables(t.vertex[vp := vid], t.fragment[fp := fid], t.progs[d.name := pid], n2 + 1), None)
  }

  /**
   One iteration commits all three entries or none: it succeeds exactly when
   Loads holds, a failure leaves the maps as they were, a success adds the
   two paths and the program, keyed by the definition's Name; known paths keep
   their ids and are not compiled again; new ids come from the counter.
   */
  lemma LoadShaderContract(t: Tables, d: ShaderDef, o: GlOutcomes)
    ensures var r := LoadShader(t, d, o);
      && (r.failure.None? <==> Loads(t, d, o))
      // a failed iteration commits nothing
      && (r.failure.Some? ==>
            r.tables.vertex == t.vertex && r.tables.fragment == t.fragment && r.tables.progs == t.progs)
      // a successful one commits all three entries, the program under the definition's Name
      && (r.failure.None? ==>
            && r.tables.vertex.Keys == t.vertex.Keys + {d.vertexPath}
            && r.tables.fragment.Keys == t.fragment.Keys + {d.fragmentPath}
            && r.tables.progs.Keys == t.progs.Keys + {d.name}
            && (forall p :: p in t.vertex && p != d.vertexPath ==> r.tables.vertex[p] == t.vertex[p])
            && (forall p :: p in t.fragment && p != d.fragmentPath ==> r.tables.fragment[p] == t.fragment[p])
            && (forall n :: n in t.progs && n != d.name ==> r.tables.progs[n] == t.progs[n])
            && t.nextId <= r.tables.progs[d.name] < r.tables.nextId)
      // ids are never handed out twice
      && t.nextId <= r.tables.nextId
      // a known path keeps its id, and no shader is created or compiled for it
      && (d.vertexPath in t.vertex ==>
            r.failure != Some(VertexCompileFailed(d.vertexPath)) &&
            (r.failure.None? ==> r.tables.vertex[d.vertexPath] == t.vertex[d.vertexPath]))
      && (d.fragmentPath in t.fragment ==>
            r.failure != Some(FragmentCompileFailed(d.fragmentPath)) &&
            (r.failure.None? ==> r.tables.fragment[d.fragmentPath] == t.fragment[d.fragmentPath]))
      // a new path gets a fresh id; ids are created vertex shader, fragment shader, program
      && (d.vertexPath !in t.vertex && r.failure.None? ==>
            t.nextId <= r.tables.vertex[d.vertexPath] < r.tables.progs[d.name])
      && (d.fragmentPath !in t.fragment && r.failure.None? ==>
            t.nextId <= r.tables.fragment[d.fragmentPath] < r.tables.progs[d.name])
      && (r.failure.None? && d.vertexPath !in t.vertex && d.fragmentPath !in t.fragment ==>
            r.tables.vertex[d.vertexPath] < r.tables.fragment[d.fragmentPath])
      // an unreadable file stops the iteration before anything is created
      && (d.vertexPath !in o.readable ==>
            r == Loaded(t, Some(VertexUnreadable(d.vertexPath))))
      && (d.vertexPath in o.readable && d.fragmentPath !in o.readable ==>
            r == Loaded(t, Some(FragmentUnreadable(d.fragmentPath))))
  {
  }

  /**
   The ids a pass uses up: one for each shader it has to create, and one for
   the program once both shaders exist, whether or not the later steps
   succeed. A path already known creates nothing.
   */
  lemma LoadShaderCounter(t: Tables, d: ShaderDef, o: GlOutcomes)
    ensures var r := LoadShader(t, d, o);
      var nv := if d.vertexPath in t.vertex then 0 else 1;
      var nf := if d.fragmentPath in t.fragment then 0 else 1;
      && (r.failure.None? ==> r.tables.nextId == t.nextId + nv + nf + 1)
      && (r.failure.Some? && r.failure.value.VertexCompileFailed? ==> r.tables.nextId == t.nextId + 1)
      && (r.failure.Some? && r.failure.value.FragmentCompileFailed? ==> r.tables.nextId == t.nextId + nv + 1)
      && (r.failure.Some? && r.failure.value.LinkFailed? ==> r.tables.nextId == t.nextId + nv + nf + 1)
  {
  }

  function Reported(f: Option<LoadFailure>): seq<LoadFailure>
  {
    if f.Some? then [f.value] else []
  }

  lemma AppendAssoc(a: seq<LoadFailure>, b: seq<LoadFailure>, c: seq<LoadFailure>)
    ensures (a + b) + c == a + (b + c)
  {
  }

  datatype Build = Build(tables: Tables, failures: seq<LoadFailure>)

  /** The InitShaders loop over the registry's names, in order. */
  function LoadAll(t: Tables, names: seq<string>, registry: map<string, ShaderDef>, o: GlOutcomes): Build
    requires forall i :: 0 <= i < |names| ==> names[i] in registry
    decreases |names|
  {
    if names == [] then Build(t, [])
    else
      var b := LoadAll(t, names[..|names| - 1], registry, o);
      var l := LoadShader(b.tables, registry[names[|names| - 1]], o);
      Build(l.tables, b.failures + Reported(l.failure))
  }

  /** LoadAll over one more name is one more LoadShader. */
  lemma LoadAllStep(t: Tables, names: seq<string>, i: nat, registry: map<string, ShaderDef>, o: GlOutcomes)
    requires forall j :: 0 <= j < |names| ==> names[j] in registry
    requires i < |names|
    ensures var b := LoadAll(t, names[..i], registry, o);
      var l := LoadShader(b.tables, registry[names[i]], o);
      LoadAll(t, names[..i + 1], registry, o) == Build(l.tables, b.failures + Reported(l.failure))
  {
    assert names[..i + 1][..i] == names[..i];
  }

  ghost predicate Below(m: map<string, nat>, bound: nat)
  {
    forall k :: k in m ==> 0 < m[k] < bound
  }

  ghost predicate Injective(m: map<string, nat>)
  {
    forall k, k' :: k in m && k' in m && k != k' ==> m[k] != m[k']
  }

  ghost predicate Apart(m: map<string, nat>, m': map<string, nat>)
  {
    forall k, k' :: k in m && k' in m' ==> m[k] != m'[k']
  }

  /**
   Every id in the maps is one OpenGL handed out (non-zero, below the
   counter), and no id stands for two paths, two programs, or a shader and
   a program at once.
   */
  ghost predicate WellFormed(t: Tables)
  {
    && 0 < t.nextId
    && Below(t.vertex, t.nextId) && Below(t.fragment, t.nextId) && Below(t.progs, t.nextId)
    && Injective(t.vertex) && Injective(t.fragment) && Injective(t.progs)
    && Apart(t.vertex, t.fragment) && Apart(t.vertex, t.progs) && Apart(t.fragment, t.progs)
  }

  /** Setting m[k] to v either leaves the entry as it is or uses an id at or above bound. */
  ghost predicate KeepsOrFresh(m: map<string, nat>, k: string, v: nat, bound: nat)
  {
    (k in m && v == m[k]) || bound <= v
  }

  lemma UpdateInjective(m: map<string, nat>, k: string, v: nat, bound: nat, bound': nat)
    requires 0 < bound <= bound' && Below(m, bound) && Injective(m)
    requires KeepsOrFresh(m, k, v, bound) && v < bound'
    ensures Below(m[k := v], bound') && Injective(m[k := v])
  {
    if k in m && v == m[k] {
      assert m[k := v] == m;
    }
  }

  lemma UpdateApart(m: map<string, nat>, k: string, v: nat,
                    m': map<string, nat>, k': string, v': nat, bound: nat)
    requires Below(m, bound) && Below(m', bound) && Apart(m, m')
    requires KeepsOrFresh(m, k, v, bound) && KeepsOrFresh(m', k', v', bound)
    requires bound <= v && bound <= v' ==> v != v'
    ensures Apart(m[k := v], m'[k' := v'])
  {
    var u, u' := m[k := v], m'[k' := v'];
    forall x, y | x in u && y in u' ensures u[x] != u'[y] {
      if x != k && y != k' {
        assert u[x] == m[x] && u'[y] == m'[y];
      } else if x != k {
        assert u[x] == m[x] < bound;
      } else if y != k' {
        assert u'[y] == m'[y] < bound;
      }
    }
  }

  /** Committing one shader's entries keeps the ids well formed. */
  lemma CommitKeepsWellFormed(t: Tables, vp: string, fp: string, n: string,
                              vid: nat, fid: nat, pid: nat, next: nat)
    requires WellFormed(t)
    requires vp in t.vertex ==> vid == t.vertex[vp]
    requires vp !in t.vertex ==> t.nextId <= vid < pid
    requires fp in t.fragment ==> fid == t.fragment[fp]
    requires fp !in t.fragment ==> t.nextId <= fid < pid
    requires vp !in t.vertex && fp !in t.fragment ==> vid != fid
    requires t.nextId <= pid < next
    ensures WellFormed(Tables(t.vertex[vp := vid], t.fragment[fp := fid], t.progs[n := pid], next))
  {
    var b := t.nextId;
    UpdateInjective(t.vertex, vp, vid, b, next);
    UpdateInjective(t.fragment, fp, fid, b, next);
    UpdateInjective(t.progs, n, pid, b, next);
    UpdateApart(t.vertex, vp, vid, t.fragment, fp, fid, b);
    UpdateApart(t.vertex, vp, vid, t.progs, n, pid, b);
    UpdateApart(t.fragment, fp, fid, t.progs, n, pid, b);
  }

  lemma LoadShaderKeepsWellFormed(t: Tables, d: ShaderDef, o: GlOutcomes)
    requires WellFormed(t)
    ensures WellFormed(LoadShader(t, d, o).tables)
  {
    var r := LoadShader(t, d, o);
    LoadShaderContract(t, d, o);
    if r.failure.None? {
      var vp, fp, n := d.vertexPath, d.fragmentPath, d.name;
      var vid, fid, pid := r.tables.vertex[vp], r.tables.fragment[fp], r.tables.progs[n];
      assert r.tables == Tables(t.vertex[vp := vid], t.fragment[fp := fid], t.progs[n := pid], r.tables.nextId);
      CommitKeepsWellFormed(t, vp, fp, n, vid, fid, pid, r.tables.nextId);
    }
  }

  /** The whole loop keeps the ids well formed. */
  lemma {:induction false} LoadAllKeepsWellFormed(t: Tables, names: seq<string>,
                                                  registry: map<string, ShaderDef>, o: GlOutcomes)
    requires forall i :: 0 <= i < |names| ==> names[i] in registry
    requires WellFormed(t)
    ensures WellFormed(LoadAll(t, names, registry, o).tables)
    decreases |names|
  {
    if names != [] {
      var prefix := names[..|names| - 1];
      LoadAllKeepsWellFormed(t, prefix, registry, o);
      LoadShaderKeepsWellFormed(LoadAll(t, prefix, registry, o).tables, registry[names[|names| - 1]], o);
    }
  }

  /**
   What the loop leaves in the maps comes from the definitions: every new
   program is keyed by some definition's Name, and every new path is some
   definition's vertex or fragment path. Entries are never removed.
   */
  lemma {:induction false} LoadAllProvenance(t: Tables, names: seq<string>,
                                             registry: map<string, ShaderDef>, o: GlOutcomes)
    requires forall i :: 0 <= i < |names| ==> names[i] in registry
    ensures var r := LoadAll(t, names, registry, o).tables;
      && t.vertex.Keys <= r.vertex.Keys && t.fragment.Keys <= r.fragment.Keys && t.progs.Keys <= r.progs.Keys
      && t.nextId <= r.nextId
      && (forall n :: n in r.progs && n !in t.progs ==>
            exists i :: 0 <= i < |names| && registry[names[i]].name == n)
      && (forall p :: p in r.vertex && p !in t.vertex ==>
            exists i :: 0 <= i < |names| && registry[names[i]].vertexPath == p)
      && (forall p :: p in r.fragment && p !in t.fragment ==>
            exists i :: 0 <= i < |names| && registry[names[i]].fragmentPath == p)
    decreases |names|
  {
    if names != [] {
      var k := |names| - 1;
      var prefix := names[..k];
      LoadAllProvenance(t, prefix, registry, o);
      var b := LoadAll(t, prefix, registry, o).tables;
      var r := LoadAll(t, names, registry, o).tables;
      var d := registry[names[k]];
      assert r == LoadShader(b, d, o).tables;
      LoadShaderContract(b, d, o);
      forall n | n in r.progs && n !in t.progs
        ensures exists i :: 0 <= i < |names| && registry[names[i]].name == n
      {
        if n in b.progs {
          var i :| 0 <= i < |prefix| && registry[prefix[i]].name == n;
          assert names[i] == prefix[i];
        } else {
          assert registry[names[k]].name == n;
        }
      }
      forall p | p in r.vertex && p !in t.vertex
        ensures exists i :: 0 <= i < |names| && registry[names[i]].vertexPath == p
      {
        if p in b.vertex {
          var i :| 0 <= i < |prefix| && registry[prefix[i]].vertexPath == p;
          assert names[i] == prefix[i];
        } else {
          assert registry[names[k]].vertexPath == p;
        }
      }
      forall p | p in r.fragment && p !in t.fragment
        ensures exists i :: 0 <= i < |names| && registry[names[i]].fragmentPath == p
      {
        if p in b.fragment {
          var i :| 0 <= i < |prefix| && registry[prefix[i]].fragmentPath == p;
          assert names[i] == prefix[i];
        } else {
          assert registry[names[k]].fragmentPath == p;
        }
      }
    }
  }

  /**
   Programs are keyed by the definition's Name: two definitions with the same
   Name (under different registry keys) leave one entry, holding the second
   program, and the first program's id is no longer reachable by name.
   */
  lemma SameNameOverwrites(t: Tables, d1: ShaderDef, d2: ShaderDef, o: GlOutcomes)
    requires d1.name == d2.name
    requires Loads(t, d1, o)
    requires Loads(LoadShader(t, d1, o).tables, d2, o)
    ensures var t1 := LoadShader(t, d1, o).tables;
      var t2 := LoadShader(t1, d2, o).tables;
      && t2.progs.Keys == t.progs.Keys + {d1.name}
      && d1.name in t1.progs && d2.name in t2.progs
      && t1.progs[d1.name] < t1.nextId <= t2.progs[d2.name]
  {
    LoadShaderContract(t, d1, o);
    LoadShaderContract(LoadShader(t, d1, o).tables, d2, o);
  }

  // The calls made after InitShaders: EnableShader, SetUniformI, SetUniformF.

  /** The value written by SetUniformI, or the fact that SetUniformF wrote a float. */
  datatype UniformValue = IntValue(n: int) | FloatValue

  /**
   Go's conversion of an int to the 32-bit GLint: the low 32 bits of n, read
   as a two's-complement number.
   */
  function ToGLint(n: int): (r: int)
    ensures -0x8000_0000 <= r < 0x8000_0000
    ensures (n - r) % 0x1_0000_0000 == 0
    ensures -0x8000_0000 <= n < 0x8000_0000 ==> r == n
  {
    (n + 0x8000_0000) % 0x1_0000_0000 - 0x8000_0000
  }

  datatype UniformWrite = UniformWrite(prog: nat, variable: string, value: UniformValue)

  /** All package-level state, plus what was observed: warnings, uniform writes, errors. */
  datatype ShaderState = ShaderState(
    vertex: map<string, nat>,
    fragment: map<string, nat>,
    progs: map<string, nat>,
    warned: set<string>,
    current: nat,
    warnings: seq<string>,
    uniforms: seq<UniformWrite>,
    errors: seq<LoadFailure>,
    nextId: nat)

  function Elems(s: seq<string>): set<string>
  {
    set x | x in s
  }

  /** EnableShader(name) on st. */
  function AfterEnable(st: ShaderState, name: string): (r: ShaderState)
    // the program made current: the named one, or 0 when the name is unknown
    ensures name in st.progs ==> r.current == st.progs[name]
    ensures name !in st.progs ==> r.current == 0
    // a warning only for an unknown, non-empty, not yet warned name
    ensures |st.warnings| <= |r.warnings| <= |st.warnings| + 1
    ensures r.warnings[..|st.warnings|] == st.warnings
    ensures |r.warnings| == |st.warnings| + 1 <==>
      name !in st.progs && name != "" && name !in st.warned
    ensures |r.warnings| == |st.warnings| + 1 ==> r.warnings[|st.warnings|] == name
    ensures r.warned == st.warned + Elems(r.warnings[|st.warnings|..])
    // nothing else changes
    ensures r.(current := st.current, warned := st.warned, warnings := st.warnings) == st
  {
    if name in st.progs then st.(current := st.progs[name])
    else if name != "" && name !in st.warned then
      st.(current := 0, warnings := st.warnings + [name], warned := st.warned + {name})
    else st.(current := 0)
  }

  /** SetUniformI or SetUniformF on st. */
  function AfterSetUniform(st: ShaderState, shader: string, variable: string, value: UniformValue): (r: ShaderState)
    // a known shader: the value is written to its program, no warning
    ensures shader in st.progs ==>
      r.uniforms == st.uniforms + [UniformWrite(st.progs[shader], variable, value)] &&
      r.warnings == st.warnings && r.warned == st.warned
    // an unknown one (the empty name included): nothing written, a warning the first time
    ensures shader !in st.progs ==> r.uniforms == st.uniforms
    ensures shader !in st.progs && shader !in st.warned ==>
      r.warnings == st.warnings + [shader] && r.warned == st.warned + {shader}
    ensures shader !in st.progs && shader in st.warned ==>
      r.warnings == st.warnings && r.warned == st.warned
    // nothing else changes
    ensures r.(uniforms := st.uniforms, warned := st.warned, warnings := st.warnings) == st
  {
    if shader !in st.progs then
      if shader !in st.warned then st.(warnings := st.warnings + [shader], warned := st.warned + {shader})
      else st
    else st.(uniforms := st.uniforms + [UniformWrite(st.progs[shader], variable, value)])
  }

  datatype ShaderCall =
    | Enable(name: string)
    | UniformI(shader: string, variable: string, n: int)
    | UniformF(shader: string, variable: string)

  function Apply(st: ShaderState, c: ShaderCall): ShaderState
  {
    match c
    case Enable(name) => AfterEnable(st, name)
    case UniformI(shader, variable, n) => AfterSetUniform(st, shader, variable, IntValue(ToGLint(n)))
    case UniformF(shader, variable) => AfterSetUniform(st, shader, variable, FloatValue)
  }

  function Replay(st: ShaderState, calls: seq<ShaderCall>): ShaderState
    decreases |calls|
  {
    if calls == [] then st else Replay(Apply(st, calls[0]), calls[1..])
  }

  ghost predicate NoDup(s: seq<string>)
  {
    forall i, j :: 0 <= i < j < |s| ==> s[i] != s[j]
  }

  /** The warnings r has logged beyond those of st. */
  function Added(st: ShaderState, r: ShaderState): seq<string>
    requires |st.warnings| <= |r.warnings|
  {
    r.warnings[|st.warnings|..]
  }

  /**
   From st to r the id maps stay as they are, the log only grows, and each
   name it gains is new to the warned set, unknown as a program, and logged
   once; the warned set grows by exactly those names.
   */
  ghost predicate WarnsOnceBetween(st: ShaderState, r: ShaderState)
  {
    && r.vertex == st.vertex && r.fragment == st.fragment && r.progs == st.progs
    && |st.warnings| <= |r.warnings| && r.warnings[..|st.warnings|] == st.warnings
    && NoDup(Added(st, r))
    && (forall x :: x in Added(st, r) ==> x !in st.warned && x !in st.progs)
    && r.warned == st.warned + Elems(Added(st, r))
  }

  lemma ApplyWarnsOnce(st: ShaderState, c: ShaderCall)
    ensures WarnsOnceBetween(st, Apply(st, c))
    ensures c.Enable? ==> "" !in Added(st, Apply(st, c))
  {
  }

  lemma WarnsOnceTransitive(a: ShaderState, b: ShaderState, c: ShaderState)
    requires WarnsOnceBetween(a, b) && WarnsOnceBetween(b, c)
    ensures WarnsOnceBetween(a, c)
    ensures Added(a, c) == Added(a, b) + Added(b, c)
  {
    var w0, w1, w := Added(a, b), Added(b, c), Added(a, c);
    assert b.warnings == a.warnings + w0;
    assert c.warnings == b.warnings + w1;
    assert w == w0 + w1;
    assert c.warnings[..|a.warnings|] == a.warnings;
    assert Elems(w) == Elems(w0) + Elems(w1);
    forall x | x in w1 ensures x !in w0 {
      assert x !in b.warned;
      assert x !in Elems(w0);
    }
    NoDupAppend(w0, w1);
  }

  /** Two duplicate-free logs with no name in common concatenate to one. */
  lemma NoDupAppend(w0: seq<string>, w1: seq<string>)
    requires NoDup(w0) && NoDup(w1)
    requires forall x :: x in w1 ==> x !in w0
    ensures NoDup(w0 + w1)
  {
    var w := w0 + w1;
    forall i, j | 0 <= i < j < |w|
      ensures w[i] != w[j]
    {
      if i < |w0| && |w0| <= j {
        assert w[i] in w0 && w[j] in w1;
      } else if |w0| <= i {
        assert w[i] == w1[i - |w0|] && w[j] == w1[j - |w0|];
      }
    }
  }

  /**
   Over any sequence of EnableShader / SetUniformI / SetUniformF calls, the
   shared warned set only grows, each name is warned about at most once and
   only while unknown and not warned before, and the id maps never change.
   */
  lemma {:induction false} WarnsAtMostOnce(st: ShaderState, calls: seq<ShaderCall>)
    ensures WarnsOnceBetween(st, Replay(st, calls))
    decreases |calls|
  {
    if calls != [] {
      var s1 := Apply(st, calls[0]);
      ApplyWarnsOnce(st, calls[0]);
      WarnsAtMostOnce(s1, calls[1..]);
      WarnsOnceTransitive(st, s1, Replay(s1, calls[1..]));
    } else {
      assert Added(st, st) == [];
    }
  }

  /** A sequence of EnableShader calls never warns about the empty name. */
  lemma {:induction false} EnableNeverWarnsEmpty(st: ShaderState, calls: seq<ShaderCall>)
    requires forall i :: 0 <= i < |calls| ==> calls[i].Enable?
    ensures |st.warnings| <= |Replay(st, calls).warnings|
    ensures "" !in Added(st, Replay(st, calls))
    decreases |calls|
  {
    if calls == [] {
      assert Added(st, st) == [];
    } else {
      var s1 := Apply(st, calls[0]);
      ApplyWarnsOnce(st, calls[0]);
      EnableNeverWarnsEmpty(s1, calls[1..]);
      WarnsAtMostOnce(s1, calls[1..]);
      WarnsOnceTransitive(st, s1, Replay(s1, calls[1..]));
    }
  }

  /** The package's state as one object; the shader registry is given to InitShaders. */
  class ShaderRegistry {
    var vertexShaders: map<string, nat>
    var fragmentShaders: map<string, nat>
    var shaderProgs: map<string, nat>
    var warnedNames: set<string>
    /** The program last passed to glUseProgram. */
    var current: nat
    /** The names warned about, in order. */
    var warnings: seq<string>
    var uniforms: seq<UniformWrite>
    /** The failures InitShaders reported, in order. */
    var errors: seq<LoadFailure>
    /** Stands for OpenGL's allocation of shader and program ids. */
    var nextId: nat

    ghost function State(): ShaderState
      reads this
    {
      ShaderState(vertexShaders, fragmentShaders, shaderProgs, warnedNames, current,
                  warnings, uniforms, errors, nextId)
    }

    ghost function Ids(): Tables
      reads this
    {
      Tables(vertexShaders, fragmentShaders, shaderProgs, nextId)
    }

    ghost predicate Valid()
      reads this
    {
      WellFormed(Ids())
    }

    constructor ()
      ensures Valid()
      ensures State() == ShaderState(map[], map[], map[], {}, 0, [], [], [], 1)
    {
      vertexShaders, fragmentShaders, shaderProgs := map[], map[], map[];
      warnedNames := {};
      current := 0;
      warnings, uniforms, errors := [], [], [];
      nextId := 1;
    }

    method EnableShader(name: string)
      requires Valid()
      modifies this`current, this`warnings, this`warnedNames
      ensures Valid()
      ensures State() == AfterEnable(old(State()), name)
    {
      if name in shaderProgs {
        current := shaderProgs[name];
      } else {
        current := 0;
        if name != "" && name !in warnedNames {
          warnings := warnings + [name];
          warnedNames := warnedNames + {name};
        }
      }
    }

    method SetUniformI(shader: string, variable: string, n: int)
      requires Valid()
      modifies this`warnings, this`warnedNames, this`uniforms
      ensures Valid()
      ensures State() == AfterSetUniform(old(State()), shader, variable, IntValue(ToGLint(n)))
    {
      if shader !in shaderProgs {
        if shader !in warnedNames {
          warnings := warnings + [shader];
          warnedNames := warnedNames + {shader};
        }
        return;
      }
      uniforms := uniforms + [UniformWrite(shaderProgs[shader], variable, IntValue(ToGLint(n)))];
    }

    method SetUniformF(shader: string, variable: string)
      requires Valid()
      modifies this`warnings, this`warnedNames, this`uniforms
      ensures Valid()
      ensures State() == AfterSetUniform(old(State()), shader, variable, FloatValue)
    {
      if shader !in shaderProgs {
        if shader !in warnedNames {
          warnings := warnings + [shader];
          warnedNames := warnedNames + {shader};
        }
        return;
      }
      uniforms := uniforms + [UniformWrite(shaderProgs[shader], variable, FloatValue)];
    }

    /**
     One pass of the InitShaders loop body: read both files, create and
     compile each shader whose path is not yet known, link, and commit the
     three entries only if every step succeeded; a failure reports an error
     and leaves the maps as they were (the source's `continue`).
     */
    method LoadOne(shader: ShaderDef, o: GlOutcomes)
      modifies this`vertexShaders, this`fragmentShaders, this`shaderProgs, this`nextId, this`errors
      ensures Ids() == LoadShader(old(Ids()), shader, o).tables
      ensures errors == old(errors) + Reported(LoadShader(old(Ids()), shader, o).failure)
    {
      ghost var t := Ids();
      ghost var r := LoadShader(t, shader, o);
      var vp, fp := shader.vertexPath, shader.fragmentPath;
      if vp !in o.readable {
        assert r == Loaded(t, Some(VertexUnreadable(vp)));
        errors := errors + [VertexUnreadable(vp)];
        return;
      }
      if fp !in o.readable {
        assert r == Loaded(t, Some(FragmentUnreadable(fp)));
        errors := errors + [FragmentUnreadable(fp)];
        return;
      }

      var vertexId: nat;
      if vp in vertexShaders {
        vertexId := vertexShaders[vp];
      } else {
        vertexId := nextId;
        nextId := nextId + 1;
        if vp !in o.vertexCompiles {
          assert r == Loaded(Ids(), Some(VertexCompileFailed(vp)));
          errors := errors + [VertexCompileFailed(vp)];
          return;
        }
      }

      var fragmentId: nat;
      if fp in fragmentShaders {
        fragmentId := fragmentShaders[fp];
      } else {
        fragmentId := nextId;
        nextId := nextId + 1;
        if fp !in o.fragmentCompiles {
          assert r == Loaded(Ids(), Some(FragmentCompileFailed(fp)));
          errors := errors + [FragmentCompileFailed(fp)];
          return;
        }
      }

      var programId := nextId;
      nextId := nextId + 1;
      if (vp, fp) !in o.links {
        assert r == Loaded(Ids(), Some(LinkFailed(shader.name)));
        errors := errors + [LinkFailed(shader.name)];
        return;
      }

      assert r == Loaded(Tables(t.vertex[vp := vertexId], t.fragment[fp := fragmentId],
                                t.progs[shader.name := programId], nextId), None);
      vertexShaders := vertexShaders[vp := vertexId];
      fragmentShaders := fragmentShaders[fp := fragmentId];
      shaderProgs := shaderProgs[shader.name := programId];
    }

    /**
     InitShaders: empty the four maps, then load every shader of the registry
     (names in the order the registry gives them), committing a shader's
     three entries only once its files were read, compiled and linked.
     */
    method InitShaders(names: seq<string>, registry: map<string, ShaderDef>, o: GlOutcomes)
      requires Valid()
      requires forall i :: 0 <= i < |names| ==> names[i] in registry
      modifies this`vertexShaders, this`fragmentShaders, this`shaderProgs, this`warnedNames, this`nextId, this`errors
      ensures Valid()
      ensures Ids() == LoadAll(Empty(old(nextId)), names, registry, o).tables
      ensures errors == old(errors) + LoadAll(Empty(old(nextId)), names, registry, o).failures
      ensures warnedNames == {}
    {
      ghost var start, e := Empty(nextId), errors;
      vertexShaders := map[];
      fragmentShaders := map[];
      shaderProgs := map[];
      warnedNames := {};
      var i := 0;
      while i < |names|
        invariant 0 <= i <= |names|
        invariant Ids() == LoadAll(start, names[..i], registry, o).tables
        invariant errors == e + LoadAll(start, names[..i], registry, o).failures
        invariant warnedNames == {}
      {
        ghost var b := LoadAll(start, names[..i], registry, o);
        ghost var l := LoadShader(b.tables, registry[names[i]], o);
        LoadAllStep(start, names, i, registry, o);
        ghost var e0, t0 := errors, Ids();
        assert t0 == b.tables;
        LoadOne(registry[names[i]], o);
        assert Ids() == l.tables;
        assert errors == e0 + Reported(l.failure);
        AppendAssoc(e, b.failures, Reported(l.failure));
        i := i + 1;
      }
      assert names[..|names|] == names;
      LoadAllKeepsWellFormed(start, names, registry, o);
    }
  }
}
