/** The shader library: shaders registered under unique names. */
module ShaderLibrary {
  import opened Wrappers
  import ShaderSource

  /** A created shader: its name and the program id the driver handed out. */
  datatype Shader = Shader(name: string, programId: nat)

  /** `Shader::create(filepath)` on the OpenGL back end: the program is built by
      the driver (`programId` stands for it) and the name comes from the path. */
  function CreateFromFile(path: string, programId: nat): (s: Shader)
    requires |path| < ShaderSource.SIZE_T_MODULUS
    ensures s.name == ShaderSource.NameFromPath(path) && s.programId == programId
  {
    Shader(ShaderSource.NameFromPath(path), programId)
  }

  datatype Library = Library(shaders: map<string, Shader>)

  function EmptyLibrary(): (l: Library)
    ensures forall name :: !Exists(l, name)
  {
    Library(map[])
  }

  /** `exists(name)`: the name is a key of the map. */
  predicate Exists(l: Library, name: string) {
    name in l.shaders
  }

  /** `add(name, shader)`: the name must not be taken yet. */
  function Add(l: Library, name: string, s: Shader): (l': Library)
    requires !Exists(l, name)
    ensures Exists(l', name) && Get(l', name) == Some(s)
    ensures forall n :: n != name ==> (Exists(l', n) <==> Exists(l, n)) && Get(l', n) == Get(l, n)
  {
    Library(l.shaders[name := s])
  }

  /** `add(shader)` registers under the shader's own name. */
  function AddNamed(l: Library, s: Shader): (l': Library)
    requires !Exists(l, s.name)
    ensures Get(l', s.name) == Some(s)
    ensures forall n :: n != s.name ==> Get(l', n) == Get(l, n)
  {
    Add(l, s.name, s)
  }

  /** `get(name)`: the registered shader, or null (with an error logged) when
      there is none. */
  function Get(l: Library, name: string): (r: Option<Shader>)
    ensures r.Some? <==> Exists(l, name)
    ensures r.Some? ==> r.value == l.shaders[name]
  {
    if name in l.shaders then Some(l.shaders[name]) else None
  }

  /** `load(filepath)`: create the shader and register it under its derived name. */
  function Load(l: Library, path: string, programId: nat): (r: (Library, Shader))
    requires |path| < ShaderSource.SIZE_T_MODULUS
    requires !Exists(l, ShaderSource.NameFromPath(path))
    ensures r.1 == CreateFromFile(path, programId)
    ensures Get(r.0, ShaderSource.NameFromPath(path)) == Some(r.1)
    ensures forall n :: n != ShaderSource.NameFromPath(path) ==> Get(r.0, n) == Get(l, n)
  {
    var s := CreateFromFile(path, programId);
    (AddNamed(l, s), s)
  }

  /** `load(name, filepath)`: create the shader and register it under `name`. */
  function LoadAs(l: Library, name: string, path: string, programId: nat): (r: (Library, Shader))
    requires |path| < ShaderSource.SIZE_T_MODULUS
    requires !Exists(l, name)
    ensures r.1 == CreateFromFile(path, programId)
    ensures Get(r.0, name) == Some(r.1)
    ensures forall n :: n != name ==> Get(r.0, n) == Get(l, n)
  {
    var s := CreateFromFile(path, programId);
    (Add(l, name, s), s)
  }

  /** Registering two shaders under different names, in either order, gives the
      same library, and each is found under its own name. */
  lemma AddCommutes(l: Library, a: string, sa: Shader, b: string, sb: Shader)
    requires a != b && !Exists(l, a) && !Exists(l, b)
    ensures Add(Add(l, a, sa), b, sb) == Add(Add(l, b, sb), a, sa)
    ensures Get(Add(Add(l, a, sa), b, sb), a) == Some(sa)
  {
  }

  /** Loading the renderer's texture shader registers it as "Texture". */
  lemma LoadTextureShader(programId: nat)
    ensures var (l, s) := Load(EmptyLibrary(), "assets/shaders/Texture.glsl", programId);
      Get(l, "Texture") == Some(s) && s.programId == programId
  {
    ShaderSource.NameExamples();
  }
}
