/** Shader source text: stage names, the `#type` splitter of `preProcess`, the
    shader name taken from a file path, and the binary-cache file extensions. */
module ShaderSource {
  import opened Wrappers
  import opened Strings

  const GL_VERTEX_SHADER: nat := 0x8B31
  const GL_FRAGMENT_SHADER: nat := 0x8B30

  const TypeToken: string := "#type"
  const NewLine: set<char> := {'\r', '\n'}

  /** `shaderTypeFromString`: "vertex" is the vertex stage, "fragment" and
      "pixel" the fragment stage; anything else asserts and gives 0. */
  function ShaderTypeFromString(name: string): (stage: nat)
    ensures stage == GL_VERTEX_SHADER <==> name == "vertex"
    ensures stage == GL_FRAGMENT_SHADER <==> name == "fragment" || name == "pixel"
    ensures stage == 0 <==> name !in {"vertex", "fragment", "pixel"}
  {
    if name == "vertex" then GL_VERTEX_SHADER
    else if name == "fragment" || name == "pixel" then GL_FRAGMENT_SHADER
    else 0
  }

  /** The canonical name of a stage, an inverse of the mapping above. */
  function StageName(stage: nat): string
    requires stage == GL_VERTEX_SHADER || stage == GL_FRAGMENT_SHADER
  {
    if stage == GL_VERTEX_SHADER then "vertex" else "fragment"
  }

  /** Every stage is recovered from its name, and the only name that is not
      canonical is the "pixel" alias. */
  lemma StageNameRoundTrip(stage: nat, name: string)
    requires stage == GL_VERTEX_SHADER || stage == GL_FRAGMENT_SHADER
    ensures ShaderTypeFromString(StageName(stage)) == stage
    ensures ShaderTypeFromString(name) != 0 ==>
      name == StageName(ShaderTypeFromString(name)) || name == "pixel"
  {
  }

  /** A stage name has no line break in it. */
  lemma StageNameHasNoNewLine(name: string)
    requires ShaderTypeFromString(name) != 0
    ensures forall j :: 0 <= j < |name| ==> name[j] !in NewLine
  {
  }

  // ---------------------------------------------------------------------------
  // preProcess

  /** One pass of the `preProcess` loop with `pos` at a `#type` token. The loop's
      debug assertions (a declaration line without an end, an unknown stage, a
      declaration with no code after it) are `None`, the debug build's break.
      In a release build the first and last of those throw `out_of_range` from
      `substr` instead, while the unknown stage is not stopped at all and its
      code is stored under key 0; that release behaviour is not modelled. */
  function PreProcessFrom(s: string, pos: nat, acc: map<nat, string>): (r: Option<map<nat, string>>)
    requires OccursAt(s, TypeToken, pos)
    ensures r.Some? ==> acc.Keys <= r.value.Keys
    ensures r.Some? ==> 0 !in r.value.Keys - acc.Keys
    decreases |s| - pos
  {
    match Declaration(s, pos)
    case None => None
    case Some((stage, next)) =>
      match Find(s, TypeToken, next)
      case None => Some(acc[stage := s[next..]])
      case Some(p) => PreProcessFrom(s, p, acc[stage := s[next..p]])
  }

  /** The declaration line at `pos`: its stage, and where the code after it
      starts (past the line breaks). */
  function Declaration(s: string, pos: nat): (r: Option<(nat, nat)>)
    requires OccursAt(s, TypeToken, pos)
    ensures r.Some? ==> r.value.0 != 0 && pos < r.value.1 < |s|
  {
    match FindFirstOf(s, NewLine, pos)
    case None => None
    case Some(eol) =>
      assert s[pos..pos + 5] == TypeToken;
      assert forall j :: pos <= j < pos + 5 ==> s[j] == TypeToken[j - pos];
      var begin := pos + |TypeToken| + 1;
      var name := if eol >= begin then s[begin..eol] else s[begin..];
      var stage := ShaderTypeFromString(name);
      if stage == 0 then None
      else match FindFirstNotOf(s, NewLine, eol)
        case None => None
        case Some(next) => Some((stage, next))
  }

  /** `preProcess`: text before the first `#type` is skipped, and a source with
      no `#type` at all gives an empty map. An unknown stage stops the split,
      as the debug build's assertion does. */
  function PreProcess(s: string): (r: Option<map<nat, string>>)
    ensures Find(s, TypeToken, 0).None? ==> r == Some(map[])
    ensures r.Some? ==> 0 !in r.value.Keys
  {
    match Find(s, TypeToken, 0)
    case None => Some(map[])
    case Some(p) => PreProcessFrom(s, p, map[])
  }

  // ---------------------------------------------------------------------------
  // The splitter undoes the writing of a multi-stage file

  datatype Section = Section(stageName: string, body: string)

  /** The declaration line of a section. */
  function Header(name: string): string {
    "#type " + name + "\n"
  }

  /** A shader file laid out as its sections, each under its declaration line. */
  function Render(secs: seq<Section>): string {
    if |secs| == 0 then "" else Header(secs[0].stageName) + secs[0].body + Render(secs[1..])
  }

  /** Text with no `#type` in it that ends a line (or is empty), so no token can
      start in it and run on into what follows. */
  predicate Plain(t: string) {
    && (forall j :: 0 <= j < |t| ==> !OccursAt(t, TypeToken, j))
    && (|t| > 0 ==> t[|t| - 1] == '\n')
  }

  /** A section the splitter reads back: a known stage, and a plain non-empty
      body that does not start with a line break. */
  predicate WellFormed(sec: Section) {
    && ShaderTypeFromString(sec.stageName) != 0
    && |sec.body| > 0
    && sec.body[0] !in NewLine
    && Plain(sec.body)
  }

  /** The map the sections describe: a later section of a stage replaces an earlier one. */
  function Sources(acc: map<nat, string>, secs: seq<Section>): map<nat, string>
    decreases |secs|
  {
    if |secs| == 0 then acc
    else Sources(acc[ShaderTypeFromString(secs[0].stageName) := secs[0].body], secs[1..])
  }

  /** No token starts inside `s[a..b]` when that segment is plain. */
  lemma PlainSegmentHasNoToken(s: string, a: nat, b: nat)
    requires a <= b <= |s|
    requires Plain(s[a..b])
    ensures forall j :: a <= j < b ==> !OccursAt(s, TypeToken, j)
  {
    forall j | a <= j < b
      ensures !OccursAt(s, TypeToken, j)
    {
      if j + 5 <= b {
        SliceOfSlice(s, a, b, j - a, j - a + 5);
        assert !OccursAt(s[a..b], TypeToken, j - a);
      } else if j + 5 <= |s| {
        assert s[a..b][b - 1 - a] == '\n';
        assert s[j..j + 5][b - 1 - j] == s[b - 1];
      }
    }
  }

  lemma HeaderChars(name: string)
    ensures var h := Header(name);
      && |h| == 7 + |name|
      && h[..5] == TypeToken
      && h[6..6 + |name|] == name
      && h[6 + |name|] == '\n'
      && h[..6] == "#type "
  {
  }

  lemma ConcatParts(pre: string, h: string, body: string, rest: string)
    ensures var s := pre + h + body + rest;
      && |s| == |pre| + |h| + |body| + |rest|
      && s[|pre|..|pre| + |h|] == h
      && s[|pre| + |h|..|pre| + |h| + |body|] == body
      && s[|pre| + |h| + |body|..] == rest
  {
    var s := pre + h + body + rest;
    assert s == pre + (h + body + rest);
    assert (h + body + rest)[|h|..|h| + |body|] == body;
  }

  lemma SliceOfSlice(s: string, a: nat, b: nat, c: nat, d: nat)
    requires a <= b <= |s| && c <= d <= b - a
    ensures s[a..b][c..d] == s[a + c..a + d]
  {
    forall k | 0 <= k < d - c
      ensures s[a..b][c..d][k] == s[a + c..a + d][k]
    {
      assert s[a..b][c..d][k] == s[a + c + k];
    }
  }

  lemma HeaderScan(s: string, pos: nat, name: string)
    requires ShaderTypeFromString(name) != 0
    requires pos + 7 + |name| < |s|
    requires s[pos..pos + 7 + |name|] == Header(name)
    requires s[pos + 7 + |name|] !in NewLine
    ensures var eol := pos + 6 + |name|;
      && OccursAt(s, TypeToken, pos)
      && FindFirstOf(s, NewLine, pos) == Some(eol)
      && s[pos + 6..eol] == name
      && FindFirstNotOf(s, NewLine, eol) == Some(eol + 1)
  {
    var h := Header(name);
    var eol := pos + 6 + |name|;
    HeaderChars(name);
    StageNameHasNoNewLine(name);
    var hs := s[pos..pos + |h|];
    SliceOfSlice(s, pos, pos + |h|, 0, 5);
    SliceOfSlice(s, pos, pos + |h|, 6, 6 + |name|);
    assert s[eol] == hs[6 + |name|];
    forall j | pos <= j < eol
      ensures s[j] !in NewLine
    {
      assert s[j] == hs[j - pos];
      if j - pos >= 6 {
        assert hs[j - pos] == h[6..6 + |name|][j - pos - 6];
      } else {
        assert hs[j - pos] == h[..6][j - pos];
      }
    }
    FindFirstOfIs(s, NewLine, pos, eol);
    FindFirstNotOfIs(s, NewLine, eol, eol + 1);
  }

  /** The declaration line `#type name` read at `pos`. */
  lemma DeclarationRead(s: string, pos: nat, name: string)
    requires OccursAt(s, TypeToken, pos)
    requires FindFirstOf(s, NewLine, pos) == Some(pos + 6 + |name|)
    requires s[pos + 6..pos + 6 + |name|] == name
    requires ShaderTypeFromString(name) != 0
    requires FindFirstNotOf(s, NewLine, pos + 6 + |name|) == Some(pos + 7 + |name|)
    ensures Declaration(s, pos) == Some((ShaderTypeFromString(name), pos + 7 + |name|))
  {
    assert |TypeToken| + 1 == 6;
  }

  /** The pass at one section's declaration line reads its stage and body and
      stops at the next declaration line, or at the end. */
  lemma {:induction false} PreProcessFromRender(pre: string, secs: seq<Section>, acc: map<nat, string>)
    requires |secs| > 0
    requires forall i :: 0 <= i < |secs| ==> WellFormed(secs[i])
    ensures OccursAt(pre + Render(secs), TypeToken, |pre|)
    ensures PreProcessFrom(pre + Render(secs), |pre|, acc) == Some(Sources(acc, secs))
    decreases |secs|
  {
    var name := secs[0].stageName;
    var body := secs[0].body;
    var rest := Render(secs[1..]);
    var h := Header(name);
    var s := pre + Render(secs);
    assert s == pre + h + body + rest;
    var pos := |pre|;
    var next := pos + |h|;
    var end := next + |body|;
    HeaderChars(name);
    ConcatParts(pre, h, body, rest);
    assert s[next] == s[next..end][0];
    HeaderScan(s, pos, name);
    DeclarationRead(s, pos, name);
    PlainSegmentHasNoToken(s, next, end);
    var stage := ShaderTypeFromString(name);
    if |secs| == 1 {
      assert end == |s|;
      assert Find(s, TypeToken, next).None?;
      assert s[next..] == body;
    } else {
      var pre' := pre + h + body;
      assert pre' + rest == s;
      assert |pre'| == end;
      PreProcessFromRender(pre', secs[1..], acc[stage := body]);
      FindIsFirstOccurrence(s, TypeToken, next, end);
    }
  }

  /** Splitting a written file gives back each stage's code: text before the
      first declaration is dropped and a later section of a stage wins. */
  lemma PreProcessRender(preamble: string, secs: seq<Section>)
    requires Plain(preamble)
    requires forall i :: 0 <= i < |secs| ==> WellFormed(secs[i])
    ensures PreProcess(preamble + Render(secs)) == Some(Sources(map[], secs))
  {
    var s := preamble + Render(secs);
    PlainSegmentHasNoToken(s, 0, |preamble|);
    assert s[0..|preamble|] == preamble;
    if |secs| == 0 {
      assert s == preamble;
      forall j | |preamble| <= j
        ensures !OccursAt(s, TypeToken, j)
      {
      }
    } else {
      PreProcessFromRender(preamble, secs, map[]);
      FindIsFirstOccurrence(s, TypeToken, 0, |preamble|);
    }
  }

  /** The usual vertex-then-fragment file splits into its two stages. */
  lemma VertexFragmentFile(vs: string, fs: string)
    requires WellFormed(Section("vertex", vs)) && WellFormed(Section("fragment", fs))
    ensures PreProcess(Render([Section("vertex", vs), Section("fragment", fs)]))
      == Some(map[GL_VERTEX_SHADER := vs, GL_FRAGMENT_SHADER := fs])
  {
    var a := [Section("vertex", vs), Section("fragment", fs)];
    PreProcessRender("", a);
    assert "" + Render(a) == Render(a);
    assert a[1..][1..] == [];
    assert Sources(map[], a) == Sources(map[GL_VERTEX_SHADER := vs], a[1..]);
  }

  /** A repeated stage keeps only its last section ("pixel" is the fragment stage). */
  lemma RepeatedStageKeepsLast(fs: string, fs2: string)
    requires WellFormed(Section("fragment", fs)) && WellFormed(Section("pixel", fs2))
    ensures PreProcess(Render([Section("fragment", fs), Section("pixel", fs2)]))
      == Some(map[GL_FRAGMENT_SHADER := fs2])
  {
    PreProcessTwo(Section("fragment", fs), Section("pixel", fs2));
    SourcesOfTwo(Section("fragment", fs), Section("pixel", fs2));
    assert ShaderTypeFromString("pixel") == GL_FRAGMENT_SHADER;
    assert ShaderTypeFromString("fragment") == GL_FRAGMENT_SHADER;
    assert map[][GL_FRAGMENT_SHADER := fs][GL_FRAGMENT_SHADER := fs2] == map[GL_FRAGMENT_SHADER := fs2];
  }

  lemma PreProcessTwo(x: Section, y: Section)
    requires WellFormed(x) && WellFormed(y)
    ensures PreProcess(Render([x, y])) == Some(Sources(map[], [x, y]))
  {
    PreProcessRender("", [x, y]);
    assert "" + Render([x, y]) == Render([x, y]);
  }

  /** The map two sections describe. */
  lemma SourcesOfTwo(x: Section, y: Section)
    ensures Sources(map[], [x, y])
      == map[][ShaderTypeFromString(x.stageName) := x.body][ShaderTypeFromString(y.stageName) := y.body]
  {
    var secs := [x, y];
    var m1 := map[][ShaderTypeFromString(x.stageName) := x.body];
    var m2 := m1[ShaderTypeFromString(y.stageName) := y.body];
    assert secs[1..] == [y];
    assert [y][1..] == [];
    assert Sources(m1, [y]) == Sources(m2, []) == m2;
  }

  // ---------------------------------------------------------------------------
  // Name from the file path

  /** `size_t` arithmetic wraps modulo 2^64. */
  const SIZE_T_MODULUS: nat := 0x1_0000_0000_0000_0000

  /** The name the path constructor gives a shader: from after the last '/' or
      '\' up to the last '.'. The count `lastDot - lastSlashPos` is computed in
      `size_t`; when the last dot lies in the directory part it wraps to a huge
      value, which `substr` clamps to the end of the string. */
  function NameFromPath(path: string): (name: string)
    requires |path| < SIZE_T_MODULUS
  {
    var lastSlash := NameStart(path);
    var count := match RFind(path, '.')
      case None => |path| - lastSlash
      case Some(dot) => (dot - lastSlash) % SIZE_T_MODULUS;
    var available := |path| - lastSlash;
    path[lastSlash..lastSlash + (if count < available then count else available)]
  }

  /** Where the file name starts: after the last separator, or at 0. */
  function NameStart(path: string): (k: nat)
    ensures k <= |path|
  {
    match FindLastOf(path, {'/', '\\'}) case None => 0 case Some(i) => i + 1
  }

  /** The file name is the path from `NameStart`. */
  function FileName(path: string): (f: string)
    ensures forall j :: 0 <= j < |f| ==> f[j] != '/' && f[j] != '\\'
    ensures EndsWith(path, f)
    ensures f == path[NameStart(path)..]
  {
    match FindLastOf(path, {'/', '\\'})
    case None => path
    case Some(i) => path[i + 1..]
  }

  /** The name is the file name cut at its last dot, or the whole file name when
      the file name has no dot (whether or not the directories do). */
  lemma NameIsFileNameStem(path: string)
    requires |path| < SIZE_T_MODULUS
    ensures var f := FileName(path);
      && (RFind(f, '.').Some? ==> NameFromPath(path) == f[..RFind(f, '.').value])
      && (RFind(f, '.').None? ==> NameFromPath(path) == f)
  {
    var k := NameStart(path);
    var f := FileName(path);
    match RFind(path, '.')
    case None =>
      NameWithoutAnyDot(path);
      NoDotAfter(path, k);
    case Some(dot) =>
      if dot >= k {
        NameWithDotInFileName(path, dot);
        LastDotAfter(path, k, dot);
        assert path[k..dot] == f[..dot - k];
      } else {
        NameWithDotBeforeFileName(path, dot);
        NoDotAfter(path, k);
      }
  }

  lemma NameWithoutAnyDot(path: string)
    requires |path| < SIZE_T_MODULUS && RFind(path, '.').None?
    ensures NameFromPath(path) == path[NameStart(path)..]
  {
  }

  lemma NameWithDotInFileName(path: string, dot: nat)
    requires |path| < SIZE_T_MODULUS && RFind(path, '.') == Some(dot) && dot >= NameStart(path)
    ensures NameFromPath(path) == path[NameStart(path)..dot]
  {
    assert (dot - NameStart(path)) % SIZE_T_MODULUS == dot - NameStart(path);
  }

  lemma NameWithDotBeforeFileName(path: string, dot: nat)
    requires |path| < SIZE_T_MODULUS && RFind(path, '.') == Some(dot) && dot < NameStart(path)
    ensures NameFromPath(path) == path[NameStart(path)..]
  {
    assert (dot - NameStart(path)) % SIZE_T_MODULUS == SIZE_T_MODULUS + dot - NameStart(path);
  }

  /** A tail without a dot has none to find. */
  lemma NoDotAfter(path: string, k: nat)
    requires k <= |path|
    requires forall j :: k <= j < |path| ==> path[j] != '.'
    ensures RFind(path[k..], '.').None?
  {
    var f := path[k..];
    forall j | 0 <= j < |f| ensures f[j] != '.' {
      assert f[j] == path[k + j];
    }
  }

  /** The last dot of a path, when it lies in the tail from `k`, is the last
      dot of that tail, shifted by `k`. */
  lemma LastDotAfter(path: string, k: nat, dot: nat)
    requires k <= dot < |path| && path[dot] == '.'
    requires forall j :: dot < j < |path| ==> path[j] != '.'
    ensures RFind(path[k..], '.') == Some(dot - k)
  {
    var f := path[k..];
    assert f[dot - k] == '.';
    forall j | dot - k < j < |f| ensures f[j] != '.' {
      assert f[j] == path[k + j];
    }
    RFindIs(f, '.', dot - k);
  }

  lemma NameExamples()
    ensures NameFromPath("assets/shaders/Texture.glsl") == "Texture"
    ensures NameFromPath("assets\\Flat") == "Flat"
    ensures NameFromPath("assets.v2/Flat") == "Flat"
  {
    NameOfTexture();
    NameWithoutDot();
    NameWithDotInDirectory();
  }

  lemma NameOfTexture()
    ensures NameFromPath("assets/shaders/Texture.glsl") == "Texture"
  {
    var p := "assets/shaders/Texture.glsl";
    RFindIs(p, '.', 22);
    FindLastOfIs(p, {'/', '\\'}, 14);
    assert (22 - 15) % SIZE_T_MODULUS == 7;
    assert p[15..22] == "Texture";
  }

  lemma NameWithoutDot()
    ensures NameFromPath("assets\\Flat") == "Flat"
  {
    var q := "assets\\Flat";
    FindLastOfIs(q, {'/', '\\'}, 6);
    assert RFind(q, '.').None? by {
      assert forall j :: 0 <= j < |q| ==> q[j] != '.';
    }
  }

  lemma NameWithDotInDirectory()
    ensures NameFromPath("assets.v2/Flat") == "Flat"
  {
    var u := "assets.v2/Flat";
    FindLastOfIs(u, {'/', '\\'}, 9);
    RFindIs(u, '.', 6);
  }

  // ---------------------------------------------------------------------------
  // Cache file extensions

  /** The extension of a cached OpenGL binary; other stages assert and give "". */
  function CachedOpenGLExtension(stage: nat): (ext: string)
    ensures stage == GL_VERTEX_SHADER ==> ext == ".cached_opengl.vert"
    ensures stage == GL_FRAGMENT_SHADER ==> ext == ".cached_opengl.frag"
    ensures stage != GL_VERTEX_SHADER && stage != GL_FRAGMENT_SHADER ==> ext == ""
  {
    if stage == GL_VERTEX_SHADER then ".cached_opengl.vert"
    else if stage == GL_FRAGMENT_SHADER then ".cached_opengl.frag"
    else ""
  }

  /** The extension of a cached Vulkan binary; other stages assert and give "". */
  function CachedVulkanExtension(stage: nat): (ext: string)
    ensures stage == GL_VERTEX_SHADER ==> ext == ".cached_vulkan.vert"
    ensures stage == GL_FRAGMENT_SHADER ==> ext == ".cached_vulkan.frag"
    ensures stage != GL_VERTEX_SHADER && stage != GL_FRAGMENT_SHADER ==> ext == ""
  {
    if stage == GL_VERTEX_SHADER then ".cached_vulkan.vert"
    else if stage == GL_FRAGMENT_SHADER then ".cached_vulkan.frag"
    else ""
  }

  /** The four cache files of the two stages never collide: the extension names
      the stage and the back end. */
  lemma CacheExtensionsDistinct(a: nat, b: nat)
    ensures CachedOpenGLExtension(a) != "" <==> a == GL_VERTEX_SHADER || a == GL_FRAGMENT_SHADER
    ensures CachedVulkanExtension(a) != "" <==> a == GL_VERTEX_SHADER || a == GL_FRAGMENT_SHADER
    ensures CachedOpenGLExtension(a) != "" && CachedOpenGLExtension(a) == CachedOpenGLExtension(b) ==> a == b
    ensures CachedVulkanExtension(a) != "" && CachedVulkanExtension(a) == CachedVulkanExtension(b) ==> a == b
    ensures CachedOpenGLExtension(a) != "" ==> CachedOpenGLExtension(a) != CachedVulkanExtension(b)
  {
    assert ".cached_opengl.vert"[15] != ".cached_opengl.frag"[15];
    assert ".cached_vulkan.vert"[15] != ".cached_vulkan.frag"[15];
    assert ".cached_opengl.vert"[8] != ".cached_vulkan.vert"[8];
  }
}
